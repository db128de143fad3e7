/** The navigation state machine of the editor: a cursor in buffer space, the
    keys that move it, and the position each key leads to.

    The document is represented only by the lengths of its rows: `document[i]`
    is the length of row `i`, and there is no row at index `|document|` or
    beyond. Row index `|document|` is nevertheless a legal resting place for
    the cursor (one past the last line). */
module Navigation {

  /** A buffer-space coordinate: column `x`, row `y`. */
  datatype Position = Position(x: nat, y: nat)

  /** The keys the editor distinguishes. Keys it does not act on are `Char`
      (a plain character), `Ctrl` of another letter than 'q', and `Other`. */
  datatype Key =
    | Up | Down | Left | Right
    | PageUp | PageDown | Home | End
    | Ctrl(c: char)
    | Char(c: char)
    | Other

  /** Subtraction that stops at zero, as `usize::saturating_sub`. */
  function SatSub(a: nat, b: nat): nat {
    if a >= b then a - b else 0
  }

  function Min(a: nat, b: nat): nat {
    if a <= b then a else b
  }

  /** Length of row `y`, or 0 when the document has no row there. */
  function RowLen(document: seq<nat>, y: nat): nat {
    if y < |document| then document[y] else 0
  }

  /** The keys that the keypress handler passes on to the cursor mover. */
  predicate IsNavigation(key: Key) {
    key.Up? || key.Down? || key.Left? || key.Right? ||
    key.PageUp? || key.PageDown? || key.Home? || key.End?
  }

  /** The cursor invariant: the row is at most one past the last row, and the
      column at most the length of that row (0 past the last row). */
  predicate InBounds(p: Position, document: seq<nat>) {
    p.y <= |document| && p.x <= RowLen(document, p.y)
  }

  /** The position a key asks for, before the column is re-clamped. Row width
      is taken at the row the cursor starts on. */
  function Target(p: Position, key: Key, document: seq<nat>): (t: Position)
    ensures key.Left? || key.Right? || key.Home? || key.End? ==> t.y == p.y
    ensures key.Up? || key.Down? || key.PageUp? || key.PageDown? ==> t.x == p.x
    ensures !IsNavigation(key) ==> t == p
    ensures p.y <= |document| ==> t.y <= |document|
    ensures InBounds(p, document) && t.y == p.y ==> t.x <= RowLen(document, p.y)
  {
    var width := RowLen(document, p.y);
    match key
    case Up => p.(y := SatSub(p.y, 1))
    case Down => if p.y < |document| then p.(y := p.y + 1) else p
    case Left => p.(x := SatSub(p.x, 1))
    case Right => if p.x < width then p.(x := p.x + 1) else p
    case PageUp => p.(y := 0)
    case PageDown => p.(y := |document|)
    case Home => p.(x := 0)
    case End => p.(x := width)
    case _ => p
  }

  /** The cursor after `key`: the target position with its column pulled back
      to the length of the row it ends on. The clamp applies to every key. */
  function MoveCursor(p: Position, key: Key, document: seq<nat>): (r: Position)
    ensures r.x <= RowLen(document, r.y)
    ensures r.x <= Target(p, key, document).x
    ensures p.y <= |document| ==> r.y <= |document|
  {
    var t := Target(p, key, document);
    Position(Min(t.x, RowLen(document, t.y)), t.y)
  }

  /** What a keypress does to the cursor: navigation keys move it, every other
      key leaves it where it is. */
  function Dispatch(p: Position, key: Key, document: seq<nat>): (r: Position)
    ensures InBounds(p, document) ==> InBounds(r, document)
    ensures !IsNavigation(key) ==> r == p
  {
    if IsNavigation(key) then MoveCursor(p, key, document) else p
  }

  /** The cursor after pressing `key` `n` times in a row. */
  function Presses(p: Position, key: Key, n: nat, document: seq<nat>): Position
    decreases n
  {
    if n == 0 then p else MoveCursor(Presses(p, key, n - 1, document), key, document)
  }

  // ---------------------------------------------------------------------
  // Properties of the transition table

  /** Every transition keeps the cursor invariant. */
  lemma MoveCursorKeepsBounds(p: Position, key: Key, document: seq<nat>)
    requires InBounds(p, document)
    ensures InBounds(MoveCursor(p, key, document), document)
  {
  }

  /** Up on the first row and Left on the first column saturate: the cursor
      stays put. */
  lemma UpAtTopStays(p: Position, document: seq<nat>)
    requires InBounds(p, document) && p.y == 0
    ensures MoveCursor(p, Up, document) == p
  {
  }

  lemma LeftAtStartStays(p: Position, document: seq<nat>)
    requires p.x == 0
    ensures MoveCursor(p, Left, document) == p
  {
  }

  /** Horizontal keys never change the row. On a cursor that satisfies the
      invariant, Left steps back, Right steps forward only while it is before
      the end of the row, Home goes to column 0 and End to the row's end. */
  lemma HorizontalKeys(p: Position, document: seq<nat>)
    requires InBounds(p, document)
    ensures MoveCursor(p, Left, document) == Position(SatSub(p.x, 1), p.y)
    ensures MoveCursor(p, Right, document) ==
      Position(if p.x < RowLen(document, p.y) then p.x + 1 else p.x, p.y)
    ensures MoveCursor(p, Home, document) == Position(0, p.y)
    ensures MoveCursor(p, End, document) == Position(RowLen(document, p.y), p.y)
  {
  }

  /** Vertical keys change only the row before the clamp: the column is kept
      when the new row is long enough and is pulled back to the new row's end
      otherwise. PageUp goes to the first row, PageDown one past the last. */
  lemma VerticalKeys(p: Position, key: Key, document: seq<nat>)
    requires key.Up? || key.Down? || key.PageUp? || key.PageDown?
    ensures var r := MoveCursor(p, key, document);
      r.y == (match key
              case Up => SatSub(p.y, 1)
              case Down => if p.y < |document| then p.y + 1 else p.y
              case PageUp => 0
              case _ => |document|) &&
      (p.x <= RowLen(document, r.y) ==> r.x == p.x) &&
      (p.x > RowLen(document, r.y) ==> r.x == RowLen(document, r.y))
  {
  }

  /** PageDown lands one past the last row, where the column must be 0. */
  lemma PageDownGoesPastEnd(p: Position, document: seq<nat>)
    ensures MoveCursor(p, PageDown, document) == Position(0, |document|)
  {
  }

  /** Down never leaves the rows plus the one resting row past them: at row
      `|document|` it stays. */
  lemma DownAtEndStays(p: Position, document: seq<nat>)
    requires InBounds(p, document) && p.y == |document|
    ensures MoveCursor(p, Down, document) == p
  {
  }

  /** Pressing Right `n` times on a valid cursor walks it along the row and
      stops at the row's end. */
  lemma {:induction false} RightPresses(p: Position, n: nat, document: seq<nat>)
    requires InBounds(p, document)
    ensures Presses(p, Right, n, document) == Position(Min(p.x + n, RowLen(document, p.y)), p.y)
  {
    if n > 0 {
      RightPresses(p, n - 1, document);
    }
  }

  /** Rows of lengths [5, 0, 10] with the cursor at (5, 0): two Downs pass
      over the empty row and land at (0, 2); from there Right reaches column
      10 and no further. */
  lemma DownTwiceOverEmptyRow()
    ensures Presses(Position(5, 0), Down, 2, [5, 0, 10]) == Position(0, 2)
    ensures Presses(Position(0, 2), Right, 10, [5, 0, 10]) == Position(10, 2)
    ensures Presses(Position(0, 2), Right, 11, [5, 0, 10]) == Position(10, 2)
  {
    assert Presses(Position(5, 0), Down, 1, [5, 0, 10]) == Position(0, 1);
    RightPresses(Position(0, 2), 10, [5, 0, 10]);
    RightPresses(Position(0, 2), 11, [5, 0, 10]);
  }
}
