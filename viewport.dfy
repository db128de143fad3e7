/** The viewport: the buffer-space coordinate of the top-left screen cell,
    recomputed after every keypress so that the cursor stays on screen. */
module Viewport {
  import opened Navigation

  /** The cursor coordinate `c` is shown by a window starting at `offset` of
      `size` cells. */
  predicate AxisVisible(c: nat, offset: nat, size: nat) {
    offset <= c < offset + size
  }

  predicate Visible(cursor: Position, offset: Position, width: nat, height: nat) {
    AxisVisible(cursor.x, offset.x, width) && AxisVisible(cursor.y, offset.y, height)
  }

  /** One axis of the scroll rule: a cursor before the window moves the window
      back to it, a cursor at or past the window's end moves the window so that
      the cursor is its last cell, and a visible cursor changes nothing. */
  function ScrollAxis(c: nat, offset: nat, size: nat): (r: nat)
    ensures size >= 1 ==> AxisVisible(c, r, size)
    ensures AxisVisible(c, offset, size) ==> r == offset
    ensures size >= 1 ==> r == offset || r == c || r + size == c + 1
  {
    if c < offset then c
    else if c >= offset + size then SatSub(c, size) + 1
    else offset
  }

  /** The offset after the scroll, one axis at a time. */
  function Scroll(cursor: Position, offset: Position, width: nat, height: nat): (r: Position)
    ensures width >= 1 && height >= 1 ==> Visible(cursor, r, width, height)
    ensures Visible(cursor, offset, width, height) ==> r == offset
  {
    Position(ScrollAxis(cursor.x, offset.x, width), ScrollAxis(cursor.y, offset.y, height))
  }

  /** Where the terminal cursor is placed: buffer position relative to the
      offset, saturating at zero. */
  function ScreenPosition(cursor: Position, offset: Position): (s: Position)
    ensures s.x <= cursor.x && s.y <= cursor.y
    ensures offset.x <= cursor.x ==> s.x + offset.x == cursor.x
    ensures offset.y <= cursor.y ==> s.y + offset.y == cursor.y
  {
    Position(SatSub(cursor.x, offset.x), SatSub(cursor.y, offset.y))
  }

  function Distance(a: nat, b: nat): nat {
    if a <= b then b - a else a - b
  }

  // ---------------------------------------------------------------------
  // Properties of the scroll rule

  /** The scroll is the smallest move that shows the cursor: no other window
      start that shows the cursor is closer to the old one. */
  lemma ScrollAxisMinimal(c: nat, offset: nat, size: nat, other: nat)
    requires AxisVisible(c, other, size)
    ensures Distance(offset, ScrollAxis(c, offset, size)) <= Distance(offset, other)
  {
  }

  /** The window moves back to the cursor exactly when the cursor is before
      it, and forward exactly when the cursor is at or past its end. */
  lemma ScrollAxisDirection(c: nat, offset: nat, size: nat)
    requires size >= 1
    ensures ScrollAxis(c, offset, size) < offset <==> c < offset
    ensures ScrollAxis(c, offset, size) > offset <==> c >= offset + size
    ensures c < offset ==> ScrollAxis(c, offset, size) == c
    ensures c >= offset + size ==> ScrollAxis(c, offset, size) == c - size + 1
  {
  }

  /** Scrolling twice with an unchanged cursor is scrolling once. */
  lemma ScrollIdempotent(cursor: Position, offset: Position, width: nat, height: nat)
    requires width >= 1 && height >= 1
    ensures var once := Scroll(cursor, offset, width, height);
      Scroll(cursor, once, width, height) == once
  {
  }

  /** Without a cell to show the cursor in, the rule cannot settle: with size
      0 every scroll moves the window again. */
  lemma ScrollAxisEmptyWindowMoves(c: nat, offset: nat)
    ensures ScrollAxis(c, ScrollAxis(c, offset, 0), 0) != ScrollAxis(c, offset, 0)
  {
  }

  /** After a scroll the terminal cursor lands inside the terminal, at the
      cursor's distance from the window start. */
  lemma ScreenPositionOnScreen(cursor: Position, offset: Position, width: nat, height: nat)
    requires Visible(cursor, offset, width, height)
    ensures var s := ScreenPosition(cursor, offset);
      s.x < width && s.y < height &&
      s.x + offset.x == cursor.x && s.y + offset.y == cursor.y
  {
  }

  /** Width 80, offset 0 and column 85 put the window start at column 6. */
  lemma ScrollPastRightEdge()
    ensures ScrollAxis(85, 0, 80) == 6
  {
  }
}
