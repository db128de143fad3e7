/** What one paint of the screen shows: for every painted screen row, a slice
    of a document row, the welcome banner, or a `~` placeholder; and where the
    terminal cursor goes. The characters of a document row's slice and their
    highlighting are not modelled: a shown row is identified by its index and
    the column range asked of it. */
module Render {
  import opened Navigation
  import opened Viewport

  /** The text of the welcome banner before padding. It ends in a carriage
      return, which counts towards its length. */
  function WelcomeMessage(version: string): (m: string)
    ensures |m| == |version| + 26 && m[|m| - 1] == '\r'
    ensures m[25..|m| - 1] == version
  {
    "Hector editor -- version " + version + "\r"
  }

  function Spaces(n: nat): string {
    seq(n, _ => ' ')
  }

  /** `String::truncate`: keep at most the first `width` characters. */
  function Truncate(s: string, width: nat): (t: string)
    ensures |t| == Min(|s|, width) && t == s[..|t|]
  {
    if |s| <= width then s else s[..width]
  }

  /** The banner: a `~`, then enough spaces to centre the message, then the
      message, cut to the terminal width. */
  function Banner(width: nat, version: string): (b: string)
    ensures |b| <= width
  {
    var message := WelcomeMessage(version);
    var padding := SatSub(width, |message|) / 2;
    Truncate("~" + Spaces(SatSub(padding, 1)) + message, width)
  }

  /** One painted screen row. */
  datatype ScreenLine =
    | DocumentRow(index: nat, start: nat, end: nat)
    | Welcome(banner: string)
    | Placeholder

  /** What a refresh puts on the terminal: a painted screen with the terminal
      cursor's cell, or the farewell after a quit. */
  datatype Frame = Screen(lines: seq<ScreenLine>, cursorAt: Position) | Goodbye

  /** The choice made for screen row `row`. */
  function SelectLine(document: seq<nat>, offset: Position, width: nat, height: nat,
                      version: string, row: nat): (line: ScreenLine)
    ensures line.DocumentRow? <==> row + offset.y < |document|
    ensures line.DocumentRow? ==>
      line.index < |document| && line.start == offset.x && line.end - line.start == width
    ensures line.Welcome? ==> |document| == 0 && row == height / 3 && |line.banner| <= width
  {
    var index := row + offset.y;
    if index < |document| then DocumentRow(index, offset.x, offset.x + width)
    else if |document| == 0 && row == height / 3 then Welcome(Banner(width, version))
    else Placeholder
  }

  /** All painted rows: every screen row but the last. */
  function ScreenLines(document: seq<nat>, offset: Position, width: nat, height: nat,
                       version: string): (lines: seq<ScreenLine>)
    requires height >= 1
    ensures |lines| == height - 1
    ensures forall r :: 0 <= r < |lines| && lines[r].DocumentRow? ==> lines[r].index < |document|
    ensures forall r :: 0 <= r < |lines| && lines[r].Welcome? ==> r == height / 3 && |document| == 0
  {
    seq(height - 1, (row: nat) => SelectLine(document, offset, width, height, version, row))
  }

  // ---------------------------------------------------------------------
  // Properties of the banner

  /** On a terminal at least one column wide the banner starts with `~`. */
  lemma BannerStartsWithTilde(width: nat, version: string)
    requires width >= 1
    ensures var b := Banner(width, version); |b| >= 1 && b[0] == '~'
  {
  }

  /** When the terminal is at least two columns wider than the message, the
      whole message is shown: the `~` and the spaces fill the `padding =
      (width - |message|) / 2` columns before it, and `padding` or
      `padding + 1` columns stay empty after it. */
  lemma BannerCentered(width: nat, version: string)
    requires width >= |WelcomeMessage(version)| + 2
    ensures var message := WelcomeMessage(version);
      var padding := (width - |message|) / 2;
      var b := Banner(width, version);
      1 <= padding && |b| == padding + |message| && b[padding..] == message &&
      b[0] == '~' && (forall i :: 1 <= i < padding ==> b[i] == ' ') &&
      padding <= width - |b| <= padding + 1
  {
  }

  /** When the message does not fit beside padding, no space is inserted and
      the `~` followed by the message is cut to the width. */
  lemma BannerNarrow(width: nat, version: string)
    requires width <= |WelcomeMessage(version)| + 1
    ensures Banner(width, version) == ("~" + WelcomeMessage(version))[..width]
  {
  }

  // ---------------------------------------------------------------------
  // Properties of the row selection

  /** Screen row `r` shows document row `offset.y + r` exactly when the
      document has that row, and asks it for the columns of the window. */
  lemma ScreenShowsDocumentWindow(document: seq<nat>, offset: Position, width: nat,
                                  height: nat, version: string, r: nat)
    requires height >= 1 && r < height - 1
    ensures var line := ScreenLines(document, offset, width, height, version)[r];
      (line.DocumentRow? <==> r < SatSub(|document|, offset.y)) &&
      (line.DocumentRow? ==>
         line.index == offset.y + r && line.start == offset.x && line.end == offset.x + width)
  {
  }

  /** A document with rows never shows the banner. */
  lemma NoBannerForNonEmptyDocument(document: seq<nat>, offset: Position, width: nat,
                                    height: nat, version: string, r: nat)
    requires height >= 1 && r < height - 1 && |document| > 0
    ensures !ScreenLines(document, offset, width, height, version)[r].Welcome?
  {
  }

  /** An empty document shows the banner on screen row `height / 3`, which is
      always painted when the terminal has two rows or more, and `~` on every
      other painted row. */
  lemma EmptyDocumentScreen(offset: Position, width: nat, height: nat, version: string)
    requires height >= 2
    ensures var lines := ScreenLines([], offset, width, height, version);
      height / 3 < |lines| &&
      lines[height / 3] == Welcome(Banner(width, version)) &&
      forall r :: 0 <= r < |lines| && r != height / 3 ==> lines[r] == Placeholder
  {
  }

  /** An empty document on an 80 by 24 terminal: banner on row 8, `~` on the
      other 22 painted rows. */
  lemma FirstPaintOfEmptyDocument(version: string)
    ensures var lines := ScreenLines([], Position(0, 0), 80, 24, version);
      |lines| == 23 && lines[8].Welcome? &&
      forall r :: 0 <= r < 23 && r != 8 ==> lines[r] == Placeholder
  {
  }

  /** The scroll keeps the cursor within the terminal's full height, but only
      `height - 1` rows are painted: the cursor is on a painted row or on the
      row just below the last one. */
  lemma CursorRowAtMostOneBelowPainted(document: seq<nat>, cursor: Position, offset: Position,
                                       width: nat, height: nat, version: string)
    requires height >= 1 && Visible(cursor, offset, width, height)
    ensures ScreenPosition(cursor, offset).y <= |ScreenLines(document, offset, width, height, version)|
  {
  }

  /** A 30-row document on an 80 by 24 terminal with the cursor on row 23:
      the scroll leaves the window at the top, so document row 23 exists and
      the cursor is on it, yet no painted row shows it. */
  lemma CursorOnUnpaintedRow(version: string)
    ensures var document := seq(30, _ => 0);
      var cursor := Position(0, 23);
      var offset := Scroll(cursor, Position(0, 0), 80, 24);
      var lines := ScreenLines(document, offset, 80, 24, version);
      offset == Position(0, 0) && InBounds(cursor, document) &&
      ScreenPosition(cursor, offset).y == |lines| &&
      forall r :: 0 <= r < |lines| ==> lines[r] != DocumentRow(23, 0, 80)
  {
  }
}
