/** The editor object: the cursor, the viewport offset and the quit flag,
    updated in place by the keypress handler, and the loop that paints the
    screen and handles one key at a time until the quit key. */
module EditorLoop {
  import opened Navigation
  import opened Viewport
  import opened Render
  import opened Session

  class Editor {
    var shouldQuit: bool
    var cursor: Position
    var offset: Position
    /** Row lengths of the open document. */
    const document: seq<nat>
    /** Terminal size in cells. */
    const width: nat
    const height: nat
    /** The package version shown in the welcome banner. */
    const version: string

    /** The editor invariant: a terminal with at least one cell, a cursor
        within the document, and a viewport that shows the cursor. */
    ghost predicate Valid()
      reads this
    {
      width >= 1 && height >= 1 && Consistent(View(cursor, offset), document, width, height)
    }

    ghost function CurrentView(): View
      reads this
    {
      View(cursor, offset)
    }

    /** The frame painted for a view while not quitting: the painted rows of
        its viewport and the terminal cursor at the cursor's cell within it. */
    function Paint(v: View): (frame: Frame)
      requires height >= 1
      ensures frame.Screen? && |frame.lines| == height - 1
      ensures Visible(v.cursor, v.offset, width, height) ==>
        frame.cursorAt.x < width && frame.cursorAt.y < height
    {
      Screen(ScreenLines(document, v.offset, width, height, version), ScreenPosition(v.cursor, v.offset))
    }

    /** A fresh editor on a document: not quitting, cursor and offset at the
        origin. */
    constructor (document: seq<nat>, width: nat, height: nat, version: string)
      requires width >= 1 && height >= 1
      ensures Valid() && !shouldQuit
      ensures cursor == Position(0, 0) && offset == Position(0, 0)
      ensures this.document == document && this.width == width && this.height == height
      ensures this.version == version
    {
      this.document := document;
      this.width := width;
      this.height := height;
      this.version := version;
      shouldQuit := false;
      cursor := Position(0, 0);
      offset := Position(0, 0);
    }

    /** Moves the cursor for a navigation key and re-clamps its column to the
        row it lands on. */
    method MoveCursor(key: Key)
      modifies this`cursor
      ensures cursor == Navigation.MoveCursor(old(cursor), key, document)
    {
      var y, x := cursor.y, cursor.x;
      var rowWidth := if y < |document| then document[y] else 0;
      var rows := |document|;

      match key {
        case Up => y := SatSub(y, 1);
        case Down =>
          if y < rows {
            y := y + 1;
          }
        case Left => x := SatSub(x, 1);
        case Right =>
          if x < rowWidth {
            x := x + 1;
          }
        case PageUp => y := 0;
        case PageDown => y := rows;
        case Home => x := 0;
        case End => x := rowWidth;
        case _ =>
      }

      rowWidth := if y < |document| then document[y] else 0;
      if x > rowWidth {
        x := rowWidth;
      }
      cursor := Position(x, y);
    }

    /** Moves the viewport by the least amount that shows the cursor. */
    method Scroll()
      modifies this`offset
      ensures offset == Viewport.Scroll(cursor, old(offset), width, height)
      ensures width >= 1 && height >= 1 ==> Visible(cursor, offset, width, height)
    {
      var x, y := cursor.x, cursor.y;

      if x < offset.x {
        offset := offset.(x := x);
      } else if x >= offset.x + width {
        offset := offset.(x := SatSub(x, width) + 1);
      }

      if y < offset.y {
        offset := offset.(y := y);
      } else if y >= offset.y + height {
        offset := offset.(y := SatSub(y, height) + 1);
      }
    }

    /** Handles one key: Ctrl-q raises the quit flag, navigation keys move the
        cursor, other keys do nothing; the viewport is scrolled in every case. */
    method ProcessKeypress(key: Key)
      requires Valid()
      modifies this`shouldQuit, this`cursor, this`offset
      ensures Valid()
      ensures shouldQuit == (old(shouldQuit) || key == Quit)
      ensures CurrentView() == Keypress(old(CurrentView()), key, document, width, height)
    {
      match key {
        case Ctrl(c) =>
          if c == 'q' {
            shouldQuit := true;
          }
        case Up | Down | Left | Right | PageUp | PageDown | Home | End =>
          MoveCursor(key);
        case _ =>
      }
      Scroll();
    }

    /** Decides what each painted screen row shows. */
    method DrawRows() returns (lines: seq<ScreenLine>)
      requires height >= 1
      ensures |lines| == height - 1
      ensures forall r :: 0 <= r < |lines| ==>
        lines[r] == SelectLine(document, offset, width, height, version, r)
    {
      var start := offset.x;
      var end := offset.x + width;
      lines := [];
      for terminalRow := 0 to height - 1
        invariant |lines| == terminalRow
        invariant forall r :: 0 <= r < terminalRow ==>
          lines[r] == SelectLine(document, offset, width, height, version, r)
      {
        var line;
        if terminalRow + offset.y < |document| {
          line := DocumentRow(terminalRow + offset.y, start, end);
        } else if |document| == 0 && terminalRow == height / 3 {
          line := Welcome(Banner(width, version));
        } else {
          line := Placeholder;
        }
        lines := lines + [line];
      }
    }

    /** One paint: the farewell once quitting, otherwise the painted rows and
        the terminal cursor placed at the cursor's cell within the viewport. */
    method RefreshScreen() returns (frame: Frame)
      requires Valid()
      ensures frame.Goodbye? <==> shouldQuit
      ensures frame.Screen? ==>
        frame == Paint(CurrentView()) && frame.cursorAt.x < width && frame.cursorAt.y < height
    {
      if shouldQuit {
        frame := Goodbye;
      } else {
        var lines := DrawRows();
        frame := Screen(lines, Position(SatSub(cursor.x, offset.x), SatSub(cursor.y, offset.y)));
      }
    }

    /** The main loop over a stream of keys: paint, stop if quitting, handle
        the next key, and repeat. The loop also stops, after painting, once
        the stream is used up. The paint that opens each turn is written here
        as a first paint before the loop and one after each handled key; the
        ghost `trace` records the state each paint saw. Returns every frame
        painted and how many keys were handled. */
    method Run(keys: seq<Key>) returns (frames: seq<Frame>, handled: nat)
      requires Valid()
      modifies this`shouldQuit, this`cursor, this`offset
      ensures Valid()
      ensures handled == if old(shouldQuit) then 0
                         else if QuitIndex(keys) < |keys| then QuitIndex(keys) + 1
                         else |keys|
      ensures shouldQuit == (old(shouldQuit) || QuitIndex(keys) < |keys|)
      ensures CurrentView() == Replay(old(CurrentView()), keys[..handled], document, width, height)
      ensures |frames| == handled + 1
      ensures frames[handled].Goodbye? <==> shouldQuit
      ensures forall i :: 0 <= i < handled ==> frames[i].Screen?
      ensures forall i :: 0 <= i < |frames| && frames[i].Screen? ==>
        frames[i] == Paint(Replay(old(CurrentView()), keys[..i], document, width, height)) &&
        frames[i].cursorAt.x < width && frames[i].cursorAt.y < height
    {
      var frame := RefreshScreen();
      frames := [frame];
      handled := 0;
      ghost var trace := [CurrentView()];
      while !shouldQuit && handled < |keys|
        invariant Valid()
        invariant handled <= |keys|
        invariant old(shouldQuit) ==> handled == 0 && shouldQuit
        invariant !old(shouldQuit) ==>
          handled <= QuitIndex(keys) + 1 && (shouldQuit <==> handled == QuitIndex(keys) + 1)
        invariant |trace| == handled + 1 && trace[0] == old(CurrentView())
        invariant forall i :: 0 <= i < handled ==>
          trace[i + 1] == Keypress(trace[i], keys[i], document, width, height)
        invariant CurrentView() == trace[handled]
        invariant |frames| == handled + 1
        invariant frames[handled].Goodbye? <==> shouldQuit
        invariant forall i :: 0 <= i < handled ==> frames[i].Screen?
        invariant forall i :: 0 <= i < |frames| && frames[i].Screen? ==> frames[i] == Paint(trace[i])
        decreases |keys| - handled
      {
        ProcessKeypress(keys[handled]);
        trace := trace + [CurrentView()];
        handled := handled + 1;
        frame := RefreshScreen();
        frames := frames + [frame];
      }
      TraceIsReplay(old(CurrentView()), keys, trace, handled, document, width, height);
      forall i | 0 <= i < |frames| && frames[i].Screen?
        ensures frames[i].cursorAt.x < width && frames[i].cursorAt.y < height
      {
        ReplayConsistent(old(CurrentView()), keys[..i], document, width, height);
      }
    }
  }
}
