# Cursor and viewport engine of the Hector terminal editor

This project models the core of `src/editor.rs` in Dafny and proves properties of it. That core has three parts:

- the navigation state machine, which moves the cursor for the arrow, PageUp, PageDown, Home and End keys and re-clamps its column;
- the viewport scroll, which moves the window offset so that the cursor stays on screen;
- the paint logic, which decides for each painted screen row whether it shows a document row, the welcome banner or a `~`.

The keypress handler, the quit flag and the main loop tie these together.

The document is modelled only by its row lengths (`seq<nat>`). There is no row at index `|document|` or beyond, but the cursor may rest on row `|document|`. The terminal is a fixed `width` × `height`, both at least 1.

Modules:

- `Navigation`: positions, keys, and the transition function `MoveCursor`, with lemmas for each key.
- `Viewport`: the scroll rule per axis, visibility, and the on-screen cursor cell.
- `Render`: the welcome banner, the choice made for each screen row, and the frame shown by one paint.
- `Session`: the editor state as a value, one keypress, a replay of many keypresses, and where the quit key stops a stream of keys.
- `EditorLoop`: the class `Editor`. Its fields `cursor`, `offset` and `shouldQuit` are updated in place by `MoveCursor`, `Scroll` and `ProcessKeypress`. `DrawRows` and `RefreshScreen` compute what a paint shows. `Run` is the main loop over a stream of keys. Each method is proved against the functions of the modules above.

Two behaviours of the code worth noting:

- Down moves only while `y < |document|`. A cursor on a row past `|document|` keeps its row, though its column is still re-clamped to 0; it is not pulled back to `|document|`. The editor never reaches such a cursor, because its invariant keeps `y <= |document|`.
- `draw_rows` paints screen rows `0 .. height - 1`, which is one row fewer than the terminal height. The scroll rule, however, uses the full height. So the cursor can sit on the last screen row, which is never painted. `Render.CursorRowAtMostOneBelowPainted` bounds this in general. `Render.CursorOnUnpaintedRow` shows a concrete case: a 30-row document, a 24-row terminal, and the cursor on row 23 with the window at the top. Document row 23 exists, but no painted row shows it.

## Model

| member | source | states |
|---|---|---|
| `Navigation.Target` | src/editor.rs:109-135 | the key match before the re-clamp: horizontal keys keep the row, vertical keys keep the column, keys that are not navigation keys change nothing, a row at most `|document|` stays so, and on the same row a valid cursor's column stays within the row; exact values after the re-clamp are pinned by `HorizontalKeys` and `VerticalKeys` |
| `Navigation.MoveCursor` | src/editor.rs:106-148 | the new column never exceeds the length of the row the cursor ends on (0 when there is no row there); it never exceeds the column the key asked for; a row at most `|document|` stays at most `|document|` |
| `Navigation.Dispatch` | src/editor.rs:70-80 | an in-bounds cursor stays in bounds after any key; a key that is not a navigation key leaves the cursor unchanged |
| `Navigation.MoveCursorKeepsBounds` | src/editor.rs:109-145 | every navigation key keeps `y <= |document|` and `x <= ` the length of row `y` |
| `Navigation.UpAtTopStays` | src/editor.rs:117 | Up on row 0 saturates and leaves a valid cursor unchanged |
| `Navigation.LeftAtStartStays` | src/editor.rs:123 | Left at column 0 saturates and leaves the cursor unchanged |
| `Navigation.HorizontalKeys` | src/editor.rs:123-133 | Left, Right, Home and End keep the row. Left steps back with saturation, Right steps forward only before the row's end, Home goes to 0 and End to the row's length |
| `Navigation.VerticalKeys` | src/editor.rs:116-145 | Up, Down, PageUp and PageDown set the row as the key says. The column is kept when the new row is long enough, and otherwise becomes the new row's length |
| `Navigation.PageDownGoesPastEnd` | src/editor.rs:131-145 | PageDown always lands at `(0, |document|)` |
| `Navigation.DownAtEndStays` | src/editor.rs:118-122 | Down on the resting row `|document|` does not move the cursor |
| `Navigation.RightPresses` | src/editor.rs:124-145 | `n` presses of Right from a valid cursor give column `min(x + n, row length)` on the same row |
| `Navigation.DownTwiceOverEmptyRow` | src/editor.rs:116-145 | rows [5, 0, 10] with the cursor at (5, 0): Down twice gives (0, 2); Right then reaches column 10 and stops there |
| `Viewport.ScrollAxis` | src/editor.rs:93-103 | on a window of at least one cell the result shows the cursor; an offset that already shows it is kept; otherwise the offset becomes the cursor, or the cursor minus the size plus one |
| `Viewport.Scroll` | src/editor.rs:88-104 | with width and height at least 1 the new offset shows the cursor on both axes; an offset that already shows it is unchanged |
| `Viewport.ScreenPosition` | src/editor.rs:57-60 | the terminal cursor cell is never past the buffer cursor, and is exactly cursor minus offset on each axis where the offset does not exceed the cursor; on screen for a visible cursor by `ScreenPositionOnScreen` |
| `Viewport.ScrollAxisMinimal` | src/editor.rs:93-97 | no window start that shows the cursor is closer to the old offset than the one chosen |
| `Viewport.ScrollAxisDirection` | src/editor.rs:93-97 | the window moves back exactly when the cursor is before it, and then to the cursor. It moves forward exactly when the cursor is at or past its end, and then to `c - size + 1` |
| `Viewport.ScrollIdempotent` | src/editor.rs:88-104 | scrolling again with an unchanged cursor changes nothing |
| `Viewport.ScrollAxisEmptyWindowMoves` | src/editor.rs:95-96 | with a window of size 0, a second scroll always moves the offset again, so the size-at-least-1 requirement of the properties above is needed |
| `Viewport.ScreenPositionOnScreen` | src/editor.rs:57-60 | for a visible cursor, the terminal cursor cell is inside the terminal and equals cursor minus offset |
| `Viewport.ScrollPastRightEdge` | src/editor.rs:95-96 | width 80, offset 0 and column 85 give offset 6 |
| `Render.WelcomeMessage` | src/editor.rs:151 | the message is `|version| + 26` characters long, holds the version at columns 25 onward and ends in a carriage return |
| `Render.Truncate` | src/editor.rs:159 | truncation keeps the first `min(|s|, width)` characters |
| `Render.Banner` | src/editor.rs:150-161 | the banner is never longer than the terminal width |
| `Render.BannerStartsWithTilde` | src/editor.rs:155-159 | on a terminal at least one column wide the banner starts with `~` |
| `Render.BannerCentered` | src/editor.rs:151-159 | when the terminal is at least two columns wider than the message, the whole message appears: the `~` and the spaces fill the `padding = (width - len) / 2` columns before it, and `padding` or `padding + 1` columns stay empty after it |
| `Render.BannerNarrow` | src/editor.rs:155-159 | when the message does not fit beside padding, the banner is `~` and the message, cut to the width |
| `Render.SelectLine` | src/editor.rs:184-194 | a screen row shows a document row exactly when row `offset.y + r` exists, asking for a range of `width` columns from `offset.x`; the banner only for an empty document on row `height / 3`, never wider than the terminal; further characterised by `ScreenShowsDocumentWindow`, `NoBannerForNonEmptyDocument` and `EmptyDocumentScreen` |
| `Render.ScreenLines` | src/editor.rs:182 | `height - 1` painted rows; every document row shown exists; the banner appears only on row `height / 3` of an empty document, so at most once |
| `Render.ScreenShowsDocumentWindow` | src/editor.rs:179-189 | painted row `r` shows document row `offset.y + r` exactly when that row exists, asking for columns `[offset.x, offset.x + width)` |
| `Render.NoBannerForNonEmptyDocument` | src/editor.rs:190-191 | a document with rows never shows the banner |
| `Render.EmptyDocumentScreen` | src/editor.rs:182-194 | for an empty document on a terminal with at least 2 rows, the banner is on painted row `height / 3` and every other painted row is `~` |
| `Render.FirstPaintOfEmptyDocument` | src/editor.rs:182-194 | an empty document on 80×24 gets 23 painted rows, the banner on row 8 and `~` on the rest |
| `Render.CursorRowAtMostOneBelowPainted` | src/editor.rs:182 | with a visible cursor, the cursor's screen row is at most the number of painted rows |
| `Render.CursorOnUnpaintedRow` | src/editor.rs:182 | a concrete state where the cursor's screen row is the unpainted last row and its document row is shown by no painted row |
| `Session.QuitIndex` | src/editor.rs:71 | the index returned holds the first Ctrl-q of the key stream, and no earlier key is Ctrl-q |
| `Session.Keypress` | src/editor.rs:67-86 | a key that is not a navigation key keeps the cursor; an in-bounds cursor stays in bounds; with a terminal of at least one cell the cursor is on screen afterwards, Ctrl-q included |
| `Session.Replay` | src/editor.rs:33-45 | a stream with no navigation key leaves the cursor where it was; characterised further by `ReplayConsistent` and `IgnoredKeysChangeNothing` |
| `Session.ReplayStep` | src/editor.rs:41-43 | replaying one more key of the stream is one more keypress on the replayed state |
| `Session.TraceIsReplay` | src/editor.rs:33-45 | a sequence of states, each one keypress after the one before, is the sequence of replays of the successive prefixes of the key stream |
| `Session.KeypressConsistent` | src/editor.rs:67-86 | after any keypress from an in-bounds cursor, the cursor is in bounds and on screen |
| `Session.IgnoredKeyChangesNothing` | src/editor.rs:80-83 | a key other than a navigation key leaves a consistent cursor and offset unchanged |
| `Session.ReplayConsistent` | src/editor.rs:33-45 | any sequence of keypresses from a consistent state ends in a consistent state |
| `Session.IgnoredKeysChangeNothing` | src/editor.rs:80-83 | a stream made only of keys that are not navigation keys leaves a consistent state unchanged |
| `EditorLoop.Editor.constructor` | src/editor.rs:210-218 | a new editor is not quitting, has cursor and offset at the origin, and satisfies the editor invariant |
| `EditorLoop.Editor.MoveCursor` | src/editor.rs:106-148 | the cursor field becomes `Navigation.MoveCursor` of the old cursor; nothing else changes |
| `EditorLoop.Editor.Scroll` | src/editor.rs:88-104 | the offset field becomes `Viewport.Scroll` of the cursor and old offset, and then shows the cursor |
| `EditorLoop.Editor.ProcessKeypress` | src/editor.rs:67-86 | the quit flag is raised exactly by Ctrl-q and never lowered; cursor and offset become one `Session.Keypress`; the editor invariant is kept |
| `EditorLoop.Editor.Paint` | src/editor.rs:55-60 | a paint has `height - 1` rows, and for a visible cursor the terminal cursor cell is inside the terminal |
| `EditorLoop.Editor.DrawRows` | src/editor.rs:175-196 | `height - 1` lines, line `r` being the choice of `Render.SelectLine` for screen row `r` |
| `EditorLoop.Editor.RefreshScreen` | src/editor.rs:47-65 | the farewell exactly when quitting. Otherwise the `Paint` of the current cursor and offset, with the terminal cursor inside the terminal |
| `EditorLoop.Editor.Run` | src/editor.rs:33-45 | the loop handles keys up to and including the first Ctrl-q, or all keys if there is none. It paints one frame per handled key plus a last one, which is the farewell exactly when quitting. Each earlier frame is the screen of the state after the keys before it, with the cursor on screen. The final state is the replay of the handled keys |

## Left out

- Terminal output is not modelled: hiding and showing the cursor, moving it, clearing lines and the screen, `println!` and `flush` (src/editor.rs:47-65, 183-193). A paint is returned as a `Frame` value instead.
- Key decoding by `termion` is a foreign library (src/editor.rs:68). Keys are a datatype; the keys the editor ignores are grouped as `Char`, `Ctrl` of other letters, and `Other`. A failed key read is not modelled.
- The blocking read in the main loop is not modelled. `Run` takes the keys as a finite sequence and stops after painting once they are used up, where the program would wait for more input.
- Syntax highlighting with `syntect` is cosmetic and a foreign library (src/editor.rs:169-170, 186-187, 199-201). A painted document row is identified only by its index and the column range asked of it. The characters of that slice are not modelled.
- `Editor::draw_row` (src/editor.rs:164-173) is not called in the shown code. The slice it would print is the same opaque `DocumentRow` slice.
- `Row` and `Document` are not part of this model. `Row::render`, `Row::len` and `Document::row` are represented by the row-length sequence.
- `Editor::default` loads the file with `Document::open` and falls back to an empty document on error. It also looks up the syntax and theme with `unwrap` and sets up the terminal (src/editor.rs:198-219). These are file I/O and library setup. The constructor takes the document, terminal size and version as parameters.
- `VERSION` comes from the package's build metadata, which is not part of this model. The banner takes the version as a parameter. The banner's length is counted in characters; the source counts bytes, which is the same for an ASCII version.
- `die` and its `panic!` are error teardown (src/editor.rs:222-225). `src/main.rs` only wires the modules together.
- Overflow of `usize` is not modelled, because integers are unbounded: neither the saturation of `saturating_add` (src/editor.rs:95-102, 120, 126) nor the unchecked additions `self.offset.x + width` (src/editor.rs:167, 180) and `terminal_row as usize + self.offset.y` (src/editor.rs:184), which would panic on overflow in a debug build. Underflow of the `u16` `height - 1` in `draw_rows` is not modelled either: the editor requires a terminal of at least 1×1.
- Terminal resizing is not modelled: the size is fixed for the editor's lifetime.
