# Canvas backend for a text-UI library, and two example apps

This project models the canvas backend of ratatui.wasm in Dafny. The backend turns the character grid that a terminal-UI library computes each frame into drawing calls on a browser 2D canvas. It also answers the library's size and cursor queries. Alongside it are two small state machines from the example programs: the table's row selection and row heights, and the scrollbar example's key handling.

The canvas is an append-only log of abstract operations (`Surface.Op`): set fill style, fill rect, move to, set font, fill text, clear rect, and set canvas width/height. Each backend call is a pure function. It takes its arguments and the canvas's live bounding rectangle and returns the operations it issues, plus its answer. `Surface.Marks` and `Surface.Final` interpret a log: they give the marks it leaves on the surface and the context state it leaves behind (fill style, font, pen position, buffer size). The backend promises are stated against that interpretation.

The geometry constants are cell width 16, line height 18, font size 16, a 5-pixel top offset and a descent of 1. With them, every pixel coordinate is a whole number. A cell at column x and row y has its origin at (16x, 18y + 5) and its glyph baseline at 18y + 22.

The model follows the code where it departs from the intended design:
- The "last-applied" foreground and background are never updated, because the assignments are commented out. A cell's background is therefore filled exactly when it is not `Reset`. Its foreground overrides white exactly when it is not `Reset`. Nothing is ever elided by style diffing.
- `get_cursor` always answers (0, 0). `set_cursor` only moves the canvas path pen, so the set/get round-trip that a backend is expected to give does not hold.
- `window_size` reports a fixed 30 by 10 grid, which disagrees with `size`.
- The pen move before a cell targets the cell's column and its row plus 10 (saturated at 65535). These are grid coordinates, not pixels.
- The adjacency test `x == p.0 + 1` uses `u16` addition. The model lets it wrap (see "## Left out").
- Float-to-integer casts (`as u16`, `as u32`) saturate in Rust, and the model writes that out. Scroll offsets use the 32-bit `usize` of the WebAssembly target.

Modules: `Options`, `Style` (colors, cells), `Surface` (operation log and its interpreter), `CanvasBackend` (the backend operations and the draw loop), `DrawProperties` (what a frame's trace guarantees), `BackendSession` (sequences of backend calls), `TableApp`, `ScrollbarApp`.

## Model

| member | source | states |
|---|---|---|
| CanvasBackend.Draw | canvas-backend/src/lib.rs:56-173 | The draw loop keeps a last position and last-applied colors that stay `Reset`. Its output is the frame trace: the backdrop followed by each cell's block in stream order. |
| CanvasBackend.PaintCell | canvas-backend/src/lib.rs:72-154 | The loop body for one cell emits that cell's block, given that the last-applied colors are `Reset`. |
| CanvasBackend.CellsTraceStep | canvas-backend/src/lib.rs:72-84 | Adding one cell to the stream adds exactly that cell's block, which depends only on the cell and its predecessor's position. |
| CanvasBackend.DrawTraceStep | canvas-backend/src/lib.rs:66-155 | The trace of the first i + 1 cells is the trace of the first i followed by cell i's block. This is the step the draw loop takes on each iteration. |
| DrawProperties.DrawAppend | canvas-backend/src/lib.rs:60-84 | Per-cell independence: a frame with one more cell is the old frame followed by the new cell's block, computed from the new cell and the previous last position. |
| DrawProperties.DrawStartsWithBackdrop | canvas-backend/src/lib.rs:66-70 | Every frame starts with fill style "#263238" and a fill of the whole bounding rectangle, even an empty frame (which is only those two operations). Each cell adds at least three operations. |
| DrawProperties.CellOpsLength | canvas-backend/src/lib.rs:72-154 | A cell's block has between 3 and 9 operations. |
| DrawProperties.CellGlyph | canvas-backend/src/lib.rs:86-150 | Each cell's block has exactly one glyph, its symbol at (16x, 18y + 22), and exactly one font setting, "16px monospace". |
| DrawProperties.CellMove | canvas-backend/src/lib.rs:74-77 | A cell's block moves the pen if and only if the cell does not continue its predecessor's run. The move comes first and goes to (x, min(y + 10, 65535)). |
| DrawProperties.CellTexts | canvas-backend/src/lib.rs:150 | The only text a cell's block paints is its glyph. |
| DrawProperties.CellFonts | canvas-backend/src/lib.rs:137-138 | The only font setting in a cell's block is the 16-pixel monospace font. |
| DrawProperties.CellMoves | canvas-backend/src/lib.rs:74-77 | The only pen move in a cell's block is the run-start move. |
| DrawProperties.CellFills | canvas-backend/src/lib.rs:103-116 | A cell's block fills the rectangle (16x, 18y + 5, 16, 18) when its background is not `Reset`, and fills nothing otherwise. |
| DrawProperties.CellTail | canvas-backend/src/lib.rs:150-154 | After the glyph, the fill style is reset to "#000000" if and only if the foreground is not `Reset`. Otherwise the glyph ends the block. |
| DrawProperties.PreludePaints | canvas-backend/src/lib.rs:74-141 | Up to and including the default glyph color, a block paints only the background rectangle (in the background color) and leaves the font set and the fill style white. This assumes the canvas accepts every color name (see "## Left out"). |
| DrawProperties.GlyphPaints | canvas-backend/src/lib.rs:140-154 | The glyph is painted in the foreground color, or white for `Reset`, and the fill style ends black exactly after a non-default foreground. This assumes the canvas accepts every color name (see "## Left out"). |
| DrawProperties.CellPaints | canvas-backend/src/lib.rs:86-154 | From any canvas state, a cell's block paints its background (when not `Reset`) and then its glyph in its foreground color, or white, in the fixed font. It also says what fill style, font and pen position the block leaves. This assumes the canvas accepts every color name (see "## Left out"). |
| DrawProperties.DrawPaints | canvas-backend/src/lib.rs:66-155 | From any canvas state, a frame paints the backdrop over the whole surface and then, cell by cell in order, each cell's background and glyph. No cell is skipped, whatever its symbol. This assumes the canvas accepts every color name (see "## Left out"). |
| DrawProperties.DrawGlyphs | canvas-backend/src/lib.rs:86-150 | The frame's glyphs are exactly one per cell, in stream order, each at (16x, 18y + 22). |
| DrawProperties.DrawFonts | canvas-backend/src/lib.rs:137-138 | A frame sets the font exactly once per cell, always to "16px monospace". |
| DrawProperties.DrawMoveCount | canvas-backend/src/lib.rs:64-84 | A frame's pen moves number exactly the cells that do not continue a run, counted over the whole stream. |
| DrawProperties.DrawOneRun | canvas-backend/src/lib.rs:74-84 | Cells in consecutive columns of one row cause exactly one pen move, to the first cell. |
| DrawProperties.DrawIgnoresAttributes | canvas-backend/src/lib.rs:95-121 | Text attributes and the underline color never reach the canvas. Frames that agree in positions, symbols and colors produce the same trace. |
| DrawProperties.RedGlyphFrame | canvas-backend/src/lib.rs:66-154 | The full trace for a red "A" on the default background at (0, 0): backdrop, move to (0, 10), font, white then red, glyph at (0, 22), then black. |
| CanvasBackend.Size | canvas-backend/src/lib.rs:218-231 | The grid extents of lines 222-223: the whole cells (16 px wide, 18 px high) that fit in the bounding rectangle, saturated at 65535, at the origin. The answer equals the source's only for grids of at most 65535 cells (see "## Left out"). |
| CanvasBackend.New | canvas-backend/src/lib.rs:26-34 | Construction issues exactly the buffer-sizing operations that `size` issues. |
| CanvasBackend.SizeResizesBuffer | canvas-backend/src/lib.rs:225-226 | `size` and construction set the canvas buffer to the bounding rectangle (saturated to `u32`) and paint nothing. A second `size` leaves the canvas as the first did. |
| CanvasBackend.SizeExamples | canvas-backend/src/lib.rs:222-223 | 160×180 px gives 10×10, 320×360 gives 20×20, and 15×17 gives an empty grid (a grid of zero cells is a valid answer, not an error). |
| CanvasBackend.WindowSizeIsFixed | canvas-backend/src/lib.rs:233-250 | The grid part of `window_size` is 30×10 for every canvas, so it differs from `size` on a 160×180 canvas. |
| CanvasBackend.ClearErasesWholeSurface | canvas-backend/src/lib.rs:196-208 | Every clear region, and `clear` itself, erases exactly the whole bounding rectangle and leaves the context unchanged. |
| CanvasBackend.SetCursorMovesPen | canvas-backend/src/lib.rs:175-194 | `set_cursor` only moves the path pen and paints nothing. Hiding and showing the cursor issue nothing. |
| CanvasBackend.AppendLines | canvas-backend/src/lib.rs:210-216 | `append_lines(n)` issues exactly n paints of "lineeeeeeeeee" at (0, 0). |
| BackendSession.Run | canvas-backend/src/lib.rs:52-255 | A session gives one reply per call, and the last reply is that call's own answer. |
| BackendSession.RepliesAreLive | canvas-backend/src/lib.rs:185-231 | Each reply depends only on its own call and the rectangle at that moment. The backend caches nothing across calls. |
| BackendSession.GetCursorAnswersOrigin | canvas-backend/src/lib.rs:185-189 | `get_cursor` answers (0, 0) at every point of every session. |
| BackendSession.SizeAnswersCurrentRect | canvas-backend/src/lib.rs:218-231 | `size` answers from the bounding rectangle at the time of the call, never from an earlier one. |
| BackendSession.SetThenGetCursor | canvas-backend/src/lib.rs:185-194 | After `set_cursor(3, 4)` the pen is at (3, 4), but `get_cursor` still answers (0, 0). |
| BackendSession.ResizeResynchronises | canvas-backend/src/lib.rs:196-231 | Size at 160×180, resize, clear, size at 320×360: the answers are 10×10 then 20×20, and the buffer ends at 320×360. |
| TableApp.Next | examples/table/src/lib.rs:155-167 | Always selects a row: from no selection the first row (even in an empty table), and from a row in range a row in range. |
| TableApp.Previous | examples/table/src/lib.rs:169-181 | Always selects a row: from no selection the first row (even in an empty table), and from a row in range a row in range. |
| TableApp.NextWraps | examples/table/src/lib.rs:157-163 | From row i in range, `next` selects row (i + 1) mod len. The last row goes to the first. |
| TableApp.PreviousWraps | examples/table/src/lib.rs:171-177 | From row i in range, `previous` selects row (i + len − 1) mod len. The first row goes to the last. |
| TableApp.NextPreviousInverse | examples/table/src/lib.rs:155-181 | On rows in range, `previous` undoes `next` and `next` undoes `previous`. |
| TableApp.NextTimesClimbs | examples/table/src/lib.rs:157-163 | Below the last row, k presses of `next` move k rows down. |
| TableApp.NextTimesAdd | examples/table/src/lib.rs:155-167 | a + b presses of `next` are a presses followed by b presses. |
| TableApp.NextCycles | examples/table/src/lib.rs:155-167 | len presses of `next` return to the starting row. |
| TableApp.Newlines | examples/table/src/lib.rs:257 | The count is the number of '\n' characters in the text, measured by its multiset. |
| TableApp.MaxNewlines | examples/table/src/lib.rs:255-259 | The result bounds every cell's line-break count and is reached by some cell. It is 0 for an empty row. |
| TableApp.RowHeight | examples/table/src/lib.rs:254-260 | A row's height is at least 1 and fits every cell's lines. For a non-empty row some cell reaches it, and an empty row has height 1. |
| TableApp.RowHeightU16 | examples/table/src/lib.rs:262 | The height passed to the row keeps the low 16 bits of the computed height. It is below 65536 and differs from the computed height by a multiple of 65536, so it equals the height whenever that fits. |
| TableApp.ItemHeights | examples/table/src/lib.rs:56-152 | The example has 19 rows. The row holding "Row62\nTest" is 2 lines high and the first row is 1. |
| TableApp.ThreeCellRow | examples/table/src/lib.rs:254-260 | A three-cell row is one line higher than its cell with the most line breaks. |
| ScrollbarApp.OnKey | examples/scrollbar/src/lib.rs:76-98 | `j` adds one to the vertical offset below the largest `usize` and keeps it there at that value. `k` subtracts one above 0 and keeps 0. Both leave the horizontal fields alone. `l`/`h` do the same horizontally. The moved offset is copied into its scrollbar position, and content lengths are kept. Any other key changes nothing. |
| ScrollbarApp.ScrollStopsAtZero | examples/scrollbar/src/lib.rs:82-91 | `k` at vertical offset 0 stays at 0, and `h` at horizontal offset 0 stays at 0, whatever the other offset. |
| ScrollbarApp.ScrollSaturates | examples/scrollbar/src/lib.rs:77-96 | `j` at the largest vertical offset and `l` at the largest horizontal offset leave that offset there, whatever the other offset. |
| ScrollbarApp.ScrollRoundTrips | examples/scrollbar/src/lib.rs:77-96 | From a mirrored state (each scrollbar position equal to its offset), below the saturation bound, `j` then `k`, and `l` then `h`, restore the whole state, scrollbars included. |
| ScrollbarApp.OnKeyKeepsMirrored | examples/scrollbar/src/lib.rs:77-96 | Starting from the all-zero state, every key keeps each scrollbar position equal to its offset. |
| ScrollbarApp.OnKeysKeepMirrored | examples/scrollbar/src/lib.rs:71-100 | Any sequence of key presses keeps each scrollbar position equal to its offset. |
| ScrollbarApp.Repeat | examples/scrollbar/src/lib.rs:127 | Repeating s n times gives length \|s\|·n and ends with a copy of s. |
| ScrollbarApp.RepeatPrefixes | examples/scrollbar/src/lib.rs:127 | Fewer repetitions of s are a prefix of more. |
| ScrollbarApp.RepeatChunks | examples/scrollbar/src/lib.rs:127 | Every one of the n chunks of length \|s\| in the repetition is a copy of s. |
| ScrollbarApp.LongLine | examples/scrollbar/src/lib.rs:126-128 | The long line is 82·(width / 82 + 4) + 1 characters, which is longer than the screen by more than three copies of the phrase, and it ends with a line break. |
| ScrollbarApp.LongLineExamples | examples/scrollbar/src/lib.rs:126-128 | The phrase is 82 characters long. An 80-cell screen gives a 329-character line and a 164-cell screen gives 493. |
| ScrollbarApp.Text | examples/scrollbar/src/lib.rs:144-171 | The paragraph text has 14 lines. |
| ScrollbarApp.Ui | examples/scrollbar/src/lib.rs:172-173 | A redraw sets the vertical content length to the 14 text lines and the horizontal one to the long line's length, which exceeds the screen width. Offsets and positions are untouched. |
| ScrollbarApp.UiKeepsMirrored | examples/scrollbar/src/lib.rs:172-173 | A redraw keeps each scrollbar position equal to its offset. |

## Left out

- The byte writer, its `write` and `flush`, and the writer flush at the end of `append_lines`: these only forward to the injected sink and do not touch the canvas.
- Host glue: the `start` functions, DOM lookup, context creation, event-listener closures, shared `Rc<RefCell<…>>` ownership and console logging. They are I/O.
- A detached canvas: `new`, `draw`, `clear_region`, `size` and `window_size` unwrap their canvas lookup and would panic, so the model assumes an attached canvas. The `fill_text` unwrap is treated the same way.
- Floating point: bounding-rectangle sizes are whole numbers of pixels. The device pixel ratio and the physical-pixel part of `window_size` are not modelled.
- `Color`'s text form is the text-UI library's own formatting. It is a parameter (`names`) about which nothing is assumed.
- Dead code: the attribute and underline-color diffing, the terminal color mapping and `ModifierDiff`. None of it executes. `DrawIgnoresAttributes` states the consequence.
- The browser's own reaction to setting a canvas's width or height (clearing the bitmap and resetting the context) is host behaviour and is not in `Surface.Step`.
- Surface.Step: a fill style always replaces the current one. A 2D canvas ignores a fill-style string it cannot parse as a CSS color, and the library's color text includes such strings ("LightRed", "LightMagenta", the bare number of an indexed color). The interpreter assumes the canvas accepts every `names(c)`.
- DrawProperties.DrawPaints: "each cell's background and glyph in its color" holds only under that assumption. For an unparsable color name the browser keeps the previous fill style.
- DrawProperties.CellPaints: holds only under the same assumption about color names.
- DrawProperties.PreludePaints: holds only under the same assumption about color names.
- DrawProperties.GlyphPaints: holds only under the same assumption about color names.
- CanvasBackend.Size: the source passes the extents to the library's `Rect::new`, which shrinks grids of more than 65535 cells, keeping their aspect ratio, by floating-point arithmetic. That constructor is not modelled, so the answer matches the source only for grids of at most 65535 cells. For example, a 4096×4608 px canvas gives 256×256 here and 255×255 in the source.
- The text-UI library's terminal, layout, table, paragraph and scrollbar rendering. `TableState` keeps only its selection, and a scrollbar's state keeps only its position and content length.
- The paragraphs' `as u16` scroll offsets: they only feed rendering.
- TableApp.Next: requires at least one row when a row is selected, because `next` then compares the selection with `len() - 1`, which underflows on an empty list. With no selection it returns row 0 without subtracting, and the model allows that case. The example always has 19 rows.
- TableApp.Previous: requires at least one row only when row 0 is selected, the one case where `previous` computes `len() - 1`. Every other case is allowed, as in the source.
- Overflow of `p.0 + 1` in the draw loop's adjacency test: the model lets the `u16` increment wrap, so a cell in column 0 would continue a run ending in column 65535. The example's webpack configuration builds in development mode, where overflow checks are on, so that increment would panic instead. The case cannot arise from the library's buffers, whose columns stay at or below 65534, so the model does not represent the panic.
- The calendar example and the table example's build configuration: widget configuration, clock access and bundling.
