/**
 * The canvas backend: the adapter from a character grid to a browser 2D
 * canvas. Each operation is a pure function from its arguments and the
 * canvas's live bounding rectangle to the operations it issues, plus its
 * answer. The canvas is always attached: the source unwraps every lookup.
 */
module CanvasBackend {
  import opened Options
  import opened Style
  import opened Surface

  /** Width and height of the canvas's bounding client rectangle, in CSS pixels. */
  datatype BoundingRect = BoundingRect(width: nat, height: nat)

  /** A rectangle of grid cells. */
  datatype Rect = Rect(x: u16, y: u16, width: u16, height: u16)

  /** A grid position. */
  type Pos = (u16, u16)

  // Grid geometry: font size, cell width, line height, the top offset of a
  // row, and the descent below the baseline (half the leading).
  const FontHeight: int := 16
  const CellWidth: int := 16
  const LineHeight: int := 18
  const TopOffset: int := 5
  const Descent: int := (LineHeight - FontHeight) / 2

  const BackdropStyle: string := "#263238"
  const BlackStyle: string := "#000000"
  const Font: string := "16px monospace"
  const AppendLinesText: string := "lineeeeeeeeee"

  /** Left edge of a column, in pixels. */
  function PixelX(x: u16): int { x * CellWidth }

  /** Top edge of a row, in pixels. */
  function PixelY(y: u16): int { y * LineHeight + TopOffset }

  /** Text baseline of a row: the cell's bottom less the descent. */
  function Baseline(y: u16): int { PixelY(y) + LineHeight - Descent }

  /**
   * True when the previous cell was the left neighbour of `(x, y)` on the
   * same row, so the pen need not be moved. The column increment wraps;
   * with overflow checks on, the source's `u16` addition would panic at
   * column 65535 instead, a column the library's buffers never reach.
   */
  predicate Adjacent(prev: Option<Pos>, x: u16, y: u16)
  {
    prev.Some? && x == WrappingSucc16(prev.value.0) && y == prev.value.1
  }

  /** The fill style in which a cell's glyph is painted. */
  function GlyphStyle(cell: Cell, names: ColorNames): string
  {
    if cell.fg != Reset then names(cell.fg) else names(White)
  }

  /** The pen move issued before a cell that does not continue a run. */
  function MoveOps(prev: Option<Pos>, x: u16, y: u16): seq<Op>
  {
    if Adjacent(prev, x, y) then [] else [MoveTo(x, SaturatingAdd16(y, 10))]
  }

  /** The background fill of a cell whose background is not the default. */
  function BackgroundOps(p: Placed, names: ColorNames): seq<Op>
  {
    if p.cell.bg != Reset then
      [SetFillStyle(names(p.cell.bg)), FillRect(PixelX(p.x), PixelY(p.y), CellWidth, LineHeight), SetFillStyle(BlackStyle)]
    else []
  }

  /** The fill style override for a non-default foreground. */
  function ForegroundOps(fg: Color, names: ColorNames): seq<Op>
  {
    if fg != Reset then [SetFillStyle(names(fg))] else []
  }

  /** The fill style restore after a glyph painted in a non-default foreground. */
  function RestoreOps(fg: Color): seq<Op>
  {
    if fg != Reset then [SetFillStyle(BlackStyle)] else []
  }

  /**
   * The operations one cell contributes to a frame. They depend on the cell
   * and on the position of the cell before it, and on nothing else: the
   * source's last-applied colors stay `Reset` for the whole frame.
   */
  function CellOps(prev: Option<Pos>, p: Placed, names: ColorNames): seq<Op>
  {
    MoveOps(prev, p.x, p.y)
    + BackgroundOps(p, names)
    + [SetFont(Font), SetFillStyle(names(White))]
    + ForegroundOps(p.cell.fg, names)
    + [FillText(p.cell.symbol, PixelX(p.x), Baseline(p.y))]
    + RestoreOps(p.cell.fg)
  }

  /** The position of the cell before the `i`-th one, if any. */
  function PrevPos(content: seq<Placed>, i: nat): Option<Pos>
    requires i <= |content|
  {
    if i == 0 then None else Some((content[i - 1].x, content[i - 1].y))
  }

  /** The full-surface backdrop every frame starts with. */
  function BackdropOps(rect: BoundingRect): seq<Op>
  {
    [SetFillStyle(BackdropStyle), FillRect(0, 0, rect.width, rect.height)]
  }

  /** The cell part of a frame: each cell's block in stream order. */
  function CellsTrace(content: seq<Placed>, names: ColorNames): seq<Op>
    decreases |content|
  {
    if |content| == 0 then []
    else
      var n := |content| - 1;
      CellsTrace(content[..n], names) + CellOps(PrevPos(content, n), content[n], names)
  }

  /** Extending the stream by one cell extends the cell part by that cell's block. */
  lemma CellsTraceStep(content: seq<Placed>, i: nat, names: ColorNames)
    requires i < |content|
    ensures CellsTrace(content[..i + 1], names)
            == CellsTrace(content[..i], names) + CellOps(PrevPos(content, i), content[i], names)
  {
    var c := content[..i + 1];
    assert c[..i] == content[..i];
    assert c[i] == content[i];
    assert PrevPos(c, i) == PrevPos(content, i);
  }

  /** The operations of one frame. */
  function DrawTrace(rect: BoundingRect, content: seq<Placed>, names: ColorNames): seq<Op>
  {
    BackdropOps(rect) + CellsTrace(content, names)
  }

  /** The frame of the first `i + 1` cells is the frame of the first `i` followed by cell `i`'s block. */
  lemma DrawTraceStep(rect: BoundingRect, content: seq<Placed>, i: nat, names: ColorNames)
    requires i < |content|
    ensures DrawTrace(rect, content[..i + 1], names)
            == DrawTrace(rect, content[..i], names) + CellOps(PrevPos(content, i), content[i], names)
  {
    CellsTraceStep(content, i, names);
    var block := CellOps(PrevPos(content, i), content[i], names);
    assert BackdropOps(rect) + (CellsTrace(content[..i], names) + block)
           == (BackdropOps(rect) + CellsTrace(content[..i], names)) + block;
  }

  /**
   * The body of the draw loop for one cell, as the source writes it: the
   * pen move unless the cell continues a run, the background fill when the
   * cell's background differs from the last-applied one, the font, the
   * foreground, the glyph, and the foreground restore.
   */
  method PaintCell(lastPos: Option<Pos>, fg: Color, bg: Color, p: Placed, names: ColorNames) returns (block: seq<Op>)
    requires fg == Reset && bg == Reset
    ensures block == CellOps(lastPos, p, names)
  {
    var x, y, cell := p.x, p.y, p.cell;
    block := [];
    if !(lastPos.Some? && x == WrappingSucc16(lastPos.value.0) && y == lastPos.value.1) {
      block := block + [MoveTo(x, SaturatingAdd16(y, 10))];
    }
    var px := x * CellWidth;
    var py := y * LineHeight + TopOffset;
    var baseline := py + LineHeight - Descent;
    if cell.bg != bg {
      block := block + [SetFillStyle(names(cell.bg)), FillRect(px, py, CellWidth, LineHeight), SetFillStyle(BlackStyle)];
    }
    block := block + [SetFont(Font), SetFillStyle(names(White))];
    if cell.fg != fg {
      block := block + [SetFillStyle(names(cell.fg))];
    }
    block := block + [FillText(cell.symbol, px, baseline)];
    if cell.fg != fg {
      block := block + [SetFillStyle(BlackStyle)];
    }
  }

  /**
   * The draw loop: the backdrop, then one block per cell. The last-applied
   * colors start as `Reset` and are never updated.
   */
  method Draw(rect: BoundingRect, content: seq<Placed>, names: ColorNames) returns (ops: seq<Op>)
    ensures ops == DrawTrace(rect, content, names)
  {
    var fg := Reset;
    var bg := Reset;
    var lastPos: Option<Pos> := None;
    ops := [SetFillStyle(BackdropStyle), FillRect(0, 0, rect.width, rect.height)];
    var i := 0;
    while i < |content|
      invariant 0 <= i <= |content|
      invariant lastPos == PrevPos(content, i)
      invariant ops == DrawTrace(rect, content[..i], names)
    {
      var block := PaintCell(lastPos, fg, bg, content[i], names);
      lastPos := Some((content[i].x, content[i].y));
      DrawTraceStep(rect, content, i, names);
      ops := ops + block;
      i := i + 1;
    }
    assert content[..i] == content;
  }

  /** The answer of a query together with the operations it issued. */
  datatype Answer<T> = Answer(value: T, ops: seq<Op>)

  /** A grid extent in columns and rows. */
  datatype GridSize = GridSize(width: u16, height: u16)

  /** The region argument of `clear_region`. */
  datatype ClearType = All | AfterCursor | BeforeCursor | CurrentLine | UntilNewLine

  /** A float-to-`u16` cast of a non-negative value: saturates at the top. */
  function SaturatingU16(n: nat): (r: u16)
    ensures r <= n
    ensures r == n || r == U16Max
  {
    if n > U16Max then U16Max else n
  }

  /** A float-to-`u32` cast of a non-negative value: saturates at the top. */
  function SaturatingU32(n: nat): (r: nat)
    ensures r <= n && r <= U32Max
    ensures r == n || r == U32Max
  {
    if n > U32Max then U32Max else n
  }

  /**
   * `q` is the number of whole units of `unit` pixels that fit in `pixels`,
   * saturated at the largest `u16`.
   */
  predicate IsGridExtent(q: int, pixels: nat, unit: nat)
    requires unit > 0
  {
    (0 <= q < U16Max && q * unit <= pixels < q * unit + unit)
    || (q == U16Max && U16Max * unit <= pixels)
  }

  /** Re-asserting the canvas buffer size from its bounding rectangle. */
  function SizingOps(rect: BoundingRect): seq<Op>
  {
    [SetCanvasWidth(SaturatingU32(rect.width)), SetCanvasHeight(SaturatingU32(rect.height))]
  }

  /**
   * `size`: the grid that fits in the live bounding rectangle, with the
   * canvas buffer re-sized to that rectangle as a side effect. The
   * library's rectangle constructor, which shrinks grids of more than
   * 65535 cells, is not part of this model: the extents are kept as
   * computed.
   */
  function Size(rect: BoundingRect): (r: Answer<Rect>)
    ensures r.value.x == 0 && r.value.y == 0
    ensures IsGridExtent(r.value.width, rect.width, CellWidth)
    ensures IsGridExtent(r.value.height, rect.height, LineHeight)
    ensures r.ops == SizingOps(rect)
  {
    Answer(Rect(0, 0, SaturatingU16(rect.width / CellWidth), SaturatingU16(rect.height / LineHeight)), SizingOps(rect))
  }

  /** Construction: sizes the canvas buffer exactly as `size` does. */
  function New(rect: BoundingRect): (r: seq<Op>)
    ensures r == Size(rect).ops
  {
    SizingOps(rect)
  }

  /** `window_size`, grid part: a fixed 30 by 10 grid, whatever the canvas. */
  function WindowSize(rect: BoundingRect): (r: GridSize)
  {
    GridSize(30, 10)
  }

  /** `clear_region`: erases the whole bounding rectangle, whatever the region asked for. */
  function ClearRegion(rect: BoundingRect, clearType: ClearType): (r: seq<Op>)
  {
    [ClearRect(0, 0, rect.width, rect.height)]
  }

  /** `clear` is `clear_region(All)`. */
  function Clear(rect: BoundingRect): seq<Op>
  {
    ClearRegion(rect, All)
  }

  /** `set_cursor`: only moves the path pen; nothing records the position. */
  function SetCursor(x: u16, y: u16): seq<Op>
  {
    [MoveTo(x, y)]
  }

  /** `get_cursor`: always the origin. */
  function GetCursor(): Pos
  {
    (0, 0)
  }

  /** `hide_cursor` and `show_cursor` touch neither the canvas nor any state. */
  function HideCursor(): seq<Op> { [] }

  function ShowCursor(): seq<Op> { [] }

  /** `append_lines(n)`: `n` placeholder texts painted at the origin. */
  function AppendLines(n: u16): (r: seq<Op>)
    ensures |r| == n
    ensures forall i :: 0 <= i < |r| ==> r[i] == FillText(AppendLinesText, 0, 0)
  {
    if n == 0 then [] else AppendLines(n - 1) + [FillText(AppendLinesText, 0, 0)]
  }

  /**
   * `size` re-sizes the canvas buffer to its bounding rectangle (saturated
   * to `u32`) and paints nothing; so does construction, and asking twice
   * leaves the canvas as asking once.
   */
  lemma SizeResizesBuffer(rect: BoundingRect, ctx: Context)
    ensures Marks(Size(rect).ops, ctx) == [] && Marks(New(rect), ctx) == []
    ensures Final(Size(rect).ops, ctx) == ctx.(width := SaturatingU32(rect.width), height := SaturatingU32(rect.height))
    ensures Final(New(rect), ctx) == Final(Size(rect).ops, ctx)
    ensures Final(Size(rect).ops + Size(rect).ops, ctx) == Final(Size(rect).ops, ctx)
  {
    var ops := Size(rect).ops;
    var c1 := ctx.(width := SaturatingU32(rect.width));
    MarksAppend([ops[0]], [ops[1]], ctx);
    assert [ops[0]] + [ops[1]] == ops;
    Single(ops[0], ctx, IsText);
    Single(ops[1], c1, IsText);
    MarksAppend(ops, ops, ctx);
    var c2 := Final(ops, ctx);
    MarksAppend([ops[0]], [ops[1]], c2);
    Single(ops[0], c2, IsText);
    Single(ops[1], Step(c2, ops[0]), IsText);
  }

  /** A 160 by 180 pixel canvas holds a 10 by 10 grid, and 320 by 360 holds 20 by 20. */
  lemma SizeExamples()
    ensures Size(BoundingRect(160, 180)).value == Rect(0, 0, 10, 10)
    ensures Size(BoundingRect(320, 360)).value == Rect(0, 0, 20, 20)
    ensures Size(BoundingRect(15, 17)).value == Rect(0, 0, 0, 0)
  {
  }

  /**
   * `window_size` reports a 30 by 10 grid for every canvas, so it disagrees
   * with `size` on a 160 by 180 canvas.
   */
  lemma WindowSizeIsFixed(rect: BoundingRect)
    ensures WindowSize(rect) == GridSize(30, 10)
    ensures WindowSize(BoundingRect(160, 180)).width != Size(BoundingRect(160, 180)).value.width
  {
  }

  /**
   * Every region, `All` or not, erases the whole bounding rectangle and
   * nothing else, and leaves the context as it was; `clear` is the same.
   */
  lemma ClearErasesWholeSurface(rect: BoundingRect, clearType: ClearType, ctx: Context)
    ensures ClearRegion(rect, clearType) == Clear(rect)
    ensures Marks(ClearRegion(rect, clearType), ctx) == [Erased(0, 0, rect.width, rect.height)]
    ensures Final(ClearRegion(rect, clearType), ctx) == ctx
  {
    Single(ClearRect(0, 0, rect.width, rect.height), ctx, IsText);
  }

  /** `set_cursor` moves the path pen and paints nothing; hiding and showing the cursor issue nothing. */
  lemma SetCursorMovesPen(x: u16, y: u16, ctx: Context)
    ensures Marks(SetCursor(x, y), ctx) == []
    ensures Final(SetCursor(x, y), ctx) == ctx.(pen := (x, y))
    ensures HideCursor() == [] && ShowCursor() == []
  {
    Single(MoveTo(x, y), ctx, IsText);
  }
}
