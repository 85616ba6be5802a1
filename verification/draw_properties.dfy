/**
 * What a frame's operation trace guarantees: the backdrop first, one glyph
 * per cell in stream order, pen moves exactly at the start of each run of
 * adjacent cells, and, read through the surface interpreter, a picture made
 * of each cell's background and glyph.
 */
module DrawProperties {
  import opened Options
  import opened Style
  import opened Surface
  import opened CanvasBackend

  /** The glyph a cell paints. */
  function GlyphOp(p: Placed): Op
  {
    FillText(p.cell.symbol, PixelX(p.x), Baseline(p.y))
  }

  /** What one cell leaves visible: its background, if any, then its glyph. */
  function CellMarks(p: Placed, names: ColorNames): seq<Mark>
  {
    (if p.cell.bg != Reset
     then [Rectangle(PixelX(p.x), PixelY(p.y), CellWidth, LineHeight, names(p.cell.bg))]
     else [])
    + [Glyphs(p.cell.symbol, PixelX(p.x), Baseline(p.y), GlyphStyle(p.cell, names), Font)]
  }

  /** What a frame's cells leave visible, cell after cell. */
  function FrameMarks(content: seq<Placed>, names: ColorNames): seq<Mark>
    decreases |content|
  {
    if |content| == 0 then []
    else FrameMarks(content[..|content| - 1], names) + CellMarks(content[|content| - 1], names)
  }

  /** The indices, below `n`, of cells that continue a run. */
  function RunContinuations(content: seq<Placed>, n: nat): set<nat>
    requires n <= |content|
  {
    set i: nat | i < n && Adjacent(PrevPos(content, i), content[i].x, content[i].y)
  }

  // ---------------------------------------------------------------------
  // One cell's block

  /** Filtering a cell's block filters each of its parts. */
  lemma KeepCellOps(prev: Option<Pos>, p: Placed, names: ColorNames, keep: Op -> bool)
    ensures Keep(CellOps(prev, p, names), keep)
            == Keep(MoveOps(prev, p.x, p.y), keep)
               + Keep(BackgroundOps(p, names), keep)
               + Keep([SetFont(Font), SetFillStyle(names(White))], keep)
               + Keep(ForegroundOps(p.cell.fg, names), keep)
               + Keep([GlyphOp(p)], keep)
               + Keep(RestoreOps(p.cell.fg), keep)
  {
    var a := MoveOps(prev, p.x, p.y);
    var b := BackgroundOps(p, names);
    var c := [SetFont(Font), SetFillStyle(names(White))];
    var d := ForegroundOps(p.cell.fg, names);
    var e := [GlyphOp(p)];
    var f := RestoreOps(p.cell.fg);
    KeepAppend(a + b + c + d + e, f, keep);
    KeepAppend(a + b + c + d, e, keep);
    KeepAppend(a + b + c, d, keep);
    KeepAppend(a + b, c, keep);
    KeepAppend(a, b, keep);
  }

  /** Only the kinds of operation `keep` selects survive filtering of a fill-style change. */
  lemma KeepFillStyle(st: string)
    ensures Keep([SetFillStyle(st)], IsText) == [] && Keep([SetFillStyle(st)], IsFont) == []
    ensures Keep([SetFillStyle(st)], IsMove) == [] && Keep([SetFillStyle(st)], IsFill) == []
  {
    assert [SetFillStyle(st)][1..] == [];
  }

  lemma KeepMoveOps(prev: Option<Pos>, x: u16, y: u16)
    ensures Keep(MoveOps(prev, x, y), IsText) == [] && Keep(MoveOps(prev, x, y), IsFont) == []
    ensures Keep(MoveOps(prev, x, y), IsFill) == [] && Keep(MoveOps(prev, x, y), IsMove) == MoveOps(prev, x, y)
  {
    var m := MoveOps(prev, x, y);
    if |m| > 0 {
      assert m[1..] == [];
    }
  }

  lemma KeepBackgroundOps(p: Placed, names: ColorNames)
    ensures Keep(BackgroundOps(p, names), IsText) == [] && Keep(BackgroundOps(p, names), IsFont) == []
    ensures Keep(BackgroundOps(p, names), IsMove) == []
    ensures Keep(BackgroundOps(p, names), IsFill)
            == if p.cell.bg != Reset then [FillRect(PixelX(p.x), PixelY(p.y), CellWidth, LineHeight)] else []
  {
    var r := FillRect(PixelX(p.x), PixelY(p.y), CellWidth, LineHeight);
    Keep3(SetFillStyle(names(p.cell.bg)), r, SetFillStyle(BlackStyle), IsText);
    Keep3(SetFillStyle(names(p.cell.bg)), r, SetFillStyle(BlackStyle), IsFont);
    Keep3(SetFillStyle(names(p.cell.bg)), r, SetFillStyle(BlackStyle), IsMove);
    Keep3(SetFillStyle(names(p.cell.bg)), r, SetFillStyle(BlackStyle), IsFill);
    KeepFillStyle(names(p.cell.bg));
    KeepFillStyle(BlackStyle);
    assert [r][1..] == [];
  }

  /** Filtering a literal of three operations filters each. */
  lemma Keep3(o1: Op, o2: Op, o3: Op, keep: Op -> bool)
    ensures Keep([o1, o2, o3], keep) == Keep([o1], keep) + Keep([o2], keep) + Keep([o3], keep)
  {
    KeepAppend([o1], [o2], keep);
    KeepAppend([o1, o2], [o3], keep);
    assert [o1] + [o2] == [o1, o2];
    assert [o1, o2] + [o3] == [o1, o2, o3];
  }

  lemma KeepStyleOps(st: string)
    ensures Keep([SetFont(Font), SetFillStyle(st)], IsText) == []
    ensures Keep([SetFont(Font), SetFillStyle(st)], IsMove) == []
    ensures Keep([SetFont(Font), SetFillStyle(st)], IsFill) == []
    ensures Keep([SetFont(Font), SetFillStyle(st)], IsFont) == [SetFont(Font)]
  {
    var c := [SetFont(Font), SetFillStyle(st)];
    assert c[1..][1..] == [];
  }

  lemma KeepGlyphOp(p: Placed)
    ensures Keep([GlyphOp(p)], IsText) == [GlyphOp(p)]
    ensures Keep([GlyphOp(p)], IsFont) == [] && Keep([GlyphOp(p)], IsMove) == [] && Keep([GlyphOp(p)], IsFill) == []
  {
    assert [GlyphOp(p)][1..] == [];
  }

  lemma KeepColorOps(fg: Color, names: ColorNames)
    ensures Keep(ForegroundOps(fg, names), IsText) == [] && Keep(ForegroundOps(fg, names), IsFont) == []
    ensures Keep(ForegroundOps(fg, names), IsMove) == [] && Keep(ForegroundOps(fg, names), IsFill) == []
    ensures Keep(RestoreOps(fg), IsText) == [] && Keep(RestoreOps(fg), IsFont) == []
    ensures Keep(RestoreOps(fg), IsMove) == [] && Keep(RestoreOps(fg), IsFill) == []
  {
    KeepFillStyle(names(fg));
    KeepFillStyle(BlackStyle);
  }

  /** The glyphs in one cell's block. */
  lemma CellTexts(prev: Option<Pos>, p: Placed, names: ColorNames)
    ensures Keep(CellOps(prev, p, names), IsText) == [GlyphOp(p)]
  {
    KeepCellOps(prev, p, names, IsText);
    KeepMoveOps(prev, p.x, p.y);
    KeepBackgroundOps(p, names);
    KeepStyleOps(names(White));
    KeepColorOps(p.cell.fg, names);
    KeepGlyphOp(p);
  }

  /** The font settings in one cell's block. */
  lemma CellFonts(prev: Option<Pos>, p: Placed, names: ColorNames)
    ensures Keep(CellOps(prev, p, names), IsFont) == [SetFont(Font)]
  {
    KeepCellOps(prev, p, names, IsFont);
    KeepMoveOps(prev, p.x, p.y);
    KeepBackgroundOps(p, names);
    KeepStyleOps(names(White));
    KeepColorOps(p.cell.fg, names);
    KeepGlyphOp(p);
  }

  /** The pen moves in one cell's block. */
  lemma CellMoves(prev: Option<Pos>, p: Placed, names: ColorNames)
    ensures Keep(CellOps(prev, p, names), IsMove) == MoveOps(prev, p.x, p.y)
  {
    KeepCellOps(prev, p, names, IsMove);
    KeepMoveOps(prev, p.x, p.y);
    KeepBackgroundOps(p, names);
    KeepStyleOps(names(White));
    KeepColorOps(p.cell.fg, names);
    KeepGlyphOp(p);
  }

  /** The rectangle fills in one cell's block. */
  lemma CellFills(prev: Option<Pos>, p: Placed, names: ColorNames)
    ensures Keep(CellOps(prev, p, names), IsFill)
            == if p.cell.bg != Reset then [FillRect(PixelX(p.x), PixelY(p.y), CellWidth, LineHeight)] else []
  {
    KeepCellOps(prev, p, names, IsFill);
    KeepMoveOps(prev, p.x, p.y);
    KeepBackgroundOps(p, names);
    KeepStyleOps(names(White));
    KeepColorOps(p.cell.fg, names);
    KeepGlyphOp(p);
  }

  /** Every cell paints exactly one glyph, its symbol at its pixel column and baseline, in one font. */
  lemma CellGlyph(prev: Option<Pos>, p: Placed, names: ColorNames)
    ensures Keep(CellOps(prev, p, names), IsText) == [FillText(p.cell.symbol, p.x * 16, p.y * 18 + 22)]
    ensures Keep(CellOps(prev, p, names), IsFont) == [SetFont("16px monospace")]
  {
    CellTexts(prev, p, names);
    CellFonts(prev, p, names);
  }

  /**
   * A cell moves the pen exactly when it does not continue a run, as the
   * block's first operation, to its column and its row plus ten saturated
   * at the largest `u16`.
   */
  lemma CellMove(prev: Option<Pos>, p: Placed, names: ColorNames)
    ensures Keep(CellOps(prev, p, names), IsMove) == [] <==> Adjacent(prev, p.x, p.y)
    ensures !Adjacent(prev, p.x, p.y) ==>
              Keep(CellOps(prev, p, names), IsMove) == [MoveTo(p.x, if p.y + 10 <= 0xFFFF then p.y + 10 else 0xFFFF)]
              && CellOps(prev, p, names)[0] == MoveTo(p.x, if p.y + 10 <= 0xFFFF then p.y + 10 else 0xFFFF)
  {
    CellMoves(prev, p, names);
  }

  /** A cell's block holds three to nine operations. */
  lemma CellOpsLength(prev: Option<Pos>, p: Placed, names: ColorNames)
    ensures 3 <= |CellOps(prev, p, names)| <= 9
  {
  }

  /**
   * After the glyph the fill style goes back to black exactly when the cell
   * has a non-default foreground; otherwise the glyph ends the block.
   */
  lemma CellTail(prev: Option<Pos>, p: Placed, names: ColorNames)
    ensures var b := CellOps(prev, p, names);
            |b| >= 2
            && (p.cell.fg != Reset ==> b[|b| - 2] == GlyphOp(p) && b[|b| - 1] == SetFillStyle("#000000"))
            && (p.cell.fg == Reset ==> b[|b| - 1] == GlyphOp(p))
  {
  }

  // ---------------------------------------------------------------------
  // What one cell's block paints

  lemma MarksMoveOps(prev: Option<Pos>, x: u16, y: u16, ctx: Context)
    ensures Marks(MoveOps(prev, x, y), ctx) == []
    ensures Final(MoveOps(prev, x, y), ctx)
            == if Adjacent(prev, x, y) then ctx else ctx.(pen := (x, SaturatingAdd16(y, 10)))
  {
    var m := MoveOps(prev, x, y);
    if |m| > 0 {
      assert m[1..] == [];
    }
  }

  lemma MarksBackgroundOps(p: Placed, names: ColorNames, ctx: Context)
    ensures Marks(BackgroundOps(p, names), ctx)
            == if p.cell.bg != Reset
               then [Rectangle(PixelX(p.x), PixelY(p.y), CellWidth, LineHeight, names(p.cell.bg))]
               else []
    ensures Final(BackgroundOps(p, names), ctx)
            == if p.cell.bg != Reset then ctx.(fillStyle := BlackStyle) else ctx
  {
    if p.cell.bg != Reset {
      var r := FillRect(PixelX(p.x), PixelY(p.y), CellWidth, LineHeight);
      var c1 := ctx.(fillStyle := names(p.cell.bg));
      MarksAppend([SetFillStyle(names(p.cell.bg))], [r, SetFillStyle(BlackStyle)], ctx);
      assert [SetFillStyle(names(p.cell.bg))] + [r, SetFillStyle(BlackStyle)] == BackgroundOps(p, names);
      Single(SetFillStyle(names(p.cell.bg)), ctx, IsText);
      MarksAppend([r], [SetFillStyle(BlackStyle)], c1);
      assert [r] + [SetFillStyle(BlackStyle)] == [r, SetFillStyle(BlackStyle)];
      Single(r, c1, IsText);
      Single(SetFillStyle(BlackStyle), c1, IsText);
    }
  }

  lemma MarksStyleOps(st: string, ctx: Context)
    ensures Marks([SetFont(Font), SetFillStyle(st)], ctx) == []
    ensures Final([SetFont(Font), SetFillStyle(st)], ctx) == ctx.(font := Font, fillStyle := st)
  {
    MarksAppend([SetFont(Font)], [SetFillStyle(st)], ctx);
    assert [SetFont(Font)] + [SetFillStyle(st)] == [SetFont(Font), SetFillStyle(st)];
    Single(SetFont(Font), ctx, IsText);
    Single(SetFillStyle(st), ctx.(font := Font), IsText);
  }

  lemma MarksColorOps(fg: Color, names: ColorNames, ctx: Context)
    ensures Marks(ForegroundOps(fg, names), ctx) == []
    ensures Final(ForegroundOps(fg, names), ctx) == if fg != Reset then ctx.(fillStyle := names(fg)) else ctx
    ensures Marks(RestoreOps(fg), ctx) == []
    ensures Final(RestoreOps(fg), ctx) == if fg != Reset then ctx.(fillStyle := BlackStyle) else ctx
  {
    Single(SetFillStyle(names(fg)), ctx, IsText);
    Single(SetFillStyle(BlackStyle), ctx, IsText);
  }

  /** The first half of a cell's block: pen move, background, font and default glyph color. */
  lemma PreludePaints(prev: Option<Pos>, p: Placed, names: ColorNames, ctx: Context)
    ensures var pre := MoveOps(prev, p.x, p.y) + BackgroundOps(p, names) + [SetFont(Font), SetFillStyle(names(White))];
            Marks(pre, ctx)
            == (if p.cell.bg != Reset
                then [Rectangle(PixelX(p.x), PixelY(p.y), CellWidth, LineHeight, names(p.cell.bg))]
                else [])
            && Final(pre, ctx).font == Font
            && Final(pre, ctx).fillStyle == names(White)
            && Final(pre, ctx).pen == if Adjacent(prev, p.x, p.y) then ctx.pen else (p.x, SaturatingAdd16(p.y, 10))
  {
    var a := MoveOps(prev, p.x, p.y);
    var b := BackgroundOps(p, names);
    var c := [SetFont(Font), SetFillStyle(names(White))];
    MarksAppend(a + b, c, ctx);
    MarksAppend(a, b, ctx);
    var c1 := Final(a, ctx);
    MarksMoveOps(prev, p.x, p.y, ctx);
    MarksBackgroundOps(p, names, c1);
    MarksStyleOps(names(White), Final(b, c1));
  }

  /** The second half of a cell's block: foreground, glyph and restore. */
  lemma GlyphPaints(p: Placed, names: ColorNames, ctx: Context)
    requires ctx.font == Font && ctx.fillStyle == names(White)
    ensures var post := ForegroundOps(p.cell.fg, names) + [GlyphOp(p)] + RestoreOps(p.cell.fg);
            Marks(post, ctx) == [Glyphs(p.cell.symbol, PixelX(p.x), Baseline(p.y), GlyphStyle(p.cell, names), Font)]
            && Final(post, ctx).font == Font
            && Final(post, ctx).fillStyle == (if p.cell.fg != Reset then BlackStyle else names(White))
            && Final(post, ctx).pen == ctx.pen
  {
    var d := ForegroundOps(p.cell.fg, names);
    var e := [GlyphOp(p)];
    var f := RestoreOps(p.cell.fg);
    MarksAppend(d + e, f, ctx);
    MarksAppend(d, e, ctx);
    MarksColorOps(p.cell.fg, names, ctx);
    var c4 := Final(d, ctx);
    Single(GlyphOp(p), c4, IsText);
    MarksColorOps(p.cell.fg, names, c4);
  }

  /**
   * Whatever state the context is in, a cell's block paints the cell's
   * background in its background color when that is not the default, then
   * its glyph in its foreground color (white for the default) and in the
   * fixed font. It leaves the font set, the fill style black after a
   * colored foreground and the default glyph color otherwise, and the pen
   * where the block put it.
   */
  lemma CellPaints(prev: Option<Pos>, p: Placed, names: ColorNames, ctx: Context)
    ensures Marks(CellOps(prev, p, names), ctx) == CellMarks(p, names)
    ensures Final(CellOps(prev, p, names), ctx).font == Font
    ensures Final(CellOps(prev, p, names), ctx).fillStyle
            == if p.cell.fg != Reset then BlackStyle else names(White)
    ensures Final(CellOps(prev, p, names), ctx).pen
            == if Adjacent(prev, p.x, p.y) then ctx.pen else (p.x, SaturatingAdd16(p.y, 10))
  {
    var pre := MoveOps(prev, p.x, p.y) + BackgroundOps(p, names) + [SetFont(Font), SetFillStyle(names(White))];
    var post := ForegroundOps(p.cell.fg, names) + [GlyphOp(p)] + RestoreOps(p.cell.fg);
    assert CellOps(prev, p, names) == pre + post;
    MarksAppend(pre, post, ctx);
    PreludePaints(prev, p, names, ctx);
    GlyphPaints(p, names, Final(pre, ctx));
  }

  // ---------------------------------------------------------------------
  // Whole frames

  /** A frame extended by one cell is the frame followed by that cell's block. */
  lemma DrawAppend(rect: BoundingRect, content: seq<Placed>, p: Placed, names: ColorNames)
    ensures DrawTrace(rect, content + [p], names)
            == DrawTrace(rect, content, names) + CellOps(if |content| == 0 then None else Some((content[|content| - 1].x, content[|content| - 1].y)), p, names)
  {
    var c := content + [p];
    var n := |content|;
    assert c[..n] == content;
    assert c[n] == p;
    assert PrevPos(c, n) == if n == 0 then None else Some((content[n - 1].x, content[n - 1].y));
    assert CellsTrace(c, names) == CellsTrace(content, names) + CellOps(PrevPos(c, n), p, names);
  }

  /**
   * Every frame, even an empty one, starts by filling the whole bounding
   * rectangle with the backdrop color; each cell adds at least three
   * operations, and an empty frame adds nothing.
   */
  lemma {:induction false} DrawStartsWithBackdrop(rect: BoundingRect, content: seq<Placed>, names: ColorNames)
    ensures var t := DrawTrace(rect, content, names);
            |t| >= 2 + 3 * |content|
            && t[0] == SetFillStyle("#263238")
            && t[1] == FillRect(0, 0, rect.width, rect.height)
            && (|content| == 0 ==> t == [SetFillStyle("#263238"), FillRect(0, 0, rect.width, rect.height)])
    decreases |content|
  {
    if |content| > 0 {
      var n := |content| - 1;
      DrawStartsWithBackdrop(rect, content[..n], names);
      CellOpsLength(PrevPos(content, n), content[n], names);
    }
  }

  /** The cell part of a non-empty stream ends with its last cell's block. */
  lemma CellsTraceLast(content: seq<Placed>, names: ColorNames)
    requires |content| > 0
    ensures var n := |content| - 1;
            CellsTrace(content, names) == CellsTrace(content[..n], names) + CellOps(PrevPos(content, n), content[n], names)
  {
  }

  /** Of the backdrop, only the rectangle fill survives the kind filters. */
  lemma DrawKeep(rect: BoundingRect, content: seq<Placed>, names: ColorNames)
    ensures Keep(DrawTrace(rect, content, names), IsText) == Keep(CellsTrace(content, names), IsText)
    ensures Keep(DrawTrace(rect, content, names), IsFont) == Keep(CellsTrace(content, names), IsFont)
    ensures Keep(DrawTrace(rect, content, names), IsMove) == Keep(CellsTrace(content, names), IsMove)
    ensures Keep(DrawTrace(rect, content, names), IsFill)
            == [FillRect(0, 0, rect.width, rect.height)] + Keep(CellsTrace(content, names), IsFill)
  {
    var b := BackdropOps(rect);
    var fill := FillRect(0, 0, rect.width, rect.height);
    KeepAppend(b, CellsTrace(content, names), IsText);
    KeepAppend(b, CellsTrace(content, names), IsFont);
    KeepAppend(b, CellsTrace(content, names), IsMove);
    KeepAppend(b, CellsTrace(content, names), IsFill);
    assert b[1..] == [fill];
    assert b[1..][1..] == [];
  }

  /** The cell part of a frame, filtered, is the frame's cells' blocks filtered. */
  lemma CellsKeepStep(content: seq<Placed>, names: ColorNames, keep: Op -> bool)
    requires |content| > 0
    ensures var n := |content| - 1;
            Keep(CellsTrace(content, names), keep)
            == Keep(CellsTrace(content[..n], names), keep) + Keep(CellOps(PrevPos(content, n), content[n], names), keep)
  {
    var n := |content| - 1;
    KeepAppend(CellsTrace(content[..n], names), CellOps(PrevPos(content, n), content[n], names), keep);
  }

  lemma CellsGlyphStep(content: seq<Placed>, names: ColorNames)
    requires |content| > 0
    ensures var n := |content| - 1;
            Keep(CellsTrace(content, names), IsText)
            == Keep(CellsTrace(content[..n], names), IsText) + [GlyphOp(content[n])]
  {
    var n := |content| - 1;
    CellsKeepStep(content, names, IsText);
    CellTexts(PrevPos(content, n), content[n], names);
  }

  lemma {:induction false} CellsGlyphs(content: seq<Placed>, names: ColorNames)
    ensures |Keep(CellsTrace(content, names), IsText)| == |content|
    ensures forall i :: 0 <= i < |content| ==> Keep(CellsTrace(content, names), IsText)[i] == GlyphOp(content[i])
    decreases |content|
  {
    if |content| > 0 {
      var n := |content| - 1;
      var prefix := content[..n];
      CellsGlyphs(prefix, names);
      CellsGlyphStep(content, names);
      GlyphsExtend(content, Keep(CellsTrace(prefix, names), IsText));
    }
  }

  /** Glyphs for all but the last cell, followed by the last cell's glyph, are glyphs for all cells. */
  lemma GlyphsExtend(content: seq<Placed>, g0: seq<Op>)
    requires |content| > 0 && |g0| == |content| - 1
    requires forall i :: 0 <= i < |g0| ==> g0[i] == GlyphOp(content[..|content| - 1][i])
    ensures forall i :: 0 <= i < |content| ==> (g0 + [GlyphOp(content[|content| - 1])])[i] == GlyphOp(content[i])
  {
  }

  /** A cell's glyph sits at pixel column 16x and baseline 18y + 22. */
  lemma GlyphAt(p: Placed)
    ensures GlyphOp(p) == FillText(p.cell.symbol, 16 * p.x, 18 * p.y + 22)
  {
  }

  /**
   * No cell is skipped: the glyphs a frame paints are, in stream order, one
   * per cell, each its symbol at pixel column 16x and baseline 18y + 22.
   */
  lemma DrawGlyphs(rect: BoundingRect, content: seq<Placed>, names: ColorNames)
    ensures var g := Keep(DrawTrace(rect, content, names), IsText);
            |g| == |content|
            && forall i :: 0 <= i < |content| ==>
                 g[i] == FillText(content[i].cell.symbol, 16 * content[i].x, 18 * content[i].y + 22)
  {
    var g := Keep(DrawTrace(rect, content, names), IsText);
    DrawKeep(rect, content, names);
    CellsGlyphs(content, names);
    assert g == Keep(CellsTrace(content, names), IsText);
    forall i | 0 <= i < |content|
      ensures g[i] == FillText(content[i].cell.symbol, 16 * content[i].x, 18 * content[i].y + 22)
    {
      GlyphAt(content[i]);
    }
  }

  lemma {:induction false} CellsFonts(content: seq<Placed>, names: ColorNames)
    ensures var f := Keep(CellsTrace(content, names), IsFont);
            |f| == |content| && forall i :: 0 <= i < |f| ==> f[i] == SetFont(Font)
    decreases |content|
  {
    if |content| > 0 {
      var n := |content| - 1;
      CellsFonts(content[..n], names);
      CellsKeepStep(content, names, IsFont);
      CellFonts(PrevPos(content, n), content[n], names);
      assert Keep(CellsTrace(content, names), IsFont) == Keep(CellsTrace(content[..n], names), IsFont) + [SetFont(Font)];
    }
  }

  /** A frame sets the font once per cell, always to the 16-pixel monospace font. */
  lemma DrawFonts(rect: BoundingRect, content: seq<Placed>, names: ColorNames)
    ensures var f := Keep(DrawTrace(rect, content, names), IsFont);
            |f| == |content| && forall i :: 0 <= i < |f| ==> f[i] == SetFont("16px monospace")
  {
    DrawKeep(rect, content, names);
    CellsFonts(content, names);
  }

  /** The last cell of a stream is a run continuation or not, and no earlier index changes status. */
  lemma RunContinuationsStep(content: seq<Placed>, j: nat)
    requires j < |content|
    ensures |RunContinuations(content, j + 1)|
            == |RunContinuations(content, j)| + (if Adjacent(PrevPos(content, j), content[j].x, content[j].y) then 1 else 0)
  {
    var adjacent := Adjacent(PrevPos(content, j), content[j].x, content[j].y);
    assert RunContinuations(content, j + 1) == RunContinuations(content, j) + (if adjacent then {j} else {});
    assert j !in RunContinuations(content, j);
  }

  /** The `j`-th cell adds one pen move unless it continues a run. */
  lemma CellsMoveStep(content: seq<Placed>, j: nat, names: ColorNames)
    requires j < |content|
    ensures Keep(CellsTrace(content[..j + 1], names), IsMove)
            == Keep(CellsTrace(content[..j], names), IsMove) + MoveOps(PrevPos(content, j), content[j].x, content[j].y)
  {
    CellsTraceStep(content, j, names);
    KeepAppend(CellsTrace(content[..j], names), CellOps(PrevPos(content, j), content[j], names), IsMove);
    CellMoves(PrevPos(content, j), content[j], names);
  }

  lemma {:induction false} CellsMoveCount(content: seq<Placed>, k: nat, names: ColorNames)
    requires k <= |content|
    ensures |Keep(CellsTrace(content[..k], names), IsMove)| + |RunContinuations(content, k)| == k
    decreases k
  {
    if k == 0 {
      assert content[..0] == [];
      assert RunContinuations(content, 0) == {};
    } else {
      var j := k - 1;
      CellsMoveCount(content, j, names);
      CellsMoveStep(content, j, names);
      RunContinuationsStep(content, j);
    }
  }

  /**
   * A frame moves the pen once for every cell that does not continue a run
   * of adjacent cells on one row, and never for a cell that does.
   */
  lemma DrawMoveCount(rect: BoundingRect, content: seq<Placed>, names: ColorNames)
    ensures |Keep(DrawTrace(rect, content, names), IsMove)|
            == |content| - |RunContinuations(content, |content|)|
  {
    DrawKeep(rect, content, names);
    CellsMoveCount(content, |content|, names);
    assert content[..|content|] == content;
  }

  /** All cells lie in one row at consecutive columns starting from the first cell's. */
  predicate OneRun(content: seq<Placed>)
  {
    |content| > 0
    && content[0].x + |content| - 1 <= 0xFFFF
    && forall i :: 0 <= i < |content| ==> content[i].y == content[0].y && content[i].x == content[0].x + i
  }

  lemma {:induction false} OneRunMoves(content: seq<Placed>, k: nat, names: ColorNames)
    requires OneRun(content) && 1 <= k <= |content|
    ensures Keep(CellsTrace(content[..k], names), IsMove) == [MoveTo(content[0].x, SaturatingAdd16(content[0].y, 10))]
    decreases k
  {
    var j := k - 1;
    CellsMoveStep(content, j, names);
    if j == 0 {
      assert content[..0] == [];
    } else {
      OneRunMoves(content, j, names);
      assert Adjacent(PrevPos(content, j), content[j].x, content[j].y);
    }
  }

  /**
   * A frame whose cells fill consecutive columns of one row moves the pen
   * exactly once, to the first cell.
   */
  lemma DrawOneRun(rect: BoundingRect, content: seq<Placed>, names: ColorNames)
    requires OneRun(content)
    ensures Keep(DrawTrace(rect, content, names), IsMove)
            == [MoveTo(content[0].x, if content[0].y + 10 <= 0xFFFF then content[0].y + 10 else 0xFFFF)]
  {
    DrawKeep(rect, content, names);
    OneRunMoves(content, |content|, names);
    assert content[..|content|] == content;
  }

  /** The last cell's block paints that cell's marks after the rest of the stream's. */
  lemma CellsPaintStep(content: seq<Placed>, names: ColorNames, ctx: Context)
    requires |content| > 0
    ensures var n := |content| - 1;
            Marks(CellsTrace(content, names), ctx)
            == Marks(CellsTrace(content[..n], names), ctx) + CellMarks(content[n], names)
  {
    var n := |content| - 1;
    var prefix := CellsTrace(content[..n], names);
    MarksAppend(prefix, CellOps(PrevPos(content, n), content[n], names), ctx);
    CellPaints(PrevPos(content, n), content[n], names, Final(prefix, ctx));
  }

  lemma {:induction false} CellsPaints(content: seq<Placed>, names: ColorNames, ctx: Context)
    ensures Marks(CellsTrace(content, names), ctx) == FrameMarks(content, names)
    decreases |content|
  {
    if |content| > 0 {
      var n := |content| - 1;
      CellsPaints(content[..n], names, ctx);
      CellsPaintStep(content, names, ctx);
    }
  }

  /**
   * Read through the surface, whatever state the context was in, a frame
   * paints the backdrop over the whole bounding rectangle and then, cell
   * by cell in stream order, the cell's background rectangle in its
   * background color when that is not the default, and its glyph in its
   * foreground color (white for the default) in the fixed font.
   */
  lemma DrawPaints(rect: BoundingRect, content: seq<Placed>, names: ColorNames, ctx: Context)
    ensures Marks(DrawTrace(rect, content, names), ctx)
            == [Rectangle(0, 0, rect.width, rect.height, "#263238")] + FrameMarks(content, names)
  {
    var b := BackdropOps(rect);
    MarksAppend(b, CellsTrace(content, names), ctx);
    MarksAppend([b[0]], [b[1]], ctx);
    assert [b[0]] + [b[1]] == b;
    Single(b[0], ctx, IsText);
    Single(b[1], Step(ctx, b[0]), IsText);
    CellsPaints(content, names, Final(b, ctx));
  }

  /** Two cells that agree in position, symbol and colors. */
  predicate SameLook(a: Placed, b: Placed)
  {
    a.x == b.x && a.y == b.y && a.cell.symbol == b.cell.symbol && a.cell.fg == b.cell.fg && a.cell.bg == b.cell.bg
  }

  /** A cell's block depends only on what `SameLook` compares. */
  lemma CellOpsSameLook(prev: Option<Pos>, p: Placed, q: Placed, names: ColorNames)
    requires SameLook(p, q)
    ensures CellOps(prev, p, names) == CellOps(prev, q, names)
  {
  }

  lemma {:induction false} CellsIgnoreAttributes(a: seq<Placed>, b: seq<Placed>, names: ColorNames)
    requires |a| == |b|
    requires forall i :: 0 <= i < |a| ==> SameLook(a[i], b[i])
    ensures CellsTrace(a, names) == CellsTrace(b, names)
    decreases |a|
  {
    if |a| > 0 {
      var n := |a| - 1;
      var a', b' := a[..n], b[..n];
      forall i | 0 <= i < n
        ensures SameLook(a'[i], b'[i])
      {
        assert a'[i] == a[i] && b'[i] == b[i];
      }
      CellsIgnoreAttributes(a', b', names);
      CellsTraceLast(a, names);
      CellsTraceLast(b, names);
      assert SameLook(a[n], b[n]);
      CellOpsSameLook(PrevPos(a, n), a[n], b[n], names);
      assert PrevPos(a, n) == PrevPos(b, n) by {
        if n > 0 { assert SameLook(a[n - 1], b[n - 1]); }
      }
    }
  }

  /**
   * Text attributes and the underline color never reach the canvas: frames
   * whose cells agree in position, symbol and colors issue the same trace.
   */
  lemma DrawIgnoresAttributes(rect: BoundingRect, a: seq<Placed>, b: seq<Placed>, names: ColorNames)
    requires |a| == |b|
    requires forall i :: 0 <= i < |a| ==> SameLook(a[i], b[i])
    ensures DrawTrace(rect, a, names) == DrawTrace(rect, b, names)
  {
    CellsIgnoreAttributes(a, b, names);
  }

  /** A red "A" on the default background in the top-left cell. */
  lemma RedGlyphFrame(rect: BoundingRect, names: ColorNames, modifier: set<Attribute>)
    ensures DrawTrace(rect, [Placed(0, 0, Cell("A", Red, Reset, Reset, modifier))], names)
            == [SetFillStyle("#263238"), FillRect(0, 0, rect.width, rect.height),
                MoveTo(0, 10), SetFont("16px monospace"),
                SetFillStyle(names(White)), SetFillStyle(names(Red)),
                FillText("A", 0, 22), SetFillStyle("#000000")]
  {
    var p := Placed(0, 0, Cell("A", Red, Reset, Reset, modifier));
    var content := [p];
    assert content[..0] == [];
    CellsTraceLast(content, names);
    assert MoveOps(None, 0, 0) == [MoveTo(0, 10)];
    assert BackgroundOps(p, names) == [];
    assert CellOps(None, p, names)
           == [MoveTo(0, 10), SetFont(Font), SetFillStyle(names(White)), SetFillStyle(names(Red)),
               FillText("A", 0, 22), SetFillStyle(BlackStyle)];
  }
}
