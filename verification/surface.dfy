/**
 * The 2D drawing surface as an append-only log of operations, together with
 * an interpreter that says what each log leaves visible on the surface.
 */
module Surface {

  /**
   * One call on the canvas's 2D context or on the canvas element itself.
   * Every coordinate the backend computes is a whole number of pixels.
   */
  datatype Op =
    | SetFillStyle(style: string)
    | FillRect(x: int, y: int, w: int, h: int)
    | MoveTo(x: int, y: int)
    | SetFont(font: string)
    | FillText(text: string, x: int, y: int)
    | ClearRect(x: int, y: int, w: int, h: int)
    | SetCanvasWidth(width: nat)
    | SetCanvasHeight(height: nat)

  /** The part of the context state that the operations above read or write. */
  datatype Context = Context(fillStyle: string, font: string, pen: (int, int), width: nat, height: nat)

  /** A visible effect on the surface: a filled rectangle, painted text, or an erased area. */
  datatype Mark =
    | Rectangle(x: int, y: int, w: int, h: int, style: string)
    | Glyphs(text: string, x: int, y: int, style: string, font: string)
    | Erased(x: int, y: int, w: int, h: int)

  /** The context after one operation. */
  function Step(ctx: Context, op: Op): Context
  {
    match op
    case SetFillStyle(s) => ctx.(fillStyle := s)
    case MoveTo(x, y) => ctx.(pen := (x, y))
    case SetFont(f) => ctx.(font := f)
    case SetCanvasWidth(w) => ctx.(width := w)
    case SetCanvasHeight(h) => ctx.(height := h)
    case _ => ctx
  }

  /** What one operation paints, using the context it runs in. */
  function Effect(ctx: Context, op: Op): seq<Mark>
  {
    match op
    case FillRect(x, y, w, h) => [Rectangle(x, y, w, h, ctx.fillStyle)]
    case FillText(t, x, y) => [Glyphs(t, x, y, ctx.fillStyle, ctx.font)]
    case ClearRect(x, y, w, h) => [Erased(x, y, w, h)]
    case _ => []
  }

  /** The marks a log paints, in order, starting from context `ctx`. */
  function Marks(ops: seq<Op>, ctx: Context): seq<Mark>
    decreases |ops|
  {
    if |ops| == 0 then [] else Effect(ctx, ops[0]) + Marks(ops[1..], Step(ctx, ops[0]))
  }

  /** The context a log leaves behind, starting from context `ctx`. */
  function Final(ops: seq<Op>, ctx: Context): Context
    decreases |ops|
  {
    if |ops| == 0 then ctx else Final(ops[1..], Step(ctx, ops[0]))
  }

  /** The operations of a log that satisfy `keep`, in log order. */
  function Keep(ops: seq<Op>, keep: Op -> bool): (r: seq<Op>)
    ensures |r| <= |ops|
    decreases |ops|
  {
    if |ops| == 0 then []
    else (if keep(ops[0]) then [ops[0]] else []) + Keep(ops[1..], keep)
  }

  predicate IsMove(o: Op) { o.MoveTo? }
  predicate IsText(o: Op) { o.FillText? }
  predicate IsFont(o: Op) { o.SetFont? }
  predicate IsFill(o: Op) { o.FillRect? }

  /** Running two logs one after the other paints what each paints, the second from where the first left off. */
  lemma {:induction false} MarksAppend(a: seq<Op>, b: seq<Op>, ctx: Context)
    ensures Marks(a + b, ctx) == Marks(a, ctx) + Marks(b, Final(a, ctx))
    ensures Final(a + b, ctx) == Final(b, Final(a, ctx))
    decreases |a|
  {
    if |a| == 0 {
      assert a + b == b;
    } else {
      assert (a + b)[1..] == a[1..] + b;
      MarksAppend(a[1..], b, Step(ctx, a[0]));
    }
  }

  /** Filtering distributes over concatenation. */
  lemma {:induction false} KeepAppend(a: seq<Op>, b: seq<Op>, keep: Op -> bool)
    ensures Keep(a + b, keep) == Keep(a, keep) + Keep(b, keep)
    decreases |a|
  {
    if |a| == 0 {
      assert a + b == b;
    } else {
      var head := if keep(a[0]) then [a[0]] else [];
      assert (a + b)[0] == a[0];
      assert (a + b)[1..] == a[1..] + b;
      KeepAppend(a[1..], b, keep);
      assert Keep(a + b, keep) == head + Keep(a[1..] + b, keep);
      assert Keep(a, keep) == head + Keep(a[1..], keep);
    }
  }

  /** A one-operation log. */
  lemma Single(o: Op, ctx: Context, keep: Op -> bool)
    ensures Marks([o], ctx) == Effect(ctx, o)
    ensures Final([o], ctx) == Step(ctx, o)
    ensures Keep([o], keep) == if keep(o) then [o] else []
  {
    assert [o][1..] == [];
  }
}
