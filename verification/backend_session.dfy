/**
 * A sequence of backend calls, each made against the canvas's bounding
 * rectangle at the time of the call, and the log of canvas operations the
 * calls issue between them. The backend itself keeps no state besides the
 * canvas: every answer comes from the call's own arguments and rectangle.
 */
module BackendSession {
  import opened Style
  import opened Surface
  import opened CanvasBackend

  /** One call of the backend interface. */
  datatype Call =
    | Draw(content: seq<Placed>)
    | HideCursor
    | ShowCursor
    | GetCursor
    | SetCursor(x: u16, y: u16)
    | Clear
    | ClearRegion(clearType: ClearType)
    | AppendLines(n: u16)
    | Size
    | WindowSize

  /** The successful result of a call. */
  datatype Reply =
    | Done
    | Cursor(x: u16, y: u16)
    | Grid(rect: Rect)
    | Window(grid: GridSize)

  /** A call and the bounding rectangle the canvas has when it is made. */
  datatype Event = Event(rect: BoundingRect, call: Call)

  /** A call's reply and the operations it issues. */
  function Apply(e: Event, names: ColorNames): Answer<Reply>
  {
    match e.call
    case Draw(content) => Answer(Done, DrawTrace(e.rect, content, names))
    case HideCursor => Answer(Done, CanvasBackend.HideCursor())
    case ShowCursor => Answer(Done, CanvasBackend.ShowCursor())
    case GetCursor => Answer(Cursor(CanvasBackend.GetCursor().0, CanvasBackend.GetCursor().1), [])
    case SetCursor(x, y) => Answer(Done, CanvasBackend.SetCursor(x, y))
    case Clear => Answer(Done, CanvasBackend.Clear(e.rect))
    case ClearRegion(t) => Answer(Done, CanvasBackend.ClearRegion(e.rect, t))
    case AppendLines(n) => Answer(Done, CanvasBackend.AppendLines(n))
    case Size => Answer(Grid(CanvasBackend.Size(e.rect).value), CanvasBackend.Size(e.rect).ops)
    case WindowSize => Answer(Window(CanvasBackend.WindowSize(e.rect)), [])
  }

  /** The replies of a session, one per call, and the canvas log it builds. */
  datatype Outcome = Outcome(replies: seq<Reply>, log: seq<Op>)

  function Run(events: seq<Event>, names: ColorNames): (r: Outcome)
    ensures |r.replies| == |events|
    ensures |events| > 0 ==> r.replies[|events| - 1] == Apply(events[|events| - 1], names).value
    decreases |events|
  {
    if |events| == 0 then Outcome([], [])
    else
      var n := |events| - 1;
      var before := Run(events[..n], names);
      var a := Apply(events[n], names);
      Outcome(before.replies + [a.value], before.log + a.ops)
  }

  /** A session's log is its prefix's log followed by the last call's operations. */
  lemma RunLast(events: seq<Event>, names: ColorNames)
    requires |events| > 0
    ensures Run(events, names).log
            == Run(events[..|events| - 1], names).log + Apply(events[|events| - 1], names).ops
  {
  }

  /**
   * Every reply depends only on its own call and the rectangle at that
   * moment, never on earlier calls: nothing is cached, and no call changes
   * what a later query answers.
   */
  lemma {:induction false} RepliesAreLive(events: seq<Event>, names: ColorNames)
    ensures forall i :: 0 <= i < |events| ==> Run(events, names).replies[i] == Apply(events[i], names).value
    decreases |events|
  {
    if |events| > 0 {
      var n := |events| - 1;
      RepliesAreLive(events[..n], names);
      assert forall i :: 0 <= i < n ==> events[..n][i] == events[i];
    }
  }

  /** `get_cursor` answers the origin whatever `set_cursor` calls came before. */
  lemma GetCursorAnswersOrigin(events: seq<Event>, names: ColorNames)
    ensures forall i :: 0 <= i < |events| && events[i].call == GetCursor ==> Run(events, names).replies[i] == Cursor(0, 0)
  {
    RepliesAreLive(events, names);
  }

  /**
   * `size` answers the grid of the rectangle current at the call, whatever
   * size the canvas had at earlier calls.
   */
  lemma SizeAnswersCurrentRect(events: seq<Event>, names: ColorNames)
    ensures forall i :: 0 <= i < |events| && events[i].call == Size ==>
              Run(events, names).replies[i] == Grid(CanvasBackend.Size(events[i].rect).value)
  {
    RepliesAreLive(events, names);
    forall i | 0 <= i < |events| && events[i].call == Size
      ensures Run(events, names).replies[i] == Grid(CanvasBackend.Size(events[i].rect).value)
    {
      assert Run(events, names).replies[i] == Apply(events[i], names).value;
    }
  }

  /** After `set_cursor(3, 4)` the pen is at (3, 4), yet `get_cursor` answers (0, 0). */
  lemma SetThenGetCursor(rect: BoundingRect, names: ColorNames, ctx: Context)
    ensures var out := Run([Event(rect, SetCursor(3, 4)), Event(rect, GetCursor)], names);
            out.replies == [Done, Cursor(0, 0)]
            && Final(out.log, ctx).pen == (3, 4)
  {
    var events := [Event(rect, SetCursor(3, 4)), Event(rect, GetCursor)];
    assert events[..1][..0] == [];
    assert events[..1] == [Event(rect, SetCursor(3, 4))];
    SetCursorMovesPen(3, 4, ctx);
    RunLast(events, names);
    RunLast(events[..1], names);
    assert Run(events[..1], names).log == [MoveTo(3, 4)];
    assert Run(events, names).log == [MoveTo(3, 4)];
  }

  /**
   * A resize from 160 by 180 to 320 by 360 pixels followed by a clear and a
   * size query: the query answers the new 20 by 20 grid and the canvas
   * buffer ends up 320 by 360.
   */
  lemma ResizeResynchronises(names: ColorNames, ctx: Context)
    ensures var small := BoundingRect(160, 180);
            var large := BoundingRect(320, 360);
            var out := Run([Event(small, Size), Event(large, Clear), Event(large, Size)], names);
            out.replies == [Grid(Rect(0, 0, 10, 10)), Done, Grid(Rect(0, 0, 20, 20))]
            && Final(out.log, ctx).width == 320 && Final(out.log, ctx).height == 360
  {
    var small := BoundingRect(160, 180);
    var large := BoundingRect(320, 360);
    var events := [Event(small, Size), Event(large, Clear), Event(large, Size)];
    RepliesAreLive(events, names);
    SizeExamples();
    assert events[..2][..1] == events[..1];
    assert events[..1][..0] == [];
    var first := Run(events[..2], names).log;
    assert Run(events, names).log == first + CanvasBackend.Size(large).ops;
    MarksAppend(first, CanvasBackend.Size(large).ops, ctx);
    SizeResizesBuffer(large, Final(first, ctx));
  }
}
