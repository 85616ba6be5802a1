/**
 * The scrollbar example's state: two scroll offsets moved by the `h`, `j`,
 * `k` and `l` keys with saturating arithmetic, each mirrored into the
 * position of its scrollbar, and the content lengths each redraw sets.
 */
module ScrollbarApp {

  /** Upper bound of `usize` on the 32-bit WebAssembly target. */
  const UsizeMax: int := 0xFFFF_FFFF

  type usize = x: int | 0 <= x <= UsizeMax

  /** The two fields of a scrollbar's state that the example sets. */
  datatype ScrollbarState = ScrollbarState(position: usize, contentLength: usize)

  /** The example's state; everything starts at zero. */
  datatype App = App(
    verticalState: ScrollbarState,
    horizontalState: ScrollbarState,
    vertical: usize,
    horizontal: usize)

  const Initial: App := App(ScrollbarState(0, 0), ScrollbarState(0, 0), 0, 0)

  /** `usize::saturating_add(1)`. */
  function SaturatingInc(v: usize): (r: usize)
    ensures v < UsizeMax ==> r == v + 1
    ensures v == UsizeMax ==> r == v
  {
    if v == UsizeMax then v else v + 1
  }

  /** `usize::saturating_sub(1)`. */
  function SaturatingDec(v: usize): (r: usize)
    ensures v > 0 ==> r == v - 1
    ensures v == 0 ==> r == 0
  {
    if v == 0 then 0 else v - 1
  }

  /** Each scrollbar shows the offset it belongs to. */
  predicate Mirrored(app: App)
  {
    app.verticalState.position == app.vertical && app.horizontalState.position == app.horizontal
  }

  predicate IsVerticalKey(key: string) { key == "j" || key == "k" }

  predicate IsHorizontalKey(key: string) { key == "h" || key == "l" }

  /**
   * The keydown handler's state update: `j` and `k` scroll down and up,
   * `l` and `h` right and left, and each moved offset is copied into its
   * scrollbar's position. Any other key only logs.
   */
  function OnKey(app: App, key: string): (r: App)
    ensures IsVerticalKey(key) ==>
              r.horizontal == app.horizontal && r.horizontalState == app.horizontalState
              && r.verticalState.position == r.vertical
              && r.verticalState.contentLength == app.verticalState.contentLength
    ensures IsHorizontalKey(key) ==>
              r.vertical == app.vertical && r.verticalState == app.verticalState
              && r.horizontalState.position == r.horizontal
              && r.horizontalState.contentLength == app.horizontalState.contentLength
    ensures !IsVerticalKey(key) && !IsHorizontalKey(key) ==> r == app
    ensures key == "j" ==> r.vertical == if app.vertical < UsizeMax then app.vertical + 1 else UsizeMax
    ensures key == "k" ==> r.vertical == if app.vertical > 0 then app.vertical - 1 else 0
    ensures key == "l" ==> r.horizontal == if app.horizontal < UsizeMax then app.horizontal + 1 else UsizeMax
    ensures key == "h" ==> r.horizontal == if app.horizontal > 0 then app.horizontal - 1 else 0
  {
    if key == "j" then
      var v := SaturatingInc(app.vertical);
      app.(vertical := v, verticalState := app.verticalState.(position := v))
    else if key == "k" then
      var v := SaturatingDec(app.vertical);
      app.(vertical := v, verticalState := app.verticalState.(position := v))
    else if key == "h" then
      var h := SaturatingDec(app.horizontal);
      app.(horizontal := h, horizontalState := app.horizontalState.(position := h))
    else if key == "l" then
      var h := SaturatingInc(app.horizontal);
      app.(horizontal := h, horizontalState := app.horizontalState.(position := h))
    else
      app
  }

  /** Scrolling up from the top stays at the top; scrolling left from the left edge stays there. */
  lemma ScrollStopsAtZero(app: App)
    ensures app.vertical == 0 ==> OnKey(app, "k").vertical == 0
    ensures app.horizontal == 0 ==> OnKey(app, "h").horizontal == 0
  {
  }

  /** Below the saturation bound, `k` undoes `j` and `h` undoes `l`, scrollbars included. */
  lemma ScrollRoundTrips(app: App)
    requires Mirrored(app)
    ensures app.vertical < UsizeMax ==> OnKey(OnKey(app, "j"), "k") == app
    ensures app.horizontal < UsizeMax ==> OnKey(OnKey(app, "l"), "h") == app
  {
  }

  /** Scrolling down at the largest `usize` leaves the offset where it is. */
  lemma ScrollSaturates(app: App)
    ensures app.vertical == UsizeMax ==> OnKey(app, "j").vertical == UsizeMax
    ensures app.horizontal == UsizeMax ==> OnKey(app, "l").horizontal == UsizeMax
  {
  }

  /** Every key keeps each scrollbar showing its own offset, starting from the initial state. */
  lemma OnKeyKeepsMirrored(app: App, key: string)
    requires Mirrored(app)
    ensures Mirrored(OnKey(app, key))
    ensures Mirrored(Initial)
  {
  }

  /** The offsets after a sequence of keys. */
  function OnKeys(app: App, keys: seq<string>): App
    decreases |keys|
  {
    if |keys| == 0 then app else OnKeys(OnKey(app, keys[0]), keys[1..])
  }

  /** From the initial state, after any keys, both scrollbars show their offsets. */
  lemma {:induction false} OnKeysKeepMirrored(app: App, keys: seq<string>)
    requires Mirrored(app)
    ensures Mirrored(OnKeys(app, keys))
    decreases |keys|
  {
    if |keys| > 0 {
      OnKeyKeepsMirrored(app, keys[0]);
      OnKeysKeepMirrored(OnKey(app, keys[0]), keys[1..]);
    }
  }

  /** The phrase the long line repeats. */
  const Phrase: string := "Veeeeeeeeeeeeeeeery    loooooooooooooooooong   striiiiiiiiiiiiiiiiiiiiiiiiiing.   "

  /** `s` repeated `n` times. */
  function Repeat(s: string, n: nat): (r: string)
    ensures |r| == |s| * n
    ensures n > 0 ==> r[|r| - |s|..] == s
    decreases n
  {
    if n == 0 then []
    else
      var rest := Repeat(s, n - 1);
      assert |rest| + |s| == |s| * n by {
        assert |s| * (n - 1) + |s| == |s| * n;
      }
      rest + s
  }

  /** Fewer repetitions are a prefix of more. */
  lemma {:induction false} RepeatPrefixes(s: string, n: nat)
    ensures forall k :: 0 <= k <= n ==> Repeat(s, k) <= Repeat(s, n)
    decreases n
  {
    if n > 0 {
      RepeatPrefixes(s, n - 1);
      var rest := Repeat(s, n - 1);
      assert Repeat(s, n) == rest + s;
      forall k | 0 <= k <= n
        ensures Repeat(s, k) <= Repeat(s, n)
      {
        if k < n {
          var p := Repeat(s, k);
          assert p <= rest;
          assert (rest + s)[..|p|] == rest[..|p|];
        }
      }
    }
  }

  /** Every one of the `n` chunks of `Repeat(s, n)` is a copy of `s`. */
  lemma RepeatChunks(s: string, n: nat)
    ensures forall k :: 0 <= k < n ==>
              |s| * k + |s| <= |Repeat(s, n)| && Repeat(s, n)[|s| * k .. |s| * k + |s|] == s
  {
    RepeatPrefixes(s, n);
    forall k | 0 <= k < n
      ensures |s| * k + |s| <= |Repeat(s, n)| && Repeat(s, n)[|s| * k .. |s| * k + |s|] == s
    {
      RepeatChunk(s, n, k);
    }
  }

  lemma RepeatChunk(s: string, n: nat, k: nat)
    requires k < n
    requires Repeat(s, k + 1) <= Repeat(s, n)
    ensures |s| * k + |s| <= |Repeat(s, n)| && Repeat(s, n)[|s| * k .. |s| * k + |s|] == s
  {
    var p, whole := Repeat(s, k + 1), Repeat(s, n);
    var i := |s| * k;
    MulSucc(|s|, k);
    assert |p| == i + |s|;
    assert p[i..] == s;
    PrefixSlice(p, whole, i);
  }

  lemma MulSucc(a: nat, k: nat)
    ensures a * (k + 1) == a * k + a
  {
  }

  lemma PrefixSlice(p: string, q: string, i: nat)
    requires p <= q && i <= |p|
    ensures q[i..|p|] == p[i..]
  {
  }

  /**
   * The long line: enough copies of the phrase to overrun a screen `width`
   * cells wide by four more copies, then a line break.
   */
  function LongLine(width: nat): (r: string)
    ensures |r| == |Phrase| * (width / |Phrase| + 4) + 1
    ensures |r| > width + 3 * |Phrase|
    ensures r[|r| - 1] == '\n'
  {
    var n := width / |Phrase| + 4;
    assert |Phrase| * n > width + 3 * |Phrase| by {
      assert |Phrase| * (width / |Phrase|) + width % |Phrase| == width;
      assert |Phrase| * n == |Phrase| * (width / |Phrase|) + 4 * |Phrase|;
    }
    Repeat(Phrase, n) + "\n"
  }

  /** The phrase is 82 characters long, so an 80-cell screen gets four copies and a 164-cell one six. */
  lemma LongLineExamples()
    ensures |Phrase| == 82
    ensures |LongLine(80)| == 329
    ensures |LongLine(164)| == 493
  {
  }

  /** The fourteen lines each scrolled paragraph shows, spans joined. */
  function Text(width: nat): (r: seq<string>)
    ensures |r| == 14
  {
    var long := LongLine(width);
    var block := [
      "This is a line ",
      "This is a line   ",
      "This is a line",
      "This is a longer line",
      long,
      "This is a line",
      "Masked text: ********"];
    block + block
  }

  /**
   * A redraw for a screen `width` cells wide: the vertical scrollbar's
   * content length becomes the number of text lines, the horizontal one's
   * the length of the long line; offsets and positions stay as they were.
   */
  function Ui(app: App, width: nat): (r: App)
    requires width <= 0xFFFF
    ensures r.verticalState.contentLength == |Text(width)| == 14
    ensures r.horizontalState.contentLength == |LongLine(width)| > width
    ensures r.vertical == app.vertical && r.horizontal == app.horizontal
    ensures r.verticalState.position == app.verticalState.position
    ensures r.horizontalState.position == app.horizontalState.position
  {
    var long := |LongLine(width)|;
    assert long <= UsizeMax by {
      assert width / |Phrase| <= 0xFFFF / |Phrase|;
    }
    app.(verticalState := app.verticalState.(contentLength := |Text(width)|),
         horizontalState := app.horizontalState.(contentLength := long))
  }

  /** A redraw keeps each scrollbar showing its offset. */
  lemma UiKeepsMirrored(app: App, width: nat)
    requires width <= 0xFFFF && Mirrored(app)
    ensures Mirrored(Ui(app, width))
  {
  }
}
