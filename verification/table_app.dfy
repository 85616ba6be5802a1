/**
 * The table example's state: a selection that cycles through the rows with
 * wrap-around, and the height of each row, which grows with the number of
 * line breaks in its tallest cell.
 */
module TableApp {
  import opened Options

  /** The selected row index, if any. */
  type Selection = Option<nat>

  /**
   * Select the row below, wrapping from the last row to the first; with no
   * selection, select the first row. With a selection the source compares
   * it against the row count minus one, so that case needs at least one row.
   */
  function Next(selected: Selection, len: nat): (r: Selection)
    requires selected.Some? ==> len > 0
    ensures r.Some? && (selected.Some? && selected.value < len ==> r.value < len)
    ensures selected.None? ==> r == Some(0)
  {
    match selected
    case Some(i) => if i >= len - 1 then Some(0) else Some(i + 1)
    case None => Some(0)
  }

  /**
   * Select the row above, wrapping from the first row to the last; with no
   * selection, select the first row. Only wrapping from the first row
   * subtracts one from the row count, so only that case needs a row.
   */
  function Previous(selected: Selection, len: nat): (r: Selection)
    requires selected == Some(0) ==> len > 0
    ensures r.Some? && (selected.Some? && selected.value < len ==> r.value < len)
    ensures selected.None? ==> r == Some(0)
  {
    match selected
    case Some(i) => if i == 0 then Some(len - 1) else Some(i - 1)
    case None => Some(0)
  }

  /** From a row in range, `Next` moves one row down modulo the row count. */
  lemma NextWraps(i: nat, len: nat)
    requires i < len
    ensures Next(Some(i), len) == Some((i + 1) % len)
  {
  }

  /** From a row in range, `Previous` moves one row up modulo the row count. */
  lemma PreviousWraps(i: nat, len: nat)
    requires i < len
    ensures Previous(Some(i), len) == Some((i + len - 1) % len)
  {
  }

  /** On rows in range, `Previous` undoes `Next` and `Next` undoes `Previous`. */
  lemma NextPreviousInverse(i: nat, len: nat)
    requires i < len
    ensures Previous(Next(Some(i), len), len) == Some(i)
    ensures Next(Previous(Some(i), len), len) == Some(i)
  {
  }

  /** `Next` applied `k` times. */
  function NextTimes(selected: Selection, len: nat, k: nat): (r: Selection)
    requires len > 0
    decreases k
  {
    if k == 0 then selected else Next(NextTimes(selected, len, k - 1), len)
  }

  /** `a + b` steps are `a` steps followed by `b` steps. */
  lemma {:induction false} NextTimesAdd(selected: Selection, len: nat, a: nat, b: nat)
    requires len > 0
    ensures NextTimes(selected, len, a + b) == NextTimes(NextTimes(selected, len, a), len, b)
    decreases b
  {
    if b > 0 {
      NextTimesAdd(selected, len, a, b - 1);
    }
  }

  /** Below the last row, `k` steps down land `k` rows further. */
  lemma {:induction false} NextTimesClimbs(i: nat, len: nat, k: nat)
    requires i + k < len
    ensures NextTimes(Some(i), len, k) == Some(i + k)
    decreases k
  {
    if k > 0 {
      NextTimesClimbs(i, len, k - 1);
    }
  }

  /** Stepping down once per row comes back to the starting row. */
  lemma NextCycles(i: nat, len: nat)
    requires i < len
    ensures NextTimes(Some(i), len, len) == Some(i)
  {
    var up := len - 1 - i;
    NextTimesAdd(Some(i), len, up, i + 1);
    NextTimesClimbs(i, len, up);
    NextTimesAdd(Some(len - 1), len, 1, i);
    assert NextTimes(Some(len - 1), len, 1) == Some(0);
    NextTimesClimbs(0, len, i);
  }

  /** How many line breaks a cell's text holds. */
  function Newlines(s: string): (r: nat)
    ensures r == multiset(s)['\n']
    ensures r <= |s|
    decreases |s|
  {
    if |s| == 0 then 0
    else
      assert s == s[..|s| - 1] + [s[|s| - 1]];
      Newlines(s[..|s| - 1]) + (if s[|s| - 1] == '\n' then 1 else 0)
  }

  /** The largest line-break count over a row's cells, 0 for an empty row. */
  function MaxNewlines(row: seq<string>): (r: nat)
    ensures forall c <- row :: Newlines(c) <= r
    ensures |row| == 0 ==> r == 0
    ensures |row| > 0 ==> exists c <- row :: Newlines(c) == r
    decreases |row|
  {
    if |row| == 0 then 0
    else
      var rest := MaxNewlines(row[..|row| - 1]);
      var last := Newlines(row[|row| - 1]);
      assert row == row[..|row| - 1] + [row[|row| - 1]];
      if last > rest then last else rest
  }

  /**
   * A row's height in lines: one more than the most line breaks in any of
   * its cells. It is at least 1, fits every cell's lines, and is reached by
   * some cell of a non-empty row.
   */
  function RowHeight(row: seq<string>): (h: nat)
    ensures h >= 1
    ensures forall c <- row :: multiset(c)['\n'] + 1 <= h
    ensures |row| == 0 ==> h == 1
    ensures |row| > 0 ==> exists c <- row :: multiset(c)['\n'] + 1 == h
  {
    MaxNewlines(row) + 1
  }

  /** The height handed to the table, truncated to `u16` by the source's cast. */
  function RowHeightU16(row: seq<string>): (h: nat)
    ensures h < 0x1_0000
    ensures RowHeight(row) < 0x1_0000 ==> h == RowHeight(row)
    ensures (RowHeight(row) - h) % 0x1_0000 == 0
  {
    RowHeight(row) % 0x1_0000
  }

  /** The rows the example starts with. */
  const Items: seq<seq<string>> := [
    ["Row11", "Row12", "Row13"],
    ["Row21", "Row22", "Row23"],
    ["Row31", "Row32", "Row33"],
    ["Row41", "Row42", "Row43"],
    ["Row51", "Row52", "Row53"],
    ["Row61", "Row62\nTest", "Row63"],
    ["Row71", "Row72", "Row73"],
    ["Row81", "Row82", "Row83"],
    ["Row91", "Row92", "Row93"],
    ["Row101", "Row102", "Row103"],
    ["Row111", "Row112", "Row113"],
    ["Row121", "Row122", "Row123"],
    ["Row131", "Row132", "Row133"],
    ["Row141", "Row142", "Row143"],
    ["Row151", "Row152", "Row153"],
    ["Row161", "Row162", "Row163"],
    ["Row171", "Row172", "Row173"],
    ["Row181", "Row182", "Row183"],
    ["Row191", "Row192", "Row193"]
  ]

  /** A three-cell row is as high as its tallest cell. */
  lemma ThreeCellRow(a: string, b: string, c: string)
    ensures var m := if Newlines(a) >= Newlines(b) && Newlines(a) >= Newlines(c) then Newlines(a)
                     else if Newlines(b) >= Newlines(c) then Newlines(b) else Newlines(c);
            RowHeight([a, b, c]) == m + 1
  {
    var row := [a, b, c];
    assert row[..2] == [a, b];
    assert row[..2][..1] == [a];
    assert row[..2][..1][..0] == [];
  }

  /** The sixth row, whose middle cell breaks once, is two lines high; the first is one. */
  lemma ItemHeights()
    ensures |Items| == 19
    ensures RowHeight(Items[5]) == 2
    ensures RowHeight(Items[0]) == 1
  {
    ItemRows();
    SixthRowHeight();
    FirstRowHeight();
  }

  lemma SixthRowHeight()
    ensures RowHeight(Items[5]) == 2
  {
    ItemRows();
    var r := Items[5];
    assert r[1] == "Row62" + "\n" + "Test";
    NoNewlines(r[0]);
    NoNewlines(r[2]);
    OneNewline("Row62", "Test");
    ThreeCellRow(r[0], r[1], r[2]);
    assert r == [r[0], r[1], r[2]];
  }

  lemma FirstRowHeight()
    ensures RowHeight(Items[0]) == 1
  {
    ItemRows();
    var r := Items[0];
    NoNewlines(r[0]);
    NoNewlines(r[1]);
    NoNewlines(r[2]);
    ThreeCellRow(r[0], r[1], r[2]);
    assert r == [r[0], r[1], r[2]];
  }

  lemma ItemRows()
    ensures |Items| == 19
    ensures Items[5] == ["Row61", "Row62\nTest", "Row63"]
    ensures Items[0] == ["Row11", "Row12", "Row13"]
  {
  }

  /** Two break-free texts joined by one line break hold exactly one break. */
  lemma OneNewline(a: string, b: string)
    requires forall i :: 0 <= i < |a| ==> a[i] != '\n'
    requires forall i :: 0 <= i < |b| ==> b[i] != '\n'
    ensures Newlines(a + "\n" + b) == 1
  {
    NoNewlines(a);
    NoNewlines(b);
    NewlinesConcat(a, "\n");
    NewlinesConcat(a + "\n", b);
  }

  /** Line breaks of joined texts add up. */
  lemma NewlinesConcat(a: string, b: string)
    ensures Newlines(a + b) == Newlines(a) + Newlines(b)
  {
    assert multiset(a + b) == multiset(a) + multiset(b);
  }

  /** A text without a line-break character has no line breaks. */
  lemma NoNewlines(s: string)
    requires forall i :: 0 <= i < |s| ==> s[i] != '\n'
    ensures Newlines(s) == 0
  {
    assert '\n' !in multiset(s);
  }
}
