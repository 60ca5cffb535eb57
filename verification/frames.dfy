/** Date-indexed tables as the services handle them. A series maps calendar
    days to values, a day it lacks being pandas' NaN; a frame is a list of
    labelled columns, labels possibly repeated, over a set of days. */
module Frames {
  import opened Wrappers
  import opened Seqs
  import opened Sums
  import opened Sorting

  type Series = map<int, real>

  /** The value a pandas sum sees on day `d`: NaN is skipped, i.e. counts as 0. */
  function At(s: Series, d: int): real {
    if d in s then s[d] else 0.0
  }

  // ---------------------------------------------------------------------------
  // Forward fill on a contiguous calendar
  // ---------------------------------------------------------------------------

  /** The last day in `[lo, d]` holding a value. */
  function LastKey(s: Series, lo: int, d: int): (r: Option<int>)
    ensures r.Some? ==> lo <= r.value <= d && r.value in s
    ensures r.Some? ==> forall j :: r.value < j <= d ==> j !in s
    ensures r.None? ==> forall j :: lo <= j <= d ==> j !in s
    decreases d - lo
  {
    if d < lo then None
    else if d in s then Some(d)
    else LastKey(s, lo, d - 1)
  }

  /** `reindex(pd.date_range(lo, hi)).ffill()`: the calendar `lo..hi`, each
      day holding the value of the last day at or before it that had one.
      Values outside the calendar are dropped before filling. */
  function FFill(s: Series, lo: int, hi: int): (r: Series)
    ensures forall d :: d in r ==> lo <= d <= hi
    ensures forall d :: lo <= d <= hi && d in s ==> d in r && r[d] == s[d]
    ensures forall d :: lo <= d <= hi && d !in r ==> forall j :: lo <= j <= d ==> j !in s
  {
    map d | lo <= d <= hi && LastKey(s, lo, d).Some? :: s[LastKey(s, lo, d).value]
  }

  /** A day without an observation repeats the day before it. */
  lemma FFillCarries(s: Series, lo: int, hi: int, d: int)
    requires lo < d <= hi && d !in s
    ensures d in FFill(s, lo, hi) <==> d - 1 in FFill(s, lo, hi)
    ensures d in FFill(s, lo, hi) ==> FFill(s, lo, hi)[d] == FFill(s, lo, hi)[d - 1]
  {
  }

  /** A filled day carries the value of the last observation at or before it. */
  lemma FFillIsLastValue(s: Series, lo: int, hi: int, d: int)
    requires lo <= d <= hi
    ensures d in FFill(s, lo, hi) <==> LastKey(s, lo, d).Some?
    ensures d in FFill(s, lo, hi) ==> FFill(s, lo, hi)[d] == s[LastKey(s, lo, d).value]
  {
  }

  /** `fillna(0)`: every calendar day present, NaN becoming 0. */
  function FillZero(s: Series, lo: int, hi: int): (r: Series)
    ensures forall d :: d in r <==> lo <= d <= hi
    ensures forall d :: lo <= d <= hi ==> r[d] == At(s, d)
  {
    map d | lo <= d <= hi :: At(s, d)
  }

  // ---------------------------------------------------------------------------
  // Columns, row sums and grouping by label
  // ---------------------------------------------------------------------------

  datatype Column = Column(name: string, series: Series)

  function LabelOf(c: Column): string {
    c.name
  }

  /** One cell of a row: its column's label and value. */
  datatype Cell = Cell(name: string, value: real)

  function CellLabel(c: Cell): string {
    c.name
  }

  function CellValue(c: Cell): real {
    c.value
  }

  /** The row of day `d`, NaN read as 0. */
  function Cells(cols: seq<Column>, d: int): (r: seq<Cell>)
    ensures |r| == |cols|
    ensures forall i :: 0 <= i < |cols| ==> r[i] == Cell(cols[i].name, At(cols[i].series, d))
    decreases |cols|
  {
    if |cols| == 0 then [] else [Cell(cols[0].name, At(cols[0].series, d))] + Cells(cols[1..], d)
  }

  /** `sum(axis=1)`: the sum of a row, NaN skipped. */
  function RowSum(cols: seq<Column>, d: int): real {
    Total(Cells(cols, d), CellValue)
  }

  /** The sum on day `d` of the columns labelled `l`. */
  function LabelSum(cols: seq<Column>, l: string, d: int): real {
    GroupTotal(Cells(cols, d), l, CellLabel, CellValue)
  }

  /** The distinct labels, in order of first appearance. */
  function Labels(cols: seq<Column>): (ls: seq<string>)
    ensures Distinct(ls)
    ensures forall i :: 0 <= i < |cols| ==> cols[i].name in ls
    ensures forall i :: 0 <= i < |ls| ==> exists j :: 0 <= j < |cols| && cols[j].name == ls[i]
  {
    var all := Project(cols, LabelOf);
    var ls := Unique(all);
    forall i | 0 <= i < |ls|
      ensures exists j :: 0 <= j < |cols| && cols[j].name == ls[i]
    {
      var j :| 0 <= j < |all| && all[j] == ls[i];
      assert cols[j].name == ls[i];
    }
    ls
  }

  /** One column per label of `ls`, holding on every day of `days` the sum of
      the columns of `cols` carrying that label. */
  function GroupColumns(cols: seq<Column>, ls: seq<string>, days: set<int>): (r: seq<Column>)
    ensures |r| == |ls|
    ensures forall i :: 0 <= i < |ls| ==> r[i].name == ls[i] && r[i].series.Keys == days
    ensures forall i, d :: 0 <= i < |ls| && d in days ==> r[i].series[d] == LabelSum(cols, ls[i], d)
    decreases |ls|
  {
    if |ls| == 0 then []
    else [Column(ls[0], map d | d in days :: LabelSum(cols, ls[0], d))] + GroupColumns(cols, ls[1..], days)
  }

  /** `df.T.groupby(labels).sum().T`: columns sharing a label summed into
      one, NaN skipped, so a day where all are NaN gives 0. */
  function GroupSum(cols: seq<Column>, days: set<int>): (r: seq<Column>)
    ensures Project(r, LabelOf) == Labels(cols)
    ensures forall j :: 0 <= j < |r| ==> r[j].series.Keys == days
    ensures forall j, d :: 0 <= j < |r| && d in days ==> r[j].series[d] == LabelSum(cols, r[j].name, d)
  {
    GroupColumns(cols, Labels(cols), days)
  }

  lemma {:induction false} RowSumOfGroups(cols: seq<Column>, ls: seq<string>, days: set<int>, d: int)
    requires d in days
    ensures RowSum(GroupColumns(cols, ls, days), d) == SumGroups(Cells(cols, d), ls, CellLabel, CellValue)
    decreases |ls|
  {
    if |ls| > 0 {
      var r := GroupColumns(cols, ls, days);
      assert r[1..] == GroupColumns(cols, ls[1..], days);
      RowSumOfGroups(cols, ls[1..], days, d);
      assert Cells(r, d)[1..] == Cells(r[1..], d);
    }
  }

  /** Grouping conserves every row's total. */
  lemma GroupSumConserves(cols: seq<Column>, days: set<int>, d: int)
    requires d in days
    ensures RowSum(GroupSum(cols, days), d) == RowSum(cols, d)
  {
    var ls := Labels(cols);
    RowSumOfGroups(cols, ls, days, d);
    var cells := Cells(cols, d);
    forall i | 0 <= i < |cells|
      ensures CellLabel(cells[i]) in ls
    {
      assert cells[i].name == cols[i].name;
    }
    GroupsPartition(cells, ls, CellLabel, CellValue);
  }

  /** A label that no column carries sums to 0. */
  lemma LabelSumAbsent(cols: seq<Column>, l: string, d: int)
    requires forall i :: 0 <= i < |cols| ==> cols[i].name != l
    ensures LabelSum(cols, l, d) == 0.0
  {
    GroupTotalOutside(Cells(cols, d), l, CellLabel, CellValue);
  }

  /** Where the labels are already distinct, the column labelled `l` is the sum. */
  lemma LabelSumSingle(cols: seq<Column>, i: int, d: int)
    requires Distinct(Project(cols, LabelOf)) && 0 <= i < |cols|
    ensures LabelSum(cols, cols[i].name, d) == At(cols[i].series, d)
  {
    var cells := Cells(cols, d);
    forall j | 0 <= j < |cells| && j != i
      ensures CellLabel(cells[j]) != cols[i].name
    {
      assert Project(cols, LabelOf)[j] == cols[j].name;
      assert Project(cols, LabelOf)[i] == cols[i].name;
    }
    GroupTotalOnly(cells, i, cols[i].name);
  }

  /** A row where only cell `i` carries label `l` sums to that cell under `l`. */
  lemma GroupTotalOnly(cells: seq<Cell>, i: int, l: string)
    requires 0 <= i < |cells| && CellLabel(cells[i]) == l
    requires forall j :: 0 <= j < |cells| && j != i ==> CellLabel(cells[j]) != l
    ensures GroupTotal(cells, l, CellLabel, CellValue) == cells[i].value
  {
    var before, after := cells[..i], cells[i + 1..];
    assert cells == before + [cells[i]] + after;
    GroupTotalConcat(before + [cells[i]], after, l, CellLabel, CellValue);
    GroupTotalConcat(before, [cells[i]], l, CellLabel, CellValue);
    GroupTotalSingle(cells[i], l, CellLabel, CellValue);
    forall j | 0 <= j < |before| ensures CellLabel(before[j]) != l {
      assert before[j] == cells[j];
    }
    forall j | 0 <= j < |after| ensures CellLabel(after[j]) != l {
      assert after[j] == cells[i + 1 + j];
    }
    GroupTotalOutside(before, l, CellLabel, CellValue);
    GroupTotalOutside(after, l, CellLabel, CellValue);
  }

  /** `df.columns = [f(c) for c in df.columns]`. */
  function Relabel(cols: seq<Column>, f: string -> string): (r: seq<Column>)
    ensures |r| == |cols|
    ensures forall i :: 0 <= i < |cols| ==> r[i] == Column(f(cols[i].name), cols[i].series)
  {
    seq(|cols|, i requires 0 <= i < |cols| => Column(f(cols[i].name), cols[i].series))
  }

  /** `df.columns = [f(c) for c in df.columns]` where a new label may be NaN,
      as `T.groupby` then sees it: a column whose new label is NaN is left
      out, since the grouping drops the NaN key. */
  function RelabelPresent(cols: seq<Column>, f: string -> Option<string>): (r: seq<Column>)
    ensures |r| <= |cols|
    ensures (forall i :: 0 <= i < |cols| ==> f(cols[i].name).Some?) ==>
      |r| == |cols| && forall i :: 0 <= i < |cols| ==> r[i] == Column(f(cols[i].name).value, cols[i].series)
    decreases |cols|
  {
    if |cols| == 0 then []
    else
      var tail := cols[1..];
      var rest := RelabelPresent(tail, f);
      assert forall i :: 1 <= i < |cols| ==> cols[i] == tail[i - 1];
      if f(cols[0].name).Some? then [Column(f(cols[0].name).value, cols[0].series)] + rest else rest
  }

  /** `c` is some column of `cols` under its new label. */
  predicate RelabelledFrom(cols: seq<Column>, f: string -> Option<string>, c: Column) {
    exists i :: 0 <= i < |cols| && f(cols[i].name) == Some(c.name) && c.series == cols[i].series
  }

  /** The kept columns are exactly those whose new label is present, each
      under its new label and with its values. */
  lemma {:induction false} RelabelPresentMembers(cols: seq<Column>, f: string -> Option<string>)
    ensures forall c :: c in RelabelPresent(cols, f) ==> RelabelledFrom(cols, f, c)
    ensures forall i :: 0 <= i < |cols| && f(cols[i].name).Some? ==> Column(f(cols[i].name).value, cols[i].series) in RelabelPresent(cols, f)
    decreases |cols|
  {
    if |cols| > 0 {
      var tail := cols[1..];
      RelabelPresentMembers(tail, f);
      var rest := RelabelPresent(tail, f);
      var r := RelabelPresent(cols, f);
      var head := if f(cols[0].name).Some? then [Column(f(cols[0].name).value, cols[0].series)] else [];
      assert r == head + rest;
      forall c | c in r
        ensures RelabelledFrom(cols, f, c)
      {
        if c in rest {
          var i :| 0 <= i < |tail| && f(tail[i].name) == Some(c.name) && c.series == tail[i].series;
          assert tail[i] == cols[i + 1];
        } else {
          assert c == head[0];
          assert f(cols[0].name) == Some(c.name);
        }
      }
      forall i | 1 <= i < |cols| && f(cols[i].name).Some?
        ensures Column(f(cols[i].name).value, cols[i].series) in r
      {
        assert cols[i] == tail[i - 1];
      }
    }
  }

  /** Relabelling a stacked frame relabels each part. */
  lemma {:induction false} RelabelPresentConcat(a: seq<Column>, b: seq<Column>, f: string -> Option<string>)
    ensures RelabelPresent(a + b, f) == RelabelPresent(a, f) + RelabelPresent(b, f)
    decreases |a|
  {
    if |a| > 0 {
      assert (a + b)[1..] == a[1..] + b;
      RelabelPresentConcat(a[1..], b, f);
    } else {
      assert a + b == b;
    }
  }

  /** Columns whose new label is NaN all vanish. */
  lemma {:induction false} RelabelPresentNone(cols: seq<Column>, f: string -> Option<string>)
    requires forall i :: 0 <= i < |cols| ==> f(cols[i].name).None?
    ensures RelabelPresent(cols, f) == []
    decreases |cols|
  {
    if |cols| > 0 {
      assert forall i :: 0 <= i < |cols[1..]| ==> cols[1..][i] == cols[i + 1];
      RelabelPresentNone(cols[1..], f);
    }
  }

  /** When no new label is NaN, relabelling keeps every day's row sum. */
  lemma RelabelPresentConserves(cols: seq<Column>, f: string -> Option<string>, d: int)
    requires forall i :: 0 <= i < |cols| ==> f(cols[i].name).Some?
    ensures RowSum(RelabelPresent(cols, f), d) == RowSum(cols, d)
  {
    TotalOfValues(Cells(RelabelPresent(cols, f), d), Cells(cols, d));
  }

  /** Two rows with the same values in the same order have the same sum. */
  lemma {:induction false} TotalOfValues(a: seq<Cell>, b: seq<Cell>)
    requires |a| == |b|
    requires forall i :: 0 <= i < |a| ==> a[i].value == b[i].value
    ensures Total(a, CellValue) == Total(b, CellValue)
    decreases |a|
  {
    if |a| > 0 {
      TotalOfValues(a[1..], b[1..]);
    }
  }

  /** Renaming columns never changes a row's total. */
  lemma RelabelConserves(cols: seq<Column>, f: string -> string, d: int)
    ensures RowSum(Relabel(cols, f), d) == RowSum(cols, d)
  {
    TotalOfValues(Cells(Relabel(cols, f), d), Cells(cols, d));
  }

  lemma CellsConcat(a: seq<Column>, b: seq<Column>, d: int)
    ensures Cells(a + b, d) == Cells(a, d) + Cells(b, d)
  {
    var ca, cb, cab := Cells(a, d), Cells(b, d), Cells(a + b, d);
    forall i | 0 <= i < |cab|
      ensures cab[i] == (ca + cb)[i]
    {
      if i < |a| {
        assert (a + b)[i] == a[i];
      } else {
        assert (a + b)[i] == b[i - |a|];
      }
    }
  }

  /** Placing two frames side by side adds their row sums. */
  lemma RowSumConcat(a: seq<Column>, b: seq<Column>, d: int)
    ensures RowSum(a + b, d) == RowSum(a, d) + RowSum(b, d)
  {
    CellsConcat(a, b, d);
    TotalConcat(Cells(a, d), Cells(b, d), CellValue);
  }

  /** ... and, label by label, their label sums. */
  lemma LabelSumConcat(a: seq<Column>, b: seq<Column>, l: string, d: int)
    ensures LabelSum(a + b, l, d) == LabelSum(a, l, d) + LabelSum(b, l, d)
  {
    CellsConcat(a, b, d);
    GroupTotalConcat(Cells(a, d), Cells(b, d), l, CellLabel, CellValue);
  }
}
