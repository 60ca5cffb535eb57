/** Row identity at ingestion (`platform_data_refresh.py`): `balance_calc`
    sorts a ledger by (date, amount), keeps a running total of |amount| per
    (currency, platform, type) and stamps every row with an `_id` built by
    `generate_id_col` from the row's fields and that running total. */
module Identity {
  import opened Wrappers
  import opened Text
  import opened Sums
  import opened Seqs
  import opened Sorting
  import opened DocumentStore
  import Calendar

  const Separator: string := " - "

  // ---------------------------------------------------------------------------
  // generate_id_col
  // ---------------------------------------------------------------------------

  /** `generate_id_col(time_col, *args)` with each argument already passed
      through `str`: `"<epoch seconds> - a1 - a2 - …"`. */
  function GenerateId(t: real, args: seq<string>): string {
    IntToString(Calendar.TruncToInt(t)) + Separator + Join(args, Separator)
  }

  /** The id opens with the timestamp truncated to whole seconds, which reads
      back up to the first space; with no arguments the id is `"<ts> - "`. */
  lemma GenerateIdTimestamp(t: real, args: seq<string>)
    ensures var id := GenerateId(t, args);
      && Find(id, " ").Some?
      && ParseInt(id[..Find(id, " ").value]) == Some(Calendar.TruncToInt(t))
    ensures args == [] ==> GenerateId(t, args) == IntToString(Calendar.TruncToInt(t)) + " - "
  {
    var ts := IntToString(Calendar.TruncToInt(t));
    var id := GenerateId(t, args);
    assert id == ts + " " + ("- " + Join(args, Separator));
    FirstSpaceAfter(ts, "- " + Join(args, Separator));
    assert id[..|ts|] == ts;
    IntToStringRoundTrip(Calendar.TruncToInt(t));
  }

  // ---------------------------------------------------------------------------
  // The fields balance_calc reads
  // ---------------------------------------------------------------------------

  /** A cell of a text column (`type`, currency, `platform`) as `str` and
      `groupby` see it: a string, a number, or NaN. */
  datatype Key = Text(s: string) | Number(x: real) | Missing

  /** The columns of one ledger row that take part in its identity; an
      amount of `None` is NaN. */
  datatype Entry = Entry(date: real, kind: Key, amount: Option<real>, ccy: Key, platform: Key)

  /** The row's value in column `col`; a column the row lacks is NaN there. */
  function Cell(row: Doc, col: string): Value {
    if col in row then row[col] else Null
  }

  /** A text cell; a timestamp there is not read. */
  function ReadKey(v: Value): Option<Key> {
    match v
    case Str(s) => Some(Text(s))
    case Num(x) => Some(Number(x))
    case Null => Some(Missing)
    case Time(_) => None
  }

  /** An amount cell; `abs` raises on text and on timestamps. */
  function ReadAmount(v: Value): Option<Option<real>> {
    match v
    case Num(x) => Some(Some(x))
    case Null => Some(None)
    case _ => None
  }

  /** The row's `date`, `type`, amount, currency and `platform`. It fails
      only where `balance_calc` raises: a date that is not a timestamp
      (`NaT.timestamp()`), an amount that is not a number or NaN, a
      timestamp in a text column. */
  function ReadEntry(row: Doc, amountCol: string, ccyCol: string): (r: Option<Entry>)
    ensures r.Some? <==>
      && Cell(row, "date").Time? && ReadAmount(Cell(row, amountCol)).Some?
      && !Cell(row, "type").Time? && !Cell(row, ccyCol).Time? && !Cell(row, "platform").Time?
  {
    var date, kind, amount := Cell(row, "date"), ReadKey(Cell(row, "type")), ReadAmount(Cell(row, amountCol));
    var ccy, platform := ReadKey(Cell(row, ccyCol)), ReadKey(Cell(row, "platform"));
    if date.Time? && kind.Some? && amount.Some? && ccy.Some? && platform.Some?
    then Some(Entry(date.t, kind.value, amount.value, ccy.value, platform.value))
    else None
  }

  /** Ascending order of one key column, NaN last (`na_position='last'`). */
  predicate AmountLe(a: Option<real>, b: Option<real>) {
    b.None? || (a.Some? && a.value <= b.value)
  }

  /** `sort_values(by=['date', amount], ascending=[True, True])`. */
  predicate EntryLe(a: Entry, b: Entry) {
    a.date < b.date || (a.date == b.date && AmountLe(a.amount, b.amount))
  }

  lemma EntryLeTotalPreorder()
    ensures TotalPreorder(EntryLe)
  {
  }

  /** Two entries tie in the sort exactly when date and amount agree, NaN
      tying only with NaN. */
  lemma EntryTie(a: Entry, b: Entry)
    ensures EntryLe(a, b) && EntryLe(b, a) <==> a.date == b.date && a.amount == b.amount
  {
  }

  /** The `groupby([ccy_col, 'platform', 'type'])` key. */
  function GroupOf(e: Entry): (Key, Key, Key) {
    (e.ccy, e.platform, e.kind)
  }

  /** `groupby` drops the rows with NaN in a key column: they belong to no group. */
  predicate Grouped(e: Entry) {
    !e.ccy.Missing? && !e.platform.Missing? && !e.kind.Missing?
  }

  /** `abs(amount)`, a NaN counting for nothing in `cumsum`. */
  function AbsAmount(e: Entry): real {
    match e.amount
    case None => 0.0
    case Some(x) => if x < 0.0 then -x else x
  }

  /** The balance a row gets from its group's sums; NaN for a row outside
      every group or with a NaN amount. */
  function GroupBalance(e: Entry, total: real): Option<real> {
    if Grouped(e) && e.amount.Some? then Some(total) else None
  }

  /** `balance_by_cat` of row `i`: the running |amount| total of its group. */
  function Balance(es: seq<Entry>, i: int): Option<real>
    requires 0 <= i < |es|
  {
    GroupBalance(es[i], GroupTotal(es[..i + 1], GroupOf(es[i]), GroupOf, AbsAmount))
  }

  /** `balance_by_cat` as pandas computes it: one pass of running sums per
      group, then NaN where the group or the amount is NaN. */
  method BalanceByCat(es: seq<Entry>) returns (r: seq<Option<real>>)
    ensures |r| == |es|
    ensures forall i :: 0 <= i < |es| ==> r[i] == Balance(es, i)
  {
    var sums := CumSumByGroup(es, GroupOf, AbsAmount);
    r := seq(|es|, i requires 0 <= i < |es| => GroupBalance(es[i], sums[i]));
  }

  /** `str` of a text cell; NaN prints as `nan`. */
  function Render(k: Key, fmt: real -> string): string {
    match k
    case Text(s) => s
    case Number(x) => fmt(x)
    case Missing => "nan"
  }

  /** `str` of a number cell; `fmt` is Python's `str` on floats. */
  function RenderNum(o: Option<real>, fmt: real -> string): string {
    if o.Some? then fmt(o.value) else "nan"
  }

  /** The id of a row with balance `bal`. */
  function IdOf(e: Entry, bal: Option<real>, fmt: real -> string): string {
    GenerateId(e.date, [Render(e.kind, fmt), RenderNum(e.amount, fmt), Render(e.ccy, fmt), Render(e.platform, fmt), RenderNum(bal, fmt)])
  }

  /** The ids of a sorted ledger, in order. */
  function Ids(es: seq<Entry>, fmt: real -> string): (r: seq<string>)
    ensures |r| == |es|
  {
    seq(|es|, i requires 0 <= i < |es| => IdOf(es[i], Balance(es, i), fmt))
  }

  // ---------------------------------------------------------------------------
  // balance_calc
  // ---------------------------------------------------------------------------

  datatype CalcError =
    | NoColumn(name: string)       // `KeyError`: no row has the column
    | MalformedRow(index: nat)     // `abs`, `timestamp()` or `str` raises on the row

  /** A ledger row together with its identity fields. */
  datatype Row = Row(entry: Entry, doc: Doc)

  predicate RowLe(a: Row, b: Row) {
    EntryLe(a.entry, b.entry)
  }

  function EntryOfRow(r: Row): Entry {
    r.entry
  }

  function ToRow(doc: Doc, amountCol: string, ccyCol: string): Row {
    Row(ReadEntry(doc, amountCol, ccyCol).GetOr(Entry(0.0, Missing, None, Missing, Missing)), doc)
  }

  /** Some row of the frame has column `col`. */
  predicate HasColumnIn(rows: seq<Doc>, col: string) {
    exists i :: 0 <= i < |rows| && col in rows[i]
  }

  /** The columns `balance_calc` selects, in the order it first touches them. */
  function IdentityColumns(amountCol: string, ccyCol: string): seq<string> {
    ["date", amountCol, ccyCol, "platform", "type"]
  }

  /** The first of `cols` that no row has. */
  function FirstMissing(rows: seq<Doc>, cols: seq<string>): (r: Option<string>)
    ensures r.None? <==> forall j :: 0 <= j < |cols| ==> HasColumnIn(rows, cols[j])
    ensures r.Some? ==> r.value in cols && !HasColumnIn(rows, r.value)
    decreases |cols|
  {
    if |cols| == 0 then None
    else if !HasColumnIn(rows, cols[0]) then Some(cols[0])
    else
      var rest := FirstMissing(rows, cols[1..]);
      assert forall j :: 1 <= j < |cols| ==> cols[j] == cols[1..][j - 1];
      rest
  }

  /** The frame has every identity column, unless it has no rows at all. */
  predicate ColumnsPresent(rows: seq<Doc>, amountCol: string, ccyCol: string) {
    |rows| == 0 || forall j :: 0 <= j < 5 ==> HasColumnIn(rows, IdentityColumns(amountCol, ccyCol)[j])
  }

  /** The first row whose identity fields cannot be read. */
  function FirstMalformed(rows: seq<Doc>, amountCol: string, ccyCol: string, from: nat): (r: Option<nat>)
    requires from <= |rows|
    ensures r.None? ==> forall i :: from <= i < |rows| ==> ReadEntry(rows[i], amountCol, ccyCol).Some?
    ensures r.Some? ==> from <= r.value < |rows| && ReadEntry(rows[r.value], amountCol, ccyCol).None?
    decreases |rows| - from
  {
    if from == |rows| then None
    else if ReadEntry(rows[from], amountCol, ccyCol).None? then Some(from)
    else FirstMalformed(rows, amountCol, ccyCol, from + 1)
  }

  /** `balance_calc` runs to the end on the frame. */
  predicate Readable(rows: seq<Doc>, amountCol: string, ccyCol: string) {
    && ColumnsPresent(rows, amountCol, ccyCol)
    && forall i :: 0 <= i < |rows| ==> ReadEntry(rows[i], amountCol, ccyCol).Some?
  }

  /** The document without its `_id`: what a row is apart from its stamp. */
  function Unstamped(d: Doc): Doc {
    d - {IdField}
  }

  function StampOf(d: Doc): Value {
    if IdField in d then d[IdField] else Null
  }

  /** The rows sorted by (date, amount), ties in input order. */
  function SortedRows(rows: seq<Doc>, amountCol: string, ccyCol: string): seq<Row> {
    SortBy(Project(rows, d => ToRow(d, amountCol, ccyCol)), RowLe)
  }

  /** Every sorted row stamped with its id. */
  function Stamp(sorted: seq<Row>, fmt: real -> string): (out: seq<Doc>)
    ensures |out| == |sorted|
    ensures forall i :: 0 <= i < |out| ==>
      out[i] == sorted[i].doc[IdField := Str(Ids(Project(sorted, EntryOfRow), fmt)[i])]
  {
    var ids := Ids(Project(sorted, EntryOfRow), fmt);
    seq(|sorted|, i requires 0 <= i < |sorted| => sorted[i].doc[IdField := Str(ids[i])])
  }

  /** `balance_calc(df, amount_col, ccy_col)`: the rows sorted by date then
      amount, each stamped with the id of its entry and its group balance.
      It fails on a column no row has and on a row it cannot read; rows
      with NaN cells are stamped like any other. */
  function BalanceCalc(rows: seq<Doc>, amountCol: string, ccyCol: string, fmt: real -> string)
    : (r: Result<seq<Doc>, CalcError>)
    ensures r.Success? <==> Readable(rows, amountCol, ccyCol)
    ensures r.Failure? && r.error.NoColumn? ==> |rows| > 0 && !HasColumnIn(rows, r.error.name)
    ensures r.Failure? && r.error.MalformedRow? ==>
      r.error.index < |rows| && ReadEntry(rows[r.error.index], amountCol, ccyCol).None?
    ensures r.Success? ==> |r.value| == |rows|
    ensures r.Success? ==> forall i :: 0 <= i < |r.value| ==> IdField in r.value[i]
    ensures r.Success? ==> multiset(Project(r.value, Unstamped)) == multiset(Project(rows, Unstamped))
  {
    var missing := if |rows| == 0 then None else FirstMissing(rows, IdentityColumns(amountCol, ccyCol));
    var bad := FirstMalformed(rows, amountCol, ccyCol, 0);
    if missing.Some? then Failure(NoColumn(missing.value))
    else if bad.Some? then Failure(MalformedRow(bad.value))
    else
      var out := Stamp(SortedRows(rows, amountCol, ccyCol), fmt);
      StampedRearranges(rows, amountCol, ccyCol, fmt);
      Success(out)
  }

  lemma StampedRearranges(rows: seq<Doc>, amountCol: string, ccyCol: string, fmt: real -> string)
    ensures multiset(Project(Stamp(SortedRows(rows, amountCol, ccyCol), fmt), Unstamped))
         == multiset(Project(rows, Unstamped))
  {
    var toRow := d => ToRow(d, amountCol, ccyCol);
    var parsed := Project(rows, toRow);
    var sorted := SortBy(parsed, RowLe);
    var out := Stamp(sorted, fmt);
    var docOf := (r: Row) => Unstamped(r.doc);
    assert Project(out, Unstamped) == Project(sorted, docOf) by {
      forall i | 0 <= i < |out|
        ensures Unstamped(out[i]) == docOf(sorted[i])
      {
      }
    }
    ProjectMultiset(sorted, parsed, docOf);
    assert Project(parsed, docOf) == Project(rows, Unstamped);
  }

  /** The sorted ledger entries of a successful `balance_calc`. */
  function SortedEntries(rows: seq<Doc>, amountCol: string, ccyCol: string): seq<Entry> {
    Project(SortedRows(rows, amountCol, ccyCol), EntryOfRow)
  }

  lemma RowLeTotalPreorder()
    ensures TotalPreorder(RowLe)
  {
  }

  lemma SortedEntriesSorted(rows: seq<Doc>, amountCol: string, ccyCol: string)
    ensures Sorted(SortedEntries(rows, amountCol, ccyCol), EntryLe)
  {
    var sorted := SortedRows(rows, amountCol, ccyCol);
    RowLeTotalPreorder();
    SortBySorted(Project(rows, d => ToRow(d, amountCol, ccyCol)), RowLe);
    var es := SortedEntries(rows, amountCol, ccyCol);
    forall i, j | 0 <= i < j < |es| ensures EntryLe(es[i], es[j]) {
      assert RowLe(sorted[i], sorted[j]);
    }
  }

  /** Every sorted row still reads as the entry it was sorted by. */
  lemma SortedRowsRead(rows: seq<Doc>, amountCol: string, ccyCol: string, i: int)
    requires forall j :: 0 <= j < |rows| ==> ReadEntry(rows[j], amountCol, ccyCol).Some?
    requires 0 <= i < |SortedRows(rows, amountCol, ccyCol)|
    ensures var r := SortedRows(rows, amountCol, ccyCol)[i];
      ReadEntry(r.doc, amountCol, ccyCol) == Some(r.entry)
  {
    var toRow := d => ToRow(d, amountCol, ccyCol);
    var parsed := Project(rows, toRow);
    var sorted := SortedRows(rows, amountCol, ccyCol);
    assert sorted[i] in multiset(parsed);
    var j :| 0 <= j < |parsed| && parsed[j] == sorted[i];
    assert parsed[j] == toRow(rows[j]);
  }

  /** What `balance_calc` promises about each output row: the rows come out
      sorted by (date, amount); row `i` keeps every column of the input row
      it came from and gains `_id`, built from its own fields and the
      running |amount| total of its (currency, platform, type) group. */
  lemma BalanceCalcRows(rows: seq<Doc>, amountCol: string, ccyCol: string, fmt: real -> string)
    requires BalanceCalc(rows, amountCol, ccyCol, fmt).Success?
    requires amountCol != IdField && ccyCol != IdField
    ensures var out := BalanceCalc(rows, amountCol, ccyCol, fmt).value;
      var es := SortedEntries(rows, amountCol, ccyCol);
      && |es| == |out|
      && Sorted(es, EntryLe)
      && (forall i :: 0 <= i < |out| ==> ReadEntry(out[i], amountCol, ccyCol) == Some(es[i]))
      && (forall i :: 0 <= i < |out| ==> StampOf(out[i]) == Str(Ids(es, fmt)[i]))
      && (forall i :: 0 <= i < |out| ==> StampOf(out[i]) == Str(IdOf(es[i], Balance(es, i), fmt)))
  {
    BalanceCalcStamps(rows, amountCol, ccyCol, fmt);
    SortedEntriesSorted(rows, amountCol, ccyCol);
    var out := Stamp(SortedRows(rows, amountCol, ccyCol), fmt);
    forall i | 0 <= i < |out|
      ensures ReadEntry(out[i], amountCol, ccyCol) == Some(SortedEntries(rows, amountCol, ccyCol)[i])
    {
      StampedRowRead(rows, amountCol, ccyCol, fmt, i);
    }
  }

  /** A successful `balance_calc` is the stamped sorted ledger. */
  lemma BalanceCalcStamps(rows: seq<Doc>, amountCol: string, ccyCol: string, fmt: real -> string)
    requires BalanceCalc(rows, amountCol, ccyCol, fmt).Success?
    ensures BalanceCalc(rows, amountCol, ccyCol, fmt).value == Stamp(SortedRows(rows, amountCol, ccyCol), fmt)
  {
  }

  /** Stamping a row does not change the entry it reads as. */
  lemma StampedRowRead(rows: seq<Doc>, amountCol: string, ccyCol: string, fmt: real -> string, i: int)
    requires forall j :: 0 <= j < |rows| ==> ReadEntry(rows[j], amountCol, ccyCol).Some?
    requires amountCol != IdField && ccyCol != IdField
    requires 0 <= i < |SortedRows(rows, amountCol, ccyCol)|
    ensures ReadEntry(Stamp(SortedRows(rows, amountCol, ccyCol), fmt)[i], amountCol, ccyCol)
         == Some(SortedEntries(rows, amountCol, ccyCol)[i])
  {
    var sorted := SortedRows(rows, amountCol, ccyCol);
    SortedRowsRead(rows, amountCol, ccyCol, i);
    assert SortedEntries(rows, amountCol, ccyCol)[i] == sorted[i].entry;
  }

  // ---------------------------------------------------------------------------
  // Properties of the running balance and of the ids
  // ---------------------------------------------------------------------------

  /** Within a group the balance never decreases, and it strictly increases
      at every row with a non-zero amount. */
  lemma BalanceMonotone(es: seq<Entry>, i: int, j: int)
    requires 0 <= i < j < |es| && GroupOf(es[i]) == GroupOf(es[j])
    requires Balance(es, i).Some? && Balance(es, j).Some?
    ensures Balance(es, i).value <= Balance(es, j).value
    ensures es[j].amount.value != 0.0 ==> Balance(es, i).value < Balance(es, j).value
  {
    var g := GroupOf(es[i]);
    var mid := es[i + 1..j];
    assert es[..j + 1] == es[..i + 1] + mid + [es[j]];
    GroupTotalConcat(es[..i + 1] + mid, [es[j]], g, GroupOf, AbsAmount);
    GroupTotalConcat(es[..i + 1], mid, g, GroupOf, AbsAmount);
    GroupTotalNonNegative(mid, g, GroupOf, AbsAmount);
    GroupTotalSingle(es[j], g, GroupOf, AbsAmount);
  }

  /** A row outside every group, or with a NaN amount, has a NaN balance;
      a grouped row with an amount has a balance of at least |amount|.
      NaN amounts add nothing to the later balances of their group. */
  lemma BalanceNan(es: seq<Entry>, i: int)
    requires 0 <= i < |es|
    ensures Balance(es, i).None? <==> !Grouped(es[i]) || es[i].amount.None?
    ensures Balance(es, i).Some? ==> Balance(es, i).value >= AbsAmount(es[i])
    ensures es[i].amount.None? ==> AbsAmount(es[i]) == 0.0
  {
    var g := GroupOf(es[i]);
    assert es[..i + 1] == es[..i] + [es[i]];
    GroupTotalConcat(es[..i], [es[i]], g, GroupOf, AbsAmount);
    GroupTotalNonNegative(es[..i], g, GroupOf, AbsAmount);
    GroupTotalSingle(es[i], g, GroupOf, AbsAmount);
  }

  /** The balance is the last space-free word of the id. */
  lemma IdEndsWithBalance(e: Entry, bal: Option<real>, fmt: real -> string)
    requires NoSpace(RenderNum(bal, fmt))
    ensures LastWord(IdOf(e, bal, fmt)) == RenderNum(bal, fmt)
    ensures bal.None? ==> LastWord(IdOf(e, bal, fmt)) == "nan"
  {
    var front := [Render(e.kind, fmt), RenderNum(e.amount, fmt), Render(e.ccy, fmt), Render(e.platform, fmt)];
    var last := RenderNum(bal, fmt);
    assert [Render(e.kind, fmt), RenderNum(e.amount, fmt), Render(e.ccy, fmt), Render(e.platform, fmt), last] == front + [last];
    JoinSnoc(front, last, Separator);
    var ts := IntToString(Calendar.TruncToInt(e.date));
    assert IdOf(e, bal, fmt) == (ts + Separator + Join(front, Separator) + " -") + " " + last;
    LastWordOf(ts + Separator + Join(front, Separator) + " -", last);
  }

  /** Two rows of one group, the later with a non-zero amount, never share an
      id, provided float rendering is injective, space-free and never `nan`. */
  lemma IdsDistinctInGroup(es: seq<Entry>, i: int, j: int, fmt: real -> string)
    requires forall a, b :: fmt(a) == fmt(b) ==> a == b
    requires forall a :: NoSpace(fmt(a)) && fmt(a) != "nan"
    requires 0 <= i < j < |es| && GroupOf(es[i]) == GroupOf(es[j]) && Grouped(es[j])
    requires es[j].amount.Some? && es[j].amount.value != 0.0
    ensures Ids(es, fmt)[i] != Ids(es, fmt)[j]
  {
    BalanceNan(es, i);
    BalanceNan(es, j);
    if Balance(es, i).Some? {
      BalanceMonotone(es, i, j);
    }
    assert NoSpace("nan");
    IdEndsWithBalance(es[i], Balance(es, i), fmt);
    IdEndsWithBalance(es[j], Balance(es, j), fmt);
  }

  /** The last position where `x` occurs in `s`. */
  function LastIndexOf<T(==)>(s: seq<T>, x: T): (k: nat)
    requires x in s
    ensures k < |s| && s[k] == x
    ensures forall j :: k < j < |s| ==> s[j] != x
    decreases |s|
  {
    if s[|s| - 1] == x then |s| - 1 else LastIndexOf(s[..|s| - 1], x)
  }

  lemma IdsPrefix(es: seq<Entry>, n: int, fmt: real -> string)
    requires 0 <= n <= |es|
    ensures Ids(es[..n], fmt) == Ids(es, fmt)[..n]
  {
    forall i | 0 <= i < n
      ensures Ids(es[..n], fmt)[i] == Ids(es, fmt)[i]
    {
      assert es[..n][..i + 1] == es[..i + 1];
    }
  }

  /** Past an element outside their group, later balances do not see it. */
  lemma BalanceSkips(es: seq<Entry>, k: int, i: int)
    requires 0 <= k < i < |es| && GroupOf(es[i]) != GroupOf(es[k])
    ensures Balance(es, i) == Balance(es[..k] + es[k + 1..], i - 1)
  {
    var x := es[k];
    var g := GroupOf(es[i]);
    var rest := es[..k] + es[k + 1..];
    assert rest[i - 1] == es[i];
    assert es[..i + 1] == es[..k] + [x] + es[k + 1..i + 1];
    assert rest[..i] == es[..k] + es[k + 1..i + 1];
    GroupTotalConcat(es[..k] + [x], es[k + 1..i + 1], g, GroupOf, AbsAmount);
    GroupTotalConcat(es[..k], [x], g, GroupOf, AbsAmount);
    GroupTotalConcat(es[..k], es[k + 1..i + 1], g, GroupOf, AbsAmount);
    GroupTotalSingle(x, g, GroupOf, AbsAmount);
  }

  /** The balance a row would get as the last of its group in `es`. */
  function TotalBalance(es: seq<Entry>, e: Entry): Option<real> {
    GroupBalance(e, GroupTotal(es, GroupOf(e), GroupOf, AbsAmount))
  }

  /** When nothing after `k` shares its group, its balance is the group total. */
  lemma BalanceIsTotal(es: seq<Entry>, k: int)
    requires 0 <= k < |es|
    requires forall j :: k < j < |es| ==> GroupOf(es[j]) != GroupOf(es[k])
    ensures Balance(es, k) == TotalBalance(es, es[k])
  {
    var g := GroupOf(es[k]);
    assert es == es[..k + 1] + es[k + 1..];
    GroupTotalConcat(es[..k + 1], es[k + 1..], g, GroupOf, AbsAmount);
    GroupTotalOutside(es[k + 1..], g, GroupOf, AbsAmount);
  }

  /** Taking out an element that no later element shares a group with: the
      ids of the others are unchanged and keep their order, and its own
      balance is its group's total. */
  lemma IdsBefore(es: seq<Entry>, k: int, i: int, fmt: real -> string)
    requires 0 <= i < k < |es|
    ensures Ids(es, fmt)[i] == Ids(es[..k] + es[k + 1..], fmt)[i]
  {
    var rest := es[..k] + es[k + 1..];
    assert rest[..i + 1] == es[..i + 1];
  }

  lemma IdsAfter(es: seq<Entry>, k: int, i: int, fmt: real -> string)
    requires 0 <= k < i < |es| && GroupOf(es[i]) != GroupOf(es[k])
    ensures Ids(es, fmt)[i] == Ids(es[..k] + es[k + 1..], fmt)[i - 1]
  {
    var rest := es[..k] + es[k + 1..];
    BalanceSkips(es, k, i);
    assert rest[i - 1] == es[i];
    assert Ids(rest, fmt)[i - 1] == IdOf(rest[i - 1], Balance(rest, i - 1), fmt);
  }

  lemma IdsSplice(es: seq<Entry>, k: int, fmt: real -> string)
    requires 0 <= k < |es|
    requires forall j :: k < j < |es| ==> GroupOf(es[j]) != GroupOf(es[k])
    ensures var rids := Ids(es[..k] + es[k + 1..], fmt);
      Ids(es, fmt) == rids[..k] + [IdOf(es[k], TotalBalance(es, es[k]), fmt)] + rids[k..]
  {
    var ids, rids := Ids(es, fmt), Ids(es[..k] + es[k + 1..], fmt);
    var own := IdOf(es[k], TotalBalance(es, es[k]), fmt);
    BalanceIsTotal(es, k);
    assert ids[k] == own;
    var spliced := rids[..k] + [own] + rids[k..];
    forall i | 0 <= i < |ids|
      ensures spliced[i] == ids[i]
    {
      if i < k {
        IdsBefore(es, k, i, fmt);
      } else if k < i {
        IdsAfter(es, k, i, fmt);
      }
    }
  }

  lemma IdsRemove(es: seq<Entry>, k: int, fmt: real -> string)
    requires 0 <= k < |es|
    requires forall j :: k < j < |es| ==> GroupOf(es[j]) != GroupOf(es[k])
    ensures var rest := es[..k] + es[k + 1..];
      multiset(Ids(es, fmt)) == multiset(Ids(rest, fmt))
        + multiset{IdOf(es[k], TotalBalance(es, es[k]), fmt)}
  {
    var rids := Ids(es[..k] + es[k + 1..], fmt);
    var own := IdOf(es[k], TotalBalance(es, es[k]), fmt);
    IdsSplice(es, k, fmt);
    MultisetSplice(rids[..k], own, rids[k..]);
    assert rids[..k] + rids[k..] == rids;
  }

  /** In a sorted `e2` holding the greatest entry `x` of `e1`, nothing after
      the last copy of `x` shares its group: such an entry would tie with
      `x` on date and amount and so be `x`. */
  lemma LaterOutsideGroup(e1: seq<Entry>, e2: seq<Entry>, k: int)
    requires Sorted(e1, EntryLe) && Sorted(e2, EntryLe)
    requires multiset(e1) == multiset(e2) && |e1| > 0
    requires 0 <= k < |e2| && e2[k] == e1[|e1| - 1]
    requires forall j :: k < j < |e2| ==> e2[j] != e2[k]
    ensures forall j :: k < j < |e2| ==> GroupOf(e2[j]) != GroupOf(e2[k])
  {
    var n := |e1| - 1;
    forall j | k < j < |e2|
      ensures GroupOf(e2[j]) != GroupOf(e2[k])
    {
      assert e2[j] in multiset(e1);
      var m :| 0 <= m < |e1| && e1[m] == e2[j];
      if m < n { assert EntryLe(e1[m], e1[n]); }
      assert EntryLe(e2[k], e2[j]);
      EntryTie(e2[k], e2[j]);
    }
  }

  /** The ids of `e1` are those of its prefix plus the last one, whose
      balance is its group's total. */
  lemma IdsDropLast(e1: seq<Entry>, fmt: real -> string)
    requires |e1| > 0
    ensures var n := |e1| - 1;
      multiset(Ids(e1, fmt)) == multiset(Ids(e1[..n], fmt))
        + multiset{IdOf(e1[n], TotalBalance(e1, e1[n]), fmt)}
  {
    var n := |e1| - 1;
    IdsPrefix(e1, n, fmt);
    assert Ids(e1, fmt) == Ids(e1, fmt)[..n] + [Ids(e1, fmt)[n]];
    assert e1[..n + 1] == e1;
  }

  lemma RestsAgree<T>(e1: seq<T>, e2: seq<T>, k: int)
    requires multiset(e1) == multiset(e2) && |e1| > 0
    requires 0 <= k < |e2| && e2[k] == e1[|e1| - 1]
    ensures multiset(e1[..|e1| - 1]) == multiset(e2[..k] + e2[k + 1..])
  {
    var n := |e1| - 1;
    assert e1 == e1[..n] + [e1[n]];
    assert multiset(e1[..n]) == multiset(e1) - multiset{e1[n]};
    assert e2 == e2[..k] + [e2[k]] + e2[k + 1..];
    assert multiset(e2[..k] + e2[k + 1..]) == multiset(e2) - multiset{e2[k]};
  }

  /** Any two sorted arrangements of the same entries produce the same
      multiset of ids: tied rows of one group are identical entries, and
      ties across groups do not affect each other's balances. */
  lemma {:induction false} SortedIdsAgree(e1: seq<Entry>, e2: seq<Entry>, fmt: real -> string)
    requires Sorted(e1, EntryLe) && Sorted(e2, EntryLe)
    requires multiset(e1) == multiset(e2)
    ensures multiset(Ids(e1, fmt)) == multiset(Ids(e2, fmt))
    decreases |e1|
  {
    if |e1| == 0 {
      assert |e2| == |multiset(e2)| == 0;
    } else {
      var n := |e1| - 1;
      var x := e1[n];
      assert x in multiset(e2);
      var k := LastIndexOf(e2, x);
      var rest := e2[..k] + e2[k + 1..];
      LaterOutsideGroup(e1, e2, k);
      IdsRemove(e2, k, fmt);
      IdsDropLast(e1, fmt);
      GroupTotalPermutation(e1, e2, GroupOf(x), GroupOf, AbsAmount);
      RestsAgree(e1, e2, k);
      SortedRemove(e2, k, EntryLe);
      assert Sorted(e1[..n], EntryLe);
      SortedIdsAgree(e1[..n], rest, fmt);
    }
  }

  /** The multiset of ids `balance_calc` generates does not depend on the
      order of the input rows. */
  lemma BalanceCalcOrderFree(rows1: seq<Doc>, rows2: seq<Doc>, amountCol: string, ccyCol: string, fmt: real -> string)
    requires multiset(rows1) == multiset(rows2)
    requires BalanceCalc(rows1, amountCol, ccyCol, fmt).Success?
    requires amountCol != IdField && ccyCol != IdField
    ensures BalanceCalc(rows2, amountCol, ccyCol, fmt).Success?
    ensures multiset(Project(BalanceCalc(rows1, amountCol, ccyCol, fmt).value, StampOf))
         == multiset(Project(BalanceCalc(rows2, amountCol, ccyCol, fmt).value, StampOf))
  {
    forall i | 0 <= i < |rows2|
      ensures ReadEntry(rows2[i], amountCol, ccyCol).Some?
    {
      assert rows2[i] in multiset(rows1);
    }
    ColumnsPermutation(rows1, rows2, amountCol, ccyCol);
    BalanceCalcStamps(rows1, amountCol, ccyCol, fmt);
    BalanceCalcStamps(rows2, amountCol, ccyCol, fmt);
    var sorted1 := SortedRows(rows1, amountCol, ccyCol);
    var sorted2 := SortedRows(rows2, amountCol, ccyCol);
    ProjectMultiset(rows1, rows2, d => ToRow(d, amountCol, ccyCol));
    ProjectMultiset(sorted1, sorted2, EntryOfRow);
    SortedEntriesSorted(rows1, amountCol, ccyCol);
    SortedEntriesSorted(rows2, amountCol, ccyCol);
    SortedIdsAgree(SortedEntries(rows1, amountCol, ccyCol), SortedEntries(rows2, amountCol, ccyCol), fmt);
    StampsMultiset(sorted1, sorted2, fmt);
  }

  /** Whether the frame has its identity columns does not depend on row order. */
  lemma ColumnsPermutation(rows1: seq<Doc>, rows2: seq<Doc>, amountCol: string, ccyCol: string)
    requires multiset(rows1) == multiset(rows2)
    requires ColumnsPresent(rows1, amountCol, ccyCol)
    ensures ColumnsPresent(rows2, amountCol, ccyCol)
  {
    assert |rows1| == |multiset(rows1)| == |rows2|;
    forall j | 0 <= j < 5 && |rows2| > 0
      ensures HasColumnIn(rows2, IdentityColumns(amountCol, ccyCol)[j])
    {
      var col := IdentityColumns(amountCol, ccyCol)[j];
      var i :| 0 <= i < |rows1| && col in rows1[i];
      assert rows1[i] in multiset(rows2);
      var k :| 0 <= k < |rows2| && rows2[k] == rows1[i];
    }
  }

  /** Stamped rows carry exactly their ids as stamps, so equal multisets of
      ids give equal multisets of stamps. */
  lemma StampsMultiset(s1: seq<Row>, s2: seq<Row>, fmt: real -> string)
    requires multiset(Ids(Project(s1, EntryOfRow), fmt)) == multiset(Ids(Project(s2, EntryOfRow), fmt))
    ensures multiset(Project(Stamp(s1, fmt), StampOf)) == multiset(Project(Stamp(s2, fmt), StampOf))
  {
    var ids1, ids2 := Ids(Project(s1, EntryOfRow), fmt), Ids(Project(s2, EntryOfRow), fmt);
    var stamp := (id: string) => Str(id);
    ProjectMultiset(ids1, ids2, stamp);
    assert Project(Stamp(s1, fmt), StampOf) == Project(ids1, stamp);
    assert Project(Stamp(s2, fmt), StampOf) == Project(ids2, stamp);
  }
}
