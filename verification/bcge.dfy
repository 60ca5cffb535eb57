/** The BCGE bank-statement adapter (`bcge_data_extract.py`): the row
    repair `clean_list`, the cash-flow rules of `cash_flow_prep`, and the
    reconciliation check of `bcge_data_validation_test.py`. */
module Bcge {
  import opened Wrappers
  import opened Text
  import opened Seqs
  import opened Sums
  import opened Adapter
  import Calendar

  /** One cleaned statement line. `out` is already negated by
      `clean_dataframe`, so money leaving the account is negative; `inflow`
      is the `in` column; `date` is the accounting date. */
  datatype StatementRow = StatementRow(description: string, date: real, out: real, inflow: real, balance: real)

  const Outs: StatementRow -> real := (r: StatementRow) => r.out
  const Ins: StatementRow -> real := (r: StatementRow) => r.inflow

  // ---------------------------------------------------------------------------
  // clean_list
  // ---------------------------------------------------------------------------

  /** A character `\w` matches (ASCII letters, digits and `_`). */
  predicate IsWordChar(c: char) {
    IsDigit(c) || 'a' <= c <= 'z' || 'A' <= c <= 'Z' || c == '_'
  }

  /** `re.compile(r'\b\d{2}\.\d{2}\.\d{2}\b').match(v)`: the value opens with
      a `dd.dd.dd` date that no word character follows. */
  predicate StartsWithDate(v: string) {
    && |v| >= 8
    && IsDigit(v[0]) && IsDigit(v[1]) && v[2] == '.'
    && IsDigit(v[3]) && IsDigit(v[4]) && v[5] == '.'
    && IsDigit(v[6]) && IsDigit(v[7])
    && (|v| == 8 || !IsWordChar(v[8]))
  }

  const NonBlank: string -> bool := (v: string) => !IsBlank(v)

  /** The values after the date: a non-blank value is kept, a blank one only
      when the value kept just before it was not blank. */
  function Squeeze(vals: seq<string>, prevBlank: bool): seq<string>
    decreases |vals|
  {
    if |vals| == 0 then []
    else if !IsBlank(vals[0]) then [vals[0]] + Squeeze(vals[1..], false)
    else if !prevBlank then [vals[0]] + Squeeze(vals[1..], true)
    else Squeeze(vals[1..], true)
  }

  /** Everything from the first date on: the date, then the squeezed rest. */
  function FromDate(vals: seq<string>): seq<string>
    decreases |vals|
  {
    if |vals| == 0 then []
    else if StartsWithDate(vals[0]) then [vals[0]] + Squeeze(vals[1..], false)
    else FromDate(vals[1..])
  }

  /** What `clean_list` returns for a non-empty row. */
  function Cleaned(lst: seq<string>): seq<string>
    requires |lst| > 0
  {
    [lst[0]] + FromDate(lst[1..])
  }

  /** `clean_list(lst)`: keep the first value, drop everything up to the first
      date, then keep the values without two blanks in a row. An empty row is
      `None`, where `lst[0]` raises `IndexError`. */
  method CleanList(lst: seq<string>) returns (r: Option<seq<string>>)
    ensures r.None? <==> |lst| == 0
    ensures r.Some? ==> r.value == Cleaned(lst)
  {
    if |lst| == 0 {
      return None;
    }
    var out := [lst[0]];
    var found := false;
    var prevBlank := false;
    var k := 1;
    while k < |lst|
      invariant 1 <= k <= |lst|
      invariant !found ==> out == [lst[0]] && Cleaned(lst) == out + FromDate(lst[k..])
      invariant found ==> Cleaned(lst) == out + Squeeze(lst[k..], prevBlank)
      decreases |lst| - k
    {
      var v := lst[k];
      assert lst[k..] == [v] + lst[k + 1..];
      if !found {
        if StartsWithDate(v) {
          found := true;
          out := out + [v];
          prevBlank := false;
        }
      } else {
        if !IsBlank(v) {
          out := out + [v];
          prevBlank := false;
        } else if !prevBlank {
          out := out + [v];
          prevBlank := true;
        }
      }
      k := k + 1;
    }
    assert lst[k..] == [];
    return Some(out);
  }

  /** The squeezed values are an order-preserving selection of the input. */
  lemma {:induction false} SqueezeSubseq(vals: seq<string>, prevBlank: bool)
    ensures IsSubseq(Squeeze(vals, prevBlank), vals)
    decreases |vals|
  {
    if |vals| > 0 {
      SqueezeSubseq(vals[1..], IsBlank(vals[0]));
      var r := Squeeze(vals, prevBlank);
      if !IsBlank(vals[0]) || !prevBlank {
        assert r[0] == vals[0] && r[1..] == Squeeze(vals[1..], IsBlank(vals[0]));
      }
    }
  }

  lemma {:induction false} FromDateSubseq(vals: seq<string>)
    ensures IsSubseq(FromDate(vals), vals)
    decreases |vals|
  {
    if |vals| > 0 {
      if StartsWithDate(vals[0]) {
        SqueezeSubseq(vals[1..], false);
        assert FromDate(vals)[1..] == Squeeze(vals[1..], false);
      } else {
        FromDateSubseq(vals[1..]);
      }
    }
  }

  /** `clean_list` only drops values: its result is a subsequence of the row. */
  lemma CleanedSubseq(lst: seq<string>)
    requires |lst| > 0
    ensures IsSubseq(Cleaned(lst), lst)
  {
    FromDateSubseq(lst[1..]);
    assert Cleaned(lst)[1..] == FromDate(lst[1..]);
    assert lst[1..] == lst[1..];
  }

  /** Without a date after the first value, only the first value survives;
      with one, the first date comes second. */
  lemma {:induction false} FromDateFirst(vals: seq<string>)
    ensures FromDate(vals) == [] <==> forall i :: 0 <= i < |vals| ==> !StartsWithDate(vals[i])
    ensures forall i :: 0 <= i < |vals| && StartsWithDate(vals[i]) && (forall j :: 0 <= j < i ==> !StartsWithDate(vals[j])) ==>
      FromDate(vals) == [vals[i]] + Squeeze(vals[i + 1..], false)
    decreases |vals|
  {
    if |vals| > 0 {
      FromDateFirst(vals[1..]);
      forall i | 0 <= i < |vals| && StartsWithDate(vals[i]) && (forall j :: 0 <= j < i ==> !StartsWithDate(vals[j]))
        ensures FromDate(vals) == [vals[i]] + Squeeze(vals[i + 1..], false)
      {
        if i > 0 {
          assert !StartsWithDate(vals[0]);
          assert vals[1..][i - 1] == vals[i];
          assert forall j :: 0 <= j < i - 1 ==> vals[1..][j] == vals[j + 1];
          assert vals[1..][i..] == vals[i + 1..];
        }
      }
      if !StartsWithDate(vals[0]) {
        assert forall i :: 1 <= i < |vals| ==> vals[i] == vals[1..][i - 1];
      }
    }
  }

  /** No two neighbouring values are blank. */
  predicate NoDoubleBlank(r: seq<string>) {
    forall j :: 0 <= j < |r| - 1 ==> !(IsBlank(r[j]) && IsBlank(r[j + 1]))
  }

  /** A blank never follows a kept blank. */
  lemma {:induction false} SqueezeNoDoubleBlank(vals: seq<string>, prevBlank: bool)
    ensures NoDoubleBlank(Squeeze(vals, prevBlank))
    ensures prevBlank && |Squeeze(vals, prevBlank)| > 0 ==> !IsBlank(Squeeze(vals, prevBlank)[0])
    decreases |vals|
  {
    if |vals| > 0 {
      var next := IsBlank(vals[0]);
      SqueezeNoDoubleBlank(vals[1..], next);
      var t := Squeeze(vals[1..], next);
      if !next || !prevBlank {
        var r := [vals[0]] + t;
        assert Squeeze(vals, prevBlank) == r;
        forall j | 0 <= j < |r| - 1
          ensures !(IsBlank(r[j]) && IsBlank(r[j + 1]))
        {
          if j > 0 {
            NoDoubleBlankAt(t, j - 1);
          } else if IsBlank(vals[0]) {
            assert next && !IsBlank(t[0]);
          }
        }
      }
    }
  }

  lemma NoDoubleBlankAt(t: seq<string>, k: int)
    requires NoDoubleBlank(t) && 0 <= k < |t| - 1
    ensures !(IsBlank(t[k]) && IsBlank(t[k + 1]))
  {
  }

  /** Every non-blank value is kept: without the blanks, the squeezed values
      and the input are the same. */
  lemma {:induction false} SqueezeKeepsValues(vals: seq<string>, prevBlank: bool)
    ensures Filter(Squeeze(vals, prevBlank), NonBlank) == Filter(vals, NonBlank)
    decreases |vals|
  {
    if |vals| > 0 {
      var next := IsBlank(vals[0]);
      SqueezeKeepsValues(vals[1..], next);
      var t := Squeeze(vals[1..], next);
      assert vals == [vals[0]] + vals[1..];
      FilterConcat([vals[0]], vals[1..], NonBlank);
      if !next || !prevBlank {
        FilterConcat([vals[0]], t, NonBlank);
      } else {
        assert Filter([vals[0]], NonBlank) == [];
      }
    }
  }

  // ---------------------------------------------------------------------------
  // Reconciliation (test_bcge_data_extract)
  // ---------------------------------------------------------------------------

  /** `round(x, 2) == 0`, on exact numbers. */
  predicate RoundsToZero(x: real) {
    -1.0 / 200.0 < x < 1.0 / 200.0
  }

  /** The check's outcome: silent, the printed warning, or `IndexError` on an
      empty statement. */
  datatype Verdict = Reconciled | Mismatch | NoRows

  /** The check's quantity: balance[0] − out[0] + Σout + Σin − balance[-1]. */
  function Discrepancy(rows: seq<StatementRow>): real
    requires |rows| > 0
  {
    rows[0].balance - rows[0].out + Total(rows, Outs) + Total(rows, Ins) - rows[|rows| - 1].balance
  }

  /** `test_bcge_data_extract(df)` as written. */
  function Check(rows: seq<StatementRow>): (v: Verdict)
    ensures v == NoRows <==> |rows| == 0
  {
    if |rows| == 0 then NoRows
    else if RoundsToZero(Discrepancy(rows)) then Reconciled
    else Mismatch
  }

  /** Every balance is the one before it plus the line's movements. */
  predicate Consistent(rows: seq<StatementRow>) {
    forall i :: 1 <= i < |rows| ==> rows[i].balance == rows[i - 1].balance + rows[i].out + rows[i].inflow
  }

  /** On a consistent statement the movements telescope: their total is the
      first line's movement plus the change of balance. */
  lemma {:induction false} Telescope(rows: seq<StatementRow>)
    requires |rows| > 0 && Consistent(rows)
    ensures Total(rows, Outs) + Total(rows, Ins) == rows[0].out + rows[0].inflow + rows[|rows| - 1].balance - rows[0].balance
    decreases |rows|
  {
    if |rows| > 1 {
      var rest := rows[1..];
      assert Consistent(rest) by {
        forall i | 1 <= i < |rest|
          ensures rest[i].balance == rest[i - 1].balance + rest[i].out + rest[i].inflow
        {
          assert rest[i] == rows[i + 1] && rest[i - 1] == rows[i];
        }
      }
      Telescope(rest);
      assert rest[0] == rows[1] && rest[|rest| - 1] == rows[|rows| - 1];
    }
  }

  /** On a consistent statement the check measures nothing but the first
      line's inflow. */
  lemma ConsistentDiscrepancy(rows: seq<StatementRow>)
    requires |rows| > 0 && Consistent(rows)
    ensures Discrepancy(rows) == rows[0].inflow
  {
    Telescope(rows);
  }

  /** As written, a consistent statement is flagged exactly when its first
      line brings money in. */
  lemma ConsistentWarning(rows: seq<StatementRow>)
    requires |rows| > 0
    ensures Consistent(rows) ==> (Check(rows) == Mismatch <==> !RoundsToZero(rows[0].inflow))
  {
    if Consistent(rows) {
      ConsistentDiscrepancy(rows);
    }
  }

  /** A consistent statement whose first line brings nothing in passes. */
  lemma ConsistentReconciles(rows: seq<StatementRow>)
    requires |rows| > 0 && Consistent(rows) && rows[0].inflow == 0.0
    ensures Check(rows) == Reconciled
  {
    ConsistentDiscrepancy(rows);
  }

  /** The verdict reads only the first line, the last balance and the column
      totals: reordering the lines in between changes nothing. */
  lemma InteriorOrderIrrelevant(rows: seq<StatementRow>, other: seq<StatementRow>)
    requires |rows| >= 2 && |other| == |rows|
    requires other[0] == rows[0] && other[|rows| - 1] == rows[|rows| - 1]
    requires multiset(other[1..|rows| - 1]) == multiset(rows[1..|rows| - 1])
    ensures Check(other) == Check(rows)
  {
    var n := |rows|;
    assert rows == [rows[0]] + rows[1..n - 1] + [rows[n - 1]];
    assert other == [rows[0]] + other[1..n - 1] + [rows[n - 1]];
    assert multiset(other) == multiset(rows);
    TotalPermutation(rows, other, Outs);
    TotalPermutation(rows, other, Ins);
  }

  /** The check as written flags a consistent one-line statement that opens
      with a deposit. */
  lemma FirstInflowFlagged()
    ensures var rows := [StatementRow("deposit", 0.0, 0.0, 100.0, 100.0)];
      Consistent(rows) && Check(rows) == Mismatch
  {
    var rows := [StatementRow("deposit", 0.0, 0.0, 100.0, 100.0)];
    assert rows[1..] == [];
    assert Discrepancy(rows) == 100.0 - 0.0 + 0.0 + 100.0 - 100.0;
  }

  /** The discrepancy with the first line's inflow taken out as well:
      opening balance + Σout + Σin − closing balance. */
  function OpeningDiscrepancy(rows: seq<StatementRow>): real
    requires |rows| > 0
  {
    rows[0].balance - rows[0].out - rows[0].inflow + Total(rows, Outs) + Total(rows, Ins) - rows[|rows| - 1].balance
  }

  /** The reconciliation check with the opening balance reconstructed from
      both of the first line's movements. */
  function CorrectedCheck(rows: seq<StatementRow>): (v: Verdict)
    ensures v == NoRows <==> |rows| == 0
  {
    if |rows| == 0 then NoRows
    else if RoundsToZero(OpeningDiscrepancy(rows)) then Reconciled
    else Mismatch
  }

  lemma ConsistentNoWarning(rows: seq<StatementRow>)
    requires |rows| > 0
    ensures Consistent(rows) ==> CorrectedCheck(rows) == Reconciled
  {
    if Consistent(rows) {
      ConsistentStatementReconciles(rows);
    }
  }

  /** Every consistent statement passes the corrected check. */
  lemma ConsistentStatementReconciles(rows: seq<StatementRow>)
    requires |rows| > 0 && Consistent(rows)
    ensures CorrectedCheck(rows) == Reconciled
  {
    Telescope(rows);
  }

  /** On two lines the corrected check passes exactly when the second balance
      follows from the first (to the cent). */
  lemma CorrectedCheckOfTwo(a: StatementRow, b: StatementRow)
    ensures CorrectedCheck([a, b]) == Reconciled <==> RoundsToZero(a.balance + b.out + b.inflow - b.balance)
  {
    var rows := [a, b];
    assert rows[1..] == [b] && [b][1..] == [];
    assert Total([b], Outs) == b.out + Total([], Outs);
    assert Total([b], Ins) == b.inflow + Total([], Ins);
    assert Total(rows, Outs) == a.out + Total([b], Outs);
    assert Total(rows, Ins) == a.inflow + Total([b], Ins);
  }

  // ---------------------------------------------------------------------------
  // cash_flow_prep
  // ---------------------------------------------------------------------------

  datatype BcgeError = EmptyStatement   // `min()` of an empty date column

  /** `amount = out + in`. */
  function Amount(r: StatementRow): real {
    r.out + r.inflow
  }

  /** `Inflow` for a non-negative amount, `Outflow` otherwise. */
  function KindOf(amount: real): string {
    if amount >= 0.0 then "Inflow" else "Outflow"
  }

  /** A BCGE cash-flow row: CHF cash, subtype `Variable`. */
  function BcgeFlow(date: real, amount: real, description: string): CashFlow {
    CashFlow(date, KindOf(amount), "Variable", amount, "BCGE", Some("CHF"), Some(description), "Cash")
  }

  function Flows(rows: seq<StatementRow>): (r: seq<CashFlow>)
    ensures |r| == |rows|
    ensures forall i :: 0 <= i < |rows| ==> r[i] == BcgeFlow(rows[i].date, Amount(rows[i]), rows[i].description)
    decreases |rows|
  {
    if |rows| == 0 then [] else [BcgeFlow(rows[0].date, Amount(rows[0]), rows[0].description)] + Flows(rows[1..])
  }

  const OpeningText: string := "Initial account balance"

  function Dates(rows: seq<StatementRow>): (r: seq<real>)
    ensures |r| == |rows|
    ensures forall i :: 0 <= i < |rows| ==> r[i] == rows[i].date
  {
    seq(|rows|, i requires 0 <= i < |rows| => rows[i].date)
  }

  /** The lines dated on `day`, in order. */
  function OnDay(rows: seq<StatementRow>, day: real): (r: seq<StatementRow>)
    ensures |r| <= |rows|
    ensures forall i :: 0 <= i < |r| ==> r[i] in rows && r[i].date == day
    ensures forall i :: 0 <= i < |rows| && rows[i].date == day ==> rows[i] in r
    decreases |rows|
  {
    if |rows| == 0 then []
    else if rows[0].date == day then [rows[0]] + OnDay(rows[1..], day)
    else OnDay(rows[1..], day)
  }

  /** The opening rows as written: one per line on the earliest date, each
      with amount |amount| + balance. */
  function OpeningRowsAsWritten(rows: seq<StatementRow>): (r: seq<CashFlow>)
    requires |rows| > 0
    ensures |r| == |OnDay(rows, Calendar.Earliest(Dates(rows)))| > 0
    ensures forall i :: 0 <= i < |r| ==>
      r[i].date == Calendar.Earliest(Dates(rows)) && r[i].description == Some(OpeningText)
  {
    var first := Calendar.Earliest(Dates(rows));
    EarliestHasLines(rows);
    OpeningFlows(OnDay(rows, first), first)
  }

  /** One opening row per line, at |amount| + balance. */
  function OpeningFlows(lines: seq<StatementRow>, day: real): (r: seq<CashFlow>)
    ensures |r| == |lines|
    ensures forall i :: 0 <= i < |lines| ==> r[i] == BcgeFlow(day, Abs(Amount(lines[i])) + lines[i].balance, OpeningText)
    decreases |lines|
  {
    if |lines| == 0 then []
    else [BcgeFlow(day, Abs(Amount(lines[0])) + lines[0].balance, OpeningText)] + OpeningFlows(lines[1..], day)
  }

  /** The earliest date has at least one line. */
  lemma EarliestHasLines(rows: seq<StatementRow>)
    requires |rows| > 0
    ensures |OnDay(rows, Calendar.Earliest(Dates(rows)))| > 0
  {
    var first := Calendar.Earliest(Dates(rows));
    var k :| 0 <= k < |rows| && Dates(rows)[k] == first;
    assert rows[k] in OnDay(rows, first);
  }

  function Abs(x: real): real {
    if x >= 0.0 then x else -x
  }

  /** Two lines on the first day give two opening balances. */
  lemma TwoOpeningRows()
    ensures |OpeningRowsAsWritten([StatementRow("rent", 0.0, -10.0, 0.0, 90.0), StatementRow("fee", 0.0, -1.0, 0.0, 89.0)])| == 2
  {
    var rows := [StatementRow("rent", 0.0, -10.0, 0.0, 90.0), StatementRow("fee", 0.0, -1.0, 0.0, 89.0)];
    assert Dates(rows) == [0.0, 0.0];
    assert Calendar.Earliest(Dates(rows)) == 0.0;
    assert rows[1..][1..] == [];
    assert OnDay(rows, 0.0) == rows;
  }

  /** An opening deposit is counted twice: the opening row of a statement
      that starts with 100 coming in on an empty account is 200. */
  lemma OpeningInflowDoubled()
    ensures OpeningRowsAsWritten([StatementRow("deposit", 0.0, 0.0, 100.0, 100.0)]) == [BcgeFlow(0.0, 200.0, OpeningText)]
  {
    var rows := [StatementRow("deposit", 0.0, 0.0, 100.0, 100.0)];
    assert Dates(rows) == [0.0];
    assert OnDay(rows, 0.0) == rows;
  }

  /** The first line on the earliest date. */
  function FirstOfEarliest(rows: seq<StatementRow>): (i: nat)
    requires |rows| > 0
    ensures i < |rows| && rows[i].date == Calendar.Earliest(Dates(rows))
    ensures forall j :: 0 <= j < i ==> rows[j].date != rows[i].date
  {
    var first := Calendar.Earliest(Dates(rows));
    FirstAt(rows, first, 0)
  }

  function FirstAt(rows: seq<StatementRow>, day: real, from: nat): (i: nat)
    requires from <= |rows| && exists j :: from <= j < |rows| && rows[j].date == day
    ensures from <= i < |rows| && rows[i].date == day
    ensures forall j :: from <= j < i ==> rows[j].date != day
    decreases |rows| - from
  {
    if rows[from].date == day then from else FirstAt(rows, day, from + 1)
  }

  /** The single opening row: the balance before the first line of the
      earliest date, that is its balance less its own movement. */
  function OpeningRow(rows: seq<StatementRow>): CashFlow
    requires |rows| > 0
  {
    var line := rows[FirstOfEarliest(rows)];
    BcgeFlow(line.date, line.balance - Amount(line), OpeningText)
  }

  const Amounts: CashFlow -> real := (c: CashFlow) => c.amount

  /** `cash_flow_prep(df)` with one opening row: every line as a CHF cash
      flow, then the opening balance. */
  function CashFlowPrep(rows: seq<StatementRow>): (r: Result<seq<CashFlow>, BcgeError>)
    ensures r.Failure? <==> |rows| == 0
    ensures r.Success? ==> |r.value| == |rows| + 1
    ensures r.Success? ==> forall i :: 0 <= i < |r.value| ==>
      r.value[i].platform == "BCGE" && r.value[i].currency == Some("CHF") && r.value[i].assetClass == "Cash" && r.value[i].subtype == "Variable"
    ensures r.Success? ==> forall i :: 0 <= i < |r.value| ==> (r.value[i].kind == "Inflow" <==> r.value[i].amount >= 0.0)
    ensures r.Success? ==> forall i :: 0 <= i < |rows| ==> r.value[i].amount == rows[i].out + rows[i].inflow
    ensures r.Success? ==> r.value[|rows|].date == Calendar.Earliest(Dates(rows))
  {
    if |rows| == 0 then Failure(EmptyStatement)
    else Success(Flows(rows) + [OpeningRow(rows)])
  }

  /** With the opening row, the cash flows of a consistent statement in date
      order add up to its closing balance. */
  lemma FlowsAddUpToClosingBalance(rows: seq<StatementRow>)
    requires |rows| > 0 && Consistent(rows)
    requires forall i :: 0 <= i < |rows| ==> rows[0].date <= rows[i].date
    ensures Total(CashFlowPrep(rows).value, Amounts) == rows[|rows| - 1].balance
  {
    var flows := Flows(rows);
    assert FirstOfEarliest(rows) == 0;
    Telescope(rows);
    TotalConcat(flows, [OpeningRow(rows)], Amounts);
    FlowTotals(rows);
  }

  lemma {:induction false} FlowTotals(rows: seq<StatementRow>)
    ensures Total(Flows(rows), Amounts) == Total(rows, Outs) + Total(rows, Ins)
    decreases |rows|
  {
    if |rows| > 0 {
      FlowTotals(rows[1..]);
      assert Flows(rows)[1..] == Flows(rows[1..]);
    }
  }

  /** `cash_flow_prep(df)` as written: every line as a CHF cash flow, then
      one opening row per line of the earliest date. */
  function CashFlowPrepAsWritten(rows: seq<StatementRow>): (r: Result<seq<CashFlow>, BcgeError>)
    ensures r.Failure? <==> |rows| == 0
    ensures r.Success? ==> |r.value| == |rows| + |OnDay(rows, Calendar.Earliest(Dates(rows)))| > |rows|
    ensures r.Success? ==> r.value[..|rows|] == Flows(rows)
    ensures r.Success? ==> forall i :: |rows| <= i < |r.value| ==>
      r.value[i].date == Calendar.Earliest(Dates(rows)) && r.value[i].description == Some(OpeningText)
  {
    if |rows| == 0 then Failure(EmptyStatement)
    else
      var flows, opening := Flows(rows), OpeningRowsAsWritten(rows);
      OpeningAppended(flows, opening, Calendar.Earliest(Dates(rows)));
      Success(flows + opening)
  }

  /** Opening rows appended after the line flows keep the flows in front. */
  lemma OpeningAppended(flows: seq<CashFlow>, opening: seq<CashFlow>, day: real)
    requires forall i :: 0 <= i < |opening| ==> opening[i].date == day && opening[i].description == Some(OpeningText)
    ensures (flows + opening)[..|flows|] == flows
    ensures forall i :: |flows| <= i < |flows + opening| ==>
      (flows + opening)[i].date == day && (flows + opening)[i].description == Some(OpeningText)
  {
    assert (flows + opening)[..|flows|] == flows;
    forall i | |flows| <= i < |flows + opening|
      ensures (flows + opening)[i].date == day && (flows + opening)[i].description == Some(OpeningText)
    {
      assert (flows + opening)[i] == opening[i - |flows|];
    }
  }

  /** As written, a consistent statement whose first line is alone on the
      earliest date has flows adding up to the closing balance plus
      |a| + a, where a is that line's movement: an opening deposit is
      counted three times, an opening withdrawal comes out right. */
  lemma AsWrittenFlowsTotal(rows: seq<StatementRow>)
    requires |rows| > 0 && Consistent(rows)
    requires forall i :: 1 <= i < |rows| ==> rows[0].date < rows[i].date
    ensures var a := Amount(rows[0]);
      Total(CashFlowPrepAsWritten(rows).value, Amounts) == rows[|rows| - 1].balance + Abs(a) + a
  {
    var first := Calendar.Earliest(Dates(rows));
    assert first == rows[0].date by {
      var k :| 0 <= k < |rows| && Dates(rows)[k] == first;
      assert Dates(rows)[0] >= first;
      if k > 0 { assert rows[0].date < rows[k].date; }
    }
    OnDayFirstOnly(rows);
    var opening := OpeningRowsAsWritten(rows);
    assert opening == [BcgeFlow(first, Abs(Amount(rows[0])) + rows[0].balance, OpeningText)];
    Telescope(rows);
    FlowTotals(rows);
    TotalConcat(Flows(rows), opening, Amounts);
    assert Total(opening, Amounts) == opening[0].amount + Total(opening[1..], Amounts);
  }

  /** When the first line is strictly earlier than every other, it is the
      only line of its day. */
  lemma OnDayFirstOnly(rows: seq<StatementRow>)
    requires |rows| > 0
    requires forall i :: 1 <= i < |rows| ==> rows[0].date < rows[i].date
    ensures OnDay(rows, rows[0].date) == [rows[0]]
  {
    OnDayNone(rows[1..], rows[0].date);
  }

  lemma {:induction false} OnDayNone(rows: seq<StatementRow>, day: real)
    requires forall i :: 0 <= i < |rows| ==> rows[i].date != day
    ensures OnDay(rows, day) == []
    decreases |rows|
  {
    if |rows| > 0 {
      OnDayNone(rows[1..], day);
    }
  }

  /** `main()`: the reconciliation warning and the cash-flow ledger. */
  datatype BcgeRun = BcgeRun(warning: bool, ledgers: seq<DataFeed.SubCollection>)

  /** `main()` as written: `test_bcge_data_extract`, then `cash_flow_prep`.
      On a consistent statement it warns exactly when the first line brings
      money in (to the cent). */
  function Extract(rows: seq<StatementRow>): (r: Result<BcgeRun, BcgeError>)
    ensures r.Success? <==> |rows| > 0
    ensures r.Success? ==> (r.value.warning <==> Check(rows) == Mismatch)
    ensures r.Success? && Consistent(rows) ==> (r.value.warning <==> !RoundsToZero(rows[0].inflow))
    ensures r.Success? ==> |r.value.ledgers| == 1 && r.value.ledgers[0] == CashFlowLedger(CashFlowPrepAsWritten(rows).value)
  {
    if |rows| == 0 then Failure(EmptyStatement)
    else
      ConsistentWarning(rows);
      Success(BcgeRun(Check(rows) == Mismatch, [CashFlowLedger(CashFlowPrepAsWritten(rows).value)]))
  }

  /** `main()` with the corrected check and the single opening row: a
      consistent statement never warns. */
  function CorrectedExtract(rows: seq<StatementRow>): (r: Result<BcgeRun, BcgeError>)
    ensures r.Success? <==> |rows| > 0
    ensures r.Success? && Consistent(rows) ==> !r.value.warning
    ensures r.Success? ==> |r.value.ledgers| == 1 && r.value.ledgers[0] == CashFlowLedger(CashFlowPrep(rows).value)
  {
    if |rows| == 0 then Failure(EmptyStatement)
    else
      ConsistentNoWarning(rows);
      Success(BcgeRun(CorrectedCheck(rows) == Mismatch, [CashFlowLedger(CashFlowPrep(rows).value)]))
  }

  /** Every ledger the adapter produces can be written. */
  lemma ExtractWritable(rows: seq<StatementRow>)
    requires |rows| > 0
    ensures DataFeed.Writable(Extract(rows).value.ledgers[0])
    ensures DataFeed.Writable(CorrectedExtract(rows).value.ledgers[0])
  {
    CashFlowLedgerWritable(CashFlowPrepAsWritten(rows).value);
    CashFlowLedgerWritable(CashFlowPrep(rows).value);
  }
}
