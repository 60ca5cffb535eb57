/** Unit balances per account (`CollectionService` in
    `src/plutus_lens/services/collections/_collections_services_util.py`):
    ledger rows are grouped by account `platform - ticker`, summed
    cumulatively in date order, sampled at the last row of each day, laid on
    the cash-flow calendar, forward filled, and zero before the first row. */
module Balances {
  import opened Wrappers
  import opened Text
  import opened Seqs
  import opened Sums
  import opened Sorting
  import opened Frames
  import Calendar

  /** The columns `__clean_main_data` keeps of a ledger row: the instant,
      the quantity (units or amount), the ticker (ticker, currency or ISIN)
      and the platform; `None` is a NaN cell. */
  datatype LedgerRow = LedgerRow(date: real, qty: real, ticker: Option<string>, platform: Option<string>)

  const AccountSep: string := " - "

  /** The account key `platform + ' - ' + ticker`. */
  function AccountKey(platform: string, ticker: string): string {
    platform + AccountSep + ticker
  }

  /** The row's account; NaN (`None`) when its platform or ticker is NaN,
      since string concatenation in pandas propagates NaN. */
  function Account(r: LedgerRow): Option<string> {
    if r.platform.Some? && r.ticker.Some? then Some(AccountKey(r.platform.value, r.ticker.value)) else None
  }

  /** `date.dt.normalize()`: the row's calendar day. */
  function DayOf(r: LedgerRow): int {
    Calendar.Day(r.date)
  }

  function Qty(r: LedgerRow): real {
    r.qty
  }

  /** `_date_range`: every day from the first to the last cash-flow day;
      `None` for an empty cash-flow ledger, where pandas fails on `NaT`. */
  function CalendarOf(cashFlowDates: seq<real>): (r: Option<(int, int)>)
    ensures r.None? <==> |cashFlowDates| == 0
    ensures r.Some? ==> r.value.0 <= r.value.1
    ensures r.Some? ==> forall i :: 0 <= i < |cashFlowDates| ==>
      r.value.0 <= Calendar.Day(cashFlowDates[i]) <= r.value.1
    ensures r.Some? ==> exists i :: 0 <= i < |cashFlowDates| && Calendar.Day(cashFlowDates[i]) == r.value.0
    ensures r.Some? ==> exists i :: 0 <= i < |cashFlowDates| && Calendar.Day(cashFlowDates[i]) == r.value.1
  {
    if |cashFlowDates| == 0 then None
    else
      var first, last := Calendar.Earliest(cashFlowDates), Calendar.Latest(cashFlowDates);
      forall i | 0 <= i < |cashFlowDates|
        ensures Calendar.Day(first) <= Calendar.Day(cashFlowDates[i]) <= Calendar.Day(last)
      {
        Calendar.DayMono(first, cashFlowDates[i]);
        Calendar.DayMono(cashFlowDates[i], last);
      }
      Some((Calendar.Day(first), Calendar.Day(last)))
  }

  // ---------------------------------------------------------------------------
  // The reference: what an account holds on a day
  // ---------------------------------------------------------------------------

  /** Row `r` counts towards account `a` by the end of day `d`. */
  predicate Held(r: LedgerRow, a: string, d: int) {
    Account(r) == Some(a) && DayOf(r) <= d
  }

  /** The quantity of account `a` held at the end of day `d`: every row of
      the account dated that day or earlier. */
  function HeldBy(rows: seq<LedgerRow>, a: string, d: int): real {
    SumIf(rows, x => Held(x, a, d), Qty)
  }

  /** Account `a` has a row on some calendar day from `lo` to `d`. */
  predicate HasRowIn(rows: seq<LedgerRow>, a: string, lo: int, d: int) {
    exists i :: 0 <= i < |rows| && Account(rows[i]) == Some(a) && lo <= DayOf(rows[i]) <= d
  }

  /** What the service reports for account `a` on calendar day `d`. */
  function Expected(rows: seq<LedgerRow>, a: string, lo: int, d: int): real {
    if HasRowIn(rows, a, lo, d) then HeldBy(rows, a, d) else 0.0
  }

  lemma HeldCongruent(rows: seq<LedgerRow>, a: string, d1: int, d2: int)
    requires forall i :: 0 <= i < |rows| ==> Held(rows[i], a, d1) == Held(rows[i], a, d2)
    ensures HeldBy(rows, a, d1) == HeldBy(rows, a, d2)
  {
    SumIfCongruent(rows, x => Held(x, a, d1), x => Held(x, a, d2), Qty);
  }

  lemma HeldPermutation(rows: seq<LedgerRow>, others: seq<LedgerRow>, a: string, d: int)
    requires multiset(rows) == multiset(others)
    ensures HeldBy(rows, a, d) == HeldBy(others, a, d)
  {
    SumIfPermutation(rows, others, x => Held(x, a, d), Qty);
  }

  lemma HeldConcat(rows: seq<LedgerRow>, more: seq<LedgerRow>, a: string, d: int)
    ensures HeldBy(rows + more, a, d) == HeldBy(rows, a, d) + HeldBy(more, a, d)
  {
    SumIfConcat(rows, more, x => Held(x, a, d), Qty);
  }

  lemma HeldNone(rows: seq<LedgerRow>, a: string, d: int)
    requires forall i :: 0 <= i < |rows| ==> !Held(rows[i], a, d)
    ensures HeldBy(rows, a, d) == 0.0
  {
    SumIfNone(rows, x => Held(x, a, d), Qty);
  }

  // ---------------------------------------------------------------------------
  // The pipeline
  // ---------------------------------------------------------------------------

  /** The order of `sort_values` on the account: keys in string order, NaN
      last. */
  predicate KeyLe(x: Option<string>, y: Option<string>) {
    if x.None? then y.None? else y.None? || StrLe(x.value, y.value)
  }

  lemma KeyLeTotal(x: Option<string>, y: Option<string>)
    ensures KeyLe(x, y) || KeyLe(y, x)
  {
    if x.Some? && y.Some? {
      StrLeTotal(x.value, y.value);
    }
  }

  lemma KeyLeTrans(x: Option<string>, y: Option<string>, z: Option<string>)
    requires KeyLe(x, y) && KeyLe(y, z)
    ensures KeyLe(x, z)
  {
    if x.Some? && y.Some? && z.Some? {
      StrLeTrans(x.value, y.value, z.value);
    }
  }

  lemma KeyLeAntisym(x: Option<string>, y: Option<string>)
    requires KeyLe(x, y) && KeyLe(y, x)
    ensures x == y
  {
    if x.Some? && y.Some? {
      StrLeAntisym(x.value, y.value);
    }
  }

  /** `sort_values(by=['account', 'date'])`. */
  predicate AccountDateLe(x: LedgerRow, y: LedgerRow) {
    if Account(x) == Account(y) then x.date <= y.date else KeyLe(Account(x), Account(y))
  }

  lemma AccountDateLeTotalPreorder()
    ensures TotalPreorder(AccountDateLe)
  {
    forall x, y
      ensures AccountDateLe(x, y) || AccountDateLe(y, x)
    {
      KeyLeTotal(Account(x), Account(y));
    }
    forall x, y, z | AccountDateLe(x, y) && AccountDateLe(y, z)
      ensures AccountDateLe(x, z)
    {
      if Account(x) != Account(y) && Account(y) != Account(z) {
        KeyLeTrans(Account(x), Account(y), Account(z));
        if Account(x) == Account(z) {
          KeyLeAntisym(Account(x), Account(y));
        }
      } else if Account(x) != Account(y) || Account(y) != Account(z) {
        if Account(x) == Account(z) {
          KeyLeAntisym(Account(x), Account(y));
        }
      }
    }
  }

  /** The ledger in the order the cumulative sums are taken. */
  function SortedLedger(rows: seq<LedgerRow>): (s: seq<LedgerRow>)
    ensures multiset(s) == multiset(rows)
    ensures Sorted(s, AccountDateLe)
  {
    AccountDateLeTotalPreorder();
    SortBySorted(rows, AccountDateLe);
    SortBy(rows, AccountDateLe)
  }

  /** The days on which account `a` has rows. */
  function RowDays(s: seq<LedgerRow>, a: string): set<int> {
    set i | 0 <= i < |s| && Account(s[i]) == Some(a) :: DayOf(s[i])
  }

  /** The last row of account `a` on day `day`. */
  function LastOfDay(s: seq<LedgerRow>, a: string, day: int): (r: Option<nat>)
    ensures r.Some? ==> r.value < |s| && Account(s[r.value]) == Some(a) && DayOf(s[r.value]) == day
    ensures r.Some? ==> forall j :: r.value < j < |s| ==> !(Account(s[j]) == Some(a) && DayOf(s[j]) == day)
    ensures r.None? ==> forall j :: 0 <= j < |s| ==> !(Account(s[j]) == Some(a) && DayOf(s[j]) == day)
    decreases |s|
  {
    if |s| == 0 then None
    else if Account(s[|s| - 1]) == Some(a) && DayOf(s[|s| - 1]) == day then Some(|s| - 1)
    else
      assert forall j :: 0 <= j < |s| - 1 ==> s[j] == s[..|s| - 1][j];
      LastOfDay(s[..|s| - 1], a, day)
  }

  /** Column `a` of `pivot_table(index='date_only', columns='account',
      values='daily_balance', aggfunc='last')`: on each day with rows, the
      running total at the day's last row. */
  function Pivot(s: seq<LedgerRow>, cum: seq<real>, a: string): (r: Series)
    requires |cum| == |s|
    ensures r.Keys == RowDays(s, a)
  {
    map day | day in RowDays(s, a) :: cum[LastOfDay(s, a, day).value]
  }

  /** Column `a` of `balance_by_platform_and_asset()` on the calendar `lo..hi`. */
  function AccountColumn(rows: seq<LedgerRow>, a: string, lo: int, hi: int): (r: Series)
    ensures forall d :: d in r <==> lo <= d <= hi
  {
    var s := SortedLedger(rows);
    FillZero(FFill(Pivot(s, GroupRunningSums(s, Account, Qty), a), lo, hi), lo, hi)
  }

  /** Up to a row of account `a` on day `day`, the account's running total
      is what it holds by the end of that day among those rows: sorting by
      (account, date) puts no later-dated row of the account before it. */
  lemma RunningSumHeld(s: seq<LedgerRow>, a: string, day: int, i: int)
    requires Sorted(s, AccountDateLe)
    requires 0 <= i < |s| && Account(s[i]) == Some(a) && DayOf(s[i]) == day
    ensures GroupRunningSums(s, Account, Qty)[i] == HeldBy(s[..i + 1], a, day)
  {
    var prefix := s[..i + 1];
    forall j | 0 <= j < |prefix|
      ensures (Account(prefix[j]) == Some(a)) == Held(prefix[j], a, day)
    {
      if Account(prefix[j]) == Some(a) && j < i {
        assert AccountDateLe(s[j], s[i]);
        Calendar.DayMono(s[j].date, s[i].date);
      }
    }
    GroupTotalCongruent(prefix, Some(a), Account, Qty, x => Held(x, a, day));
  }

  /** After the last row of account `a` on day `day`, no row counts towards
      what the account holds by the end of that day. */
  lemma NothingHeldAfter(s: seq<LedgerRow>, a: string, day: int, i: int)
    requires Sorted(s, AccountDateLe)
    requires 0 <= i < |s| && Account(s[i]) == Some(a) && DayOf(s[i]) == day
    requires forall j :: i < j < |s| ==> !(Account(s[j]) == Some(a) && DayOf(s[j]) == day)
    ensures HeldBy(s[i + 1..], a, day) == 0.0
  {
    var suffix := s[i + 1..];
    forall j | 0 <= j < |suffix|
      ensures !Held(suffix[j], a, day)
    {
      if Account(s[i + 1 + j]) == Some(a) {
        assert AccountDateLe(s[i], s[i + 1 + j]);
        Calendar.DayMono(s[i].date, s[i + 1 + j].date);
      }
    }
    HeldNone(suffix, a, day);
  }

  /** The running total at the last row of a day is everything the account
      holds by the end of that day. */
  lemma PivotHeld(s: seq<LedgerRow>, a: string, day: int)
    requires Sorted(s, AccountDateLe)
    requires LastOfDay(s, a, day).Some?
    ensures GroupRunningSums(s, Account, Qty)[LastOfDay(s, a, day).value] == HeldBy(s, a, day)
  {
    var i := LastOfDay(s, a, day).value;
    RunningSumHeld(s, a, day, i);
    NothingHeldAfter(s, a, day, i);
    assert s == s[..i + 1] + s[i + 1..];
    HeldConcat(s[..i + 1], s[i + 1..], a, day);
  }

  /** The service's column for account `a` is the reference balance: on a
      calendar day, everything the account holds by the end of that day,
      once it has a row on the calendar; 0 before. */
  lemma AccountColumnCorrect(rows: seq<LedgerRow>, a: string, lo: int, hi: int, d: int)
    requires lo <= d <= hi
    ensures AccountColumn(rows, a, lo, hi)[d] == Expected(rows, a, lo, d)
  {
    var s := SortedLedger(rows);
    var cum := GroupRunningSums(s, Account, Qty);
    var p := Pivot(s, cum, a);
    var f := FFill(p, lo, hi);
    assert AccountColumn(rows, a, lo, hi)[d] == At(f, d);
    FFillIsLastValue(p, lo, hi, d);
    match LastKey(p, lo, d)
    case None =>
      NoRowUpTo(rows, s, a, lo, d);
    case Some(r) =>
      HeldOnLastRowDay(rows, s, a, lo, d, r);
  }

  /** The pivot holds, on a day with rows of the account, the running total
      at the last of them. */
  lemma PivotAt(s: seq<LedgerRow>, cum: seq<real>, a: string, day: int)
    requires |cum| == |s| && day in RowDays(s, a)
    ensures LastOfDay(s, a, day).Some?
    ensures Pivot(s, cum, a)[day] == cum[LastOfDay(s, a, day).value]
  {
  }

  /** An account with no row of the sorted ledger on `lo..d` has no row of
      the ledger there either. */
  lemma NoRowUpTo(rows: seq<LedgerRow>, s: seq<LedgerRow>, a: string, lo: int, d: int)
    requires multiset(s) == multiset(rows)
    requires LastKey(Pivot(s, GroupRunningSums(s, Account, Qty), a), lo, d).None?
    ensures !HasRowIn(rows, a, lo, d)
  {
    forall i | 0 <= i < |rows| && Account(rows[i]) == Some(a)
      ensures !(lo <= DayOf(rows[i]) <= d)
    {
      assert rows[i] in multiset(s);
      var j :| 0 <= j < |s| && s[j] == rows[i];
      assert DayOf(s[j]) in RowDays(s, a);
    }
  }

  /** When `r` is the last day up to `d` with a row of the account, the
      running total at its last row is what the account holds by the end of
      `d`. */
  lemma HeldOnLastRowDay(rows: seq<LedgerRow>, s: seq<LedgerRow>, a: string, lo: int, d: int, r: int)
    requires multiset(s) == multiset(rows) && Sorted(s, AccountDateLe)
    requires LastKey(Pivot(s, GroupRunningSums(s, Account, Qty), a), lo, d) == Some(r)
    ensures HasRowIn(rows, a, lo, d)
    ensures Pivot(s, GroupRunningSums(s, Account, Qty), a)[r] == HeldBy(rows, a, d)
  {
    PivotAt(s, GroupRunningSums(s, Account, Qty), a, r);
    var i :| 0 <= i < |s| && Account(s[i]) == Some(a) && DayOf(s[i]) == r;
    PivotHeld(s, a, r);
    forall j | 0 <= j < |s|
      ensures Held(s[j], a, r) == Held(s[j], a, d)
    {
      if Account(s[j]) == Some(a) {
        assert DayOf(s[j]) in RowDays(s, a);
      }
    }
    HeldCongruent(s, a, r, d);
    HeldPermutation(s, rows, a, d);
    assert s[i] in multiset(rows);
    var k :| 0 <= k < |rows| && rows[k] == s[i];
  }

  /** Account `a`'s column of the unit frame. */
  function ColumnOf(rows: seq<LedgerRow>, a: string, lo: int, hi: int): Column {
    Column(a, AccountColumn(rows, a, lo, hi))
  }

  /** The account columns, in sorted account order: every account with a
      row, each once. A row whose account is NaN gives no column, since
      `pivot_table` drops NaN keys. */
  function Accounts(rows: seq<LedgerRow>): (r: seq<string>)
    ensures Distinct(r)
    ensures forall i :: 0 <= i < |rows| && Account(rows[i]).Some? ==> Account(rows[i]).value in r
    ensures forall j :: 0 <= j < |r| ==> exists i :: 0 <= i < |rows| && Account(rows[i]) == Some(r[j])
  {
    var s := SortedLedger(rows);
    var all := Project(s, Account);
    var r := Unique(Present(all));
    PermutedImage(rows, s, Account);
    forall i | 0 <= i < |rows| && Account(rows[i]).Some?
      ensures Account(rows[i]).value in r
    {
      assert Some(Account(rows[i]).value) in all;
    }
    forall j | 0 <= j < |r|
      ensures exists i :: 0 <= i < |rows| && Account(rows[i]) == Some(r[j])
    {
      assert Some(r[j]) in all;
      var k :| 0 <= k < |all| && all[k] == Some(r[j]);
    }
    r
  }

  /** `balance_by_platform_and_asset()` in units: one column per account, in
      sorted account order, every calendar day present. */
  function BalanceUnits(rows: seq<LedgerRow>, lo: int, hi: int): (r: seq<Column>)
    ensures Project(r, LabelOf) == Accounts(rows)
    ensures forall j :: 0 <= j < |r| ==> r[j] == ColumnOf(rows, r[j].name, lo, hi)
  {
    var accounts := Accounts(rows);
    var r := seq(|accounts|, i requires 0 <= i < |accounts| => ColumnOf(rows, accounts[i], lo, hi));
    assert Project(r, LabelOf) == accounts;
    r
  }

  /** Each cell of the unit frame is the reference balance of its account. */
  lemma BalanceUnitsValue(rows: seq<LedgerRow>, lo: int, hi: int, j: int, d: int)
    requires 0 <= j < |BalanceUnits(rows, lo, hi)|
    requires lo <= d <= hi
    ensures BalanceUnits(rows, lo, hi)[j].series[d] == Expected(rows, BalanceUnits(rows, lo, hi)[j].name, lo, d)
  {
    AccountColumnCorrect(rows, BalanceUnits(rows, lo, hi)[j].name, lo, hi, d);
  }

  // ---------------------------------------------------------------------------
  // Properties of the reference balance
  // ---------------------------------------------------------------------------

  /** Days before an account's first row on the calendar read 0, not NaN. */
  lemma ZeroBeforeFirstRow(rows: seq<LedgerRow>, a: string, lo: int, d: int)
    requires forall i :: 0 <= i < |rows| && Account(rows[i]) == Some(a) ==> DayOf(rows[i]) > d
    ensures Expected(rows, a, lo, d) == 0.0
  {
  }

  /** When every row of the account lies on the calendar, the balance on a
      calendar day is exactly the sum of its quantities up to that day. */
  lemma BalanceIsRunningSum(rows: seq<LedgerRow>, a: string, lo: int, d: int)
    requires forall i :: 0 <= i < |rows| && Account(rows[i]) == Some(a) ==> lo <= DayOf(rows[i])
    requires lo <= d
    ensures Expected(rows, a, lo, d) == HeldBy(rows, a, d)
  {
    if !HasRowIn(rows, a, lo, d) {
      HeldNone(rows, a, d);
    }
  }

  /** Forward fill: between two days with no row of the account in between,
      the balance does not change. */
  lemma ConstantBetweenRows(rows: seq<LedgerRow>, a: string, lo: int, d1: int, d2: int)
    requires lo <= d1 <= d2
    requires forall i :: 0 <= i < |rows| && Account(rows[i]) == Some(a) ==> !(d1 < DayOf(rows[i]) <= d2)
    ensures Expected(rows, a, lo, d1) == Expected(rows, a, lo, d2)
  {
    HeldCongruent(rows, a, d1, d2);
    if HasRowIn(rows, a, lo, d2) {
      var i :| 0 <= i < |rows| && Account(rows[i]) == Some(a) && lo <= DayOf(rows[i]) <= d2;
      assert DayOf(rows[i]) <= d1;
    }
  }

  /** One account's rows never affect another account's column. */
  lemma AccountsIndependent(rows: seq<LedgerRow>, more: seq<LedgerRow>, a: string, lo: int, d: int)
    requires forall i :: 0 <= i < |more| ==> Account(more[i]) != Some(a)
    ensures Expected(rows + more, a, lo, d) == Expected(rows, a, lo, d)
  {
    HeldConcat(rows, more, a, d);
    HeldNone(more, a, d);
    forall i | |rows| <= i < |rows + more|
      ensures Account((rows + more)[i]) != Some(a)
    {
      assert (rows + more)[i] == more[i - |rows|];
    }
    if HasRowIn(rows + more, a, lo, d) {
      var i :| 0 <= i < |rows + more| && Account((rows + more)[i]) == Some(a) && lo <= DayOf((rows + more)[i]) <= d;
      assert (rows + more)[i] == rows[i];
    }
    if HasRowIn(rows, a, lo, d) {
      var i :| 0 <= i < |rows| && Account(rows[i]) == Some(a) && lo <= DayOf(rows[i]) <= d;
      assert (rows + more)[i] == rows[i];
    }
  }

  /** Rows whose platform or ticker is NaN change nothing: no account column
      appears or disappears, and every account keeps its balance. */
  lemma NanRowsIgnored(rows: seq<LedgerRow>, more: seq<LedgerRow>, a: string, lo: int, d: int)
    requires forall i :: 0 <= i < |more| ==> more[i].platform.None? || more[i].ticker.None?
    ensures a in Accounts(rows + more) <==> a in Accounts(rows)
    ensures Expected(rows + more, a, lo, d) == Expected(rows, a, lo, d)
  {
    AccountsIndependent(rows, more, a, lo, d);
    forall k | |rows| <= k < |rows + more|
      ensures Account((rows + more)[k]).None?
    {
      assert (rows + more)[k] == more[k - |rows|];
    }
    if a in Accounts(rows + more) {
      var j :| 0 <= j < |Accounts(rows + more)| && Accounts(rows + more)[j] == a;
      var i :| 0 <= i < |rows + more| && Account((rows + more)[i]) == Some(a);
      assert (rows + more)[i] == rows[i];
    }
    if a in Accounts(rows) {
      var j :| 0 <= j < |Accounts(rows)| && Accounts(rows)[j] == a;
      var i :| 0 <= i < |rows| && Account(rows[i]) == Some(a);
      assert (rows + more)[i] == rows[i];
    }
  }
}
