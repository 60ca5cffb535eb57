/** The machinery the four collection services share: lining a market-data
    table up with the calendar, multiplying a balance frame by it, forward
    filling, and regrouping the account columns by platform, asset or
    currency (`T.groupby(columns).sum().T`). */
module Valuation {
  import opened Wrappers
  import opened Text
  import opened Seqs
  import opened Sorting
  import opened Frames
  import opened Balances
  import Calendar

  /** A market-data frame after cleaning (`clean_fx_data`, `clean_data`):
      one day-indexed series per column name (currency or ticker). */
  type Table = map<string, Series>

  /** The calendar as an index set. */
  function CalendarDays(lo: int, hi: int): (r: set<int>)
    ensures forall d :: d in r <==> lo <= d <= hi
  {
    forall d ensures d in Calendar.Days(lo, hi) <==> lo <= d <= hi {
      Calendar.DaysMembership(lo, hi, d);
    }
    set d | d in Calendar.Days(lo, hi)
  }

  /** `pd.DataFrame(columns=[name], index=calendar, data=table)`: the
      table's column on the calendar, NaN (absent) where the table has no
      such column or no value that day. */
  function Aligned(t: Table, name: string, lo: int, hi: int): (r: Series)
    ensures forall d :: d in r <==> lo <= d <= hi && name in t && d in t[name]
    ensures forall d :: d in r ==> r[d] == t[name][d]
  {
    if name in t then map d | d in t[name] && lo <= d <= hi :: t[name][d] else map[]
  }

  /** The value of an amount at a price or rate. Products are kept behind
      this name so that the solver treats them as terms. */
  function Mul(x: real, y: real): real {
    x * y
  }

  /** Element-wise product of aligned columns; NaN wherever either side is. */
  function Times(a: Series, b: Series): (r: Series)
    ensures r.Keys == a.Keys * b.Keys
  {
    map d | d in a.Keys * b.Keys :: Mul(a[d], b[d])
  }

  /** `(balance * factor).ffill()` for one account column. */
  function Convert(units: Series, factor: Series, lo: int, hi: int): Series {
    FFill(Times(units, factor), lo, hi)
  }

  /** Two series with the same keys on `lo..d` have the same last key there. */
  lemma LastKeyAgree(a: Series, b: Series, lo: int, d: int)
    requires forall j :: lo <= j <= d ==> (j in a <==> j in b)
    ensures LastKey(a, lo, d) == LastKey(b, lo, d)
  {
    var ka, kb := LastKey(a, lo, d), LastKey(b, lo, d);
    if ka.Some? {
      assert ka.value in b;
      assert kb.value in a;
    } else {
      forall j | lo <= j <= d
        ensures j !in b
      {
      }
    }
  }

  lemma TimesAt(a: Series, b: Series, k: int)
    requires k in a && k in b
    ensures k in Times(a, b) && Times(a, b)[k] == Mul(a[k], b[k])
  {
  }

  /** A converted balance has a value on a calendar day exactly when the
      factor had one on some day of the calendar up to it; before that it
      stays NaN. */
  lemma ConvertPresent(units: Series, factor: Series, lo: int, hi: int, d: int)
    requires lo <= d <= hi
    requires forall j :: lo <= j <= hi ==> j in units
    ensures d in Convert(units, factor, lo, hi) <==> LastKey(factor, lo, d).Some?
  {
    var p := Times(units, factor);
    forall j | lo <= j <= d
      ensures j in p <==> j in factor
    {
      assert j in units;
    }
    LastKeyAgree(p, factor, lo, d);
    FFillIsLastValue(p, lo, hi, d);
  }

  /** ... and that value is the balance times the factor on `k`, the last
      day up to `d` that has a factor. */
  lemma ConvertIsLastQuote(units: Series, factor: Series, lo: int, hi: int, d: int, k: int)
    requires lo <= d <= hi
    requires forall j :: lo <= j <= hi ==> j in units
    requires LastKey(factor, lo, d) == Some(k)
    ensures d in Convert(units, factor, lo, hi)
    ensures Convert(units, factor, lo, hi)[d] == Mul(units[k], factor[k])
  {
    var p := Times(units, factor);
    forall j | lo <= j <= d
      ensures j in p <==> j in factor
    {
      assert j in units;
    }
    LastKeyAgree(p, factor, lo, d);
    FFillIsLastValue(p, lo, hi, d);
    TimesAt(units, factor, k);
  }

  /** The same, with the units and the factor on `k` named by the caller. */
  lemma ConvertScaled(units: Series, factor: Series, lo: int, hi: int, d: int, k: int, x: real, y: real)
    requires lo <= d <= hi
    requires forall j :: lo <= j <= hi ==> j in units
    requires LastKey(factor, lo, d) == Some(k)
    requires units[k] == x && factor[k] == y
    ensures d in Convert(units, factor, lo, hi) && Convert(units, factor, lo, hi)[d] == Mul(x, y)
  {
    ConvertIsLastQuote(units, factor, lo, hi, d, k);
  }

  // ---------------------------------------------------------------------------
  // Reading account labels
  // ---------------------------------------------------------------------------

  /** `account.split(' - ')[0]`. */
  function PlatformOf(a: string): string {
    BeforeSep(a, AccountSep)
  }

  /** `account.split(' - ')[1]`; the empty fallback never applies to an
      account label (`AccountHasAsset`). */
  function AssetOf(a: string): string {
    match Piece(a, AccountSep, 1)
    case Some(x) => x
    case None => ""
  }

  /** `PlatformOf` and `AssetOf` as the relabelling functions of the
      grouped views. */
  const PlatformLabel: string -> string := a => PlatformOf(a)
  const AssetLabel: string -> string := a => AssetOf(a)

  /** The separator occurs in `platform - ticker` only between the two. */
  ghost predicate CleanKey(platform: string, ticker: string) {
    forall j :: OccursAt(AccountKey(platform, ticker), AccountSep, j) ==> j == |platform|
  }

  /** An account label always has a second piece. */
  lemma AccountHasAsset(platform: string, ticker: string)
    ensures Piece(AccountKey(platform, ticker), AccountSep, 1).Some?
  {
    var a := AccountKey(platform, ticker);
    assert a[|platform|..|platform| + |AccountSep|] == AccountSep;
    assert OccursAt(a, AccountSep, |platform|);
    FindNoneMeansAbsent(a, AccountSep);
    var i := Find(a, AccountSep).value;
    assert Split(a, AccountSep) == [a[..i]] + Split(a[i + |AccountSep|..], AccountSep);
  }

  /** Splitting the label gives back the platform and the ticker, when
      neither carries the separator across the join. */
  lemma AccountLabels(platform: string, ticker: string)
    requires CleanKey(platform, ticker)
    ensures PlatformOf(AccountKey(platform, ticker)) == platform
    ensures AssetOf(AccountKey(platform, ticker)) == ticker
  {
    assert AccountKey(platform, ticker) == platform + AccountSep + ticker;
    SplitTwo(platform, AccountSep, ticker);
    BeforeSepOfSuffix(platform, AccountSep, ticker);
  }

  // ---------------------------------------------------------------------------
  // Regrouped views
  // ---------------------------------------------------------------------------

  /** `balance_by_platform()`: account columns summed per platform. */
  function ByPlatform(valued: seq<Column>, lo: int, hi: int): (r: seq<Column>)
    ensures Project(r, LabelOf) == Labels(Relabel(valued, PlatformLabel))
    ensures forall j, d :: 0 <= j < |r| && lo <= d <= hi ==>
      d in r[j].series && r[j].series[d] == LabelSum(Relabel(valued, PlatformLabel), r[j].name, d)
  {
    GroupSum(Relabel(valued, PlatformLabel), CalendarDays(lo, hi))
  }

  /** `balance_by_asset()` (and cash's `balance_by_currency()`): account
      columns summed per ticker. */
  function ByAsset(valued: seq<Column>, lo: int, hi: int): (r: seq<Column>)
    ensures Project(r, LabelOf) == Labels(Relabel(valued, AssetLabel))
    ensures forall j, d :: 0 <= j < |r| && lo <= d <= hi ==>
      d in r[j].series && r[j].series[d] == LabelSum(Relabel(valued, AssetLabel), r[j].name, d)
  {
    GroupSum(Relabel(valued, AssetLabel), CalendarDays(lo, hi))
  }

  /** `balance_aggregated()`: the row sum of the platform view, which is the
      sum of every account column (NaN counting as 0). */
  function Aggregated(valued: seq<Column>, lo: int, hi: int): (r: Series)
    ensures forall d :: d in r <==> lo <= d <= hi
    ensures forall d :: lo <= d <= hi ==> r[d] == RowSum(valued, d)
  {
    var days := CalendarDays(lo, hi);
    var r := map d | d in days :: RowSum(ByPlatform(valued, lo, hi), d);
    forall d | lo <= d <= hi
      ensures r[d] == RowSum(valued, d)
    {
      GroupSumConserves(Relabel(valued, PlatformLabel), days, d);
      RelabelConserves(valued, PlatformLabel, d);
    }
    r
  }

  /** Regrouping loses and invents nothing: the asset view and the platform
      view add up to the same day total as the account columns. */
  lemma ViewsConserve(valued: seq<Column>, lo: int, hi: int, d: int)
    requires lo <= d <= hi
    ensures RowSum(ByPlatform(valued, lo, hi), d) == RowSum(valued, d)
    ensures RowSum(ByAsset(valued, lo, hi), d) == RowSum(valued, d)
  {
    var days := CalendarDays(lo, hi);
    GroupSumConserves(Relabel(valued, PlatformLabel), days, d);
    RelabelConserves(valued, PlatformLabel, d);
    GroupSumConserves(Relabel(valued, AssetLabel), days, d);
    RelabelConserves(valued, AssetLabel, d);
  }

  // ---------------------------------------------------------------------------
  // Ticker to currency
  // ---------------------------------------------------------------------------

  /** `set_index(key)[value].to_dict()` (and `dict(pairs)`): one entry per
      key, the later pair winning. */
  function PairsToMap<K(==,!new), V>(pairs: seq<(K, V)>): (m: map<K, V>)
    ensures forall k :: k in m <==> exists i :: 0 <= i < |pairs| && pairs[i].0 == k
  {
    if |pairs| == 0 then map[]
    else
      var init := PairsToMap(pairs[..|pairs| - 1]);
      assert forall i :: 0 <= i < |pairs| - 1 ==> pairs[..|pairs| - 1][i] == pairs[i];
      init[pairs[|pairs| - 1].0 := pairs[|pairs| - 1].1]
  }

  /** The value kept for a key is the one of its last pair. */
  lemma {:induction false} PairsToMapLast<K(!new), V>(pairs: seq<(K, V)>, i: int)
    requires 0 <= i < |pairs|
    requires forall j :: i < j < |pairs| ==> pairs[j].0 != pairs[i].0
    ensures pairs[i].0 in PairsToMap(pairs) && PairsToMap(pairs)[pairs[i].0] == pairs[i].1
    decreases |pairs|
  {
    if i < |pairs| - 1 {
      var init := pairs[..|pairs| - 1];
      assert init[i] == pairs[i];
      forall j | i < j < |init|
        ensures init[j].0 != init[i].0
      {
        assert init[j] == pairs[j];
      }
      PairsToMapLast(init, i);
    }
  }

  /** `df[[key, value]].drop_duplicates()` turned into a dictionary: repeated
      pairs are dropped first, keeping first appearances, then the later
      remaining pair of a key wins. */
  function DedupedMap<K(==,!new), V(==)>(pairs: seq<(K, V)>): (m: map<K, V>)
    ensures forall i :: 0 <= i < |pairs| ==> pairs[i].0 in m
    ensures forall k :: k in m ==> exists i :: 0 <= i < |pairs| && pairs[i].0 == k
  {
    var u := Unique(pairs);
    var m := PairsToMap(u);
    forall i | 0 <= i < |pairs|
      ensures pairs[i].0 in m
    {
      assert pairs[i] in u;
      var j :| 0 <= j < |u| && u[j] == pairs[i];
    }
    forall k | k in m
      ensures exists i :: 0 <= i < |pairs| && pairs[i].0 == k
    {
      var j :| 0 <= j < |u| && u[j].0 == k;
      assert u[j] in pairs;
      var i :| 0 <= i < |pairs| && pairs[i] == u[j];
    }
    m
  }

  /** The value kept for a key is the one of its distinct pair whose first
      appearance comes last: pair `i` appears for the first time at `i`, and
      every later pair of its key repeats a pair seen up to `i`. */
  lemma {:induction false} DedupedMapValue<K(!new), V>(pairs: seq<(K, V)>, i: int)
    requires 0 <= i < |pairs|
    requires forall j :: 0 <= j < i ==> pairs[j] != pairs[i]
    requires forall j :: i < j < |pairs| && pairs[j].0 == pairs[i].0 ==> pairs[j] in pairs[..i + 1]
    ensures pairs[i].0 in DedupedMap(pairs) && DedupedMap(pairs)[pairs[i].0] == pairs[i].1
    decreases |pairs|
  {
    var n := |pairs| - 1;
    var init, x := pairs[..n], pairs[n];
    assert pairs == init + [x];
    var u := Unique(init);
    assert Unique(pairs) == if x in u then u else u + [x];
    if i == n {
      assert x !in init;
      assert (u + [x])[..|u|] == u;
    } else {
      assert init[i] == pairs[i];
      assert init[..i + 1] == pairs[..i + 1];
      forall j | i < j < |init| && init[j].0 == init[i].0
        ensures init[j] in init[..i + 1]
      {
        assert init[j] == pairs[j];
      }
      DedupedMapValue(init, i);
      if x !in u {
        assert x !in init;
        assert x !in pairs[..i + 1];
        assert (u + [x])[..|u|] == u;
      }
    }
  }

  /** `drop_duplicates` makes the first appearances decide: a ticker listed
      with `USD`, then `EUR`, then `USD` again maps to `EUR`, where the plain
      dictionary would give `USD`. */
  lemma DedupedMapExample()
    ensures DedupedMap([("T", "USD"), ("T", "EUR"), ("T", "USD")])["T"] == "EUR"
    ensures PairsToMap([("T", "USD"), ("T", "EUR"), ("T", "USD")])["T"] == "USD"
  {
    var pairs := [("T", "USD"), ("T", "EUR"), ("T", "USD")];
    assert pairs[2] == pairs[..1 + 1][0];
    DedupedMapValue(pairs, 1);
    PairsToMapLast(pairs, 2);
  }

  /** The ticker (or ISIN) to currency dictionary of a ledger; a NaN ticker
      or currency is `None`. */
  type CurrencyDict = map<Option<string>, Option<string>>

  const UnknownCurrency: string := "Unknown"

  /** `ticker_to_currency.get(ticker, 'Unknown')`: the currency may be NaN. */
  function CurrencyOf(m: CurrencyDict, ticker: string): (c: Option<string>)
    ensures Some(ticker) !in m ==> c == Some(UnknownCurrency)
    ensures Some(ticker) in m ==> c == m[Some(ticker)]
  {
    if Some(ticker) in m then m[Some(ticker)] else Some(UnknownCurrency)
  }

  /** `pd.DataFrame(columns=[c], index=calendar, data=fx)` for a currency
      label that may be NaN: a NaN label names no FX column, so its rates are
      all NaN. */
  function RateOf(fx: Table, c: Option<string>, lo: int, hi: int): (r: Series)
    ensures forall d :: d in r <==> lo <= d <= hi && Listed(fx, c) && d in fx[c.value]
    ensures forall d :: d in r ==> Listed(fx, c) && d in fx[c.value] && r[d] == fx[c.value][d]
  {
    if c.Some? then Aligned(fx, c.value, lo, hi) else map[]
  }

  /** Currency `c` is a column of the FX frame. */
  predicate Listed(fx: Table, c: Option<string>) {
    c.Some? && c.value in fx
  }

  /** `ccy.replace('GBX', 'GBP')` on the grouped currency labels. */
  function GbxToGbp(c: string): string {
    ReplaceAll(c, "GBX", "GBP")
  }
  /** `GbxToGbp` as the relabelling function of the currency views. */
  const GbxLabel: string -> string := c => GbxToGbp(c)


  lemma GbxRelabelled()
    ensures GbxToGbp("GBX") == "GBP"
    ensures GbxToGbp("USD") == "USD"
  {
    assert "USD"[..3][0] != "GBX"[0];
    assert "USD"[1..] == "SD";
  }

  /** Local values summed per currency label, before the pence rename; a
      column whose currency is NaN is dropped by the grouping. */
  function CurrencyGroups(local: seq<Column>, ccyOf: string -> Option<string>, lo: int, hi: int): (r: seq<Column>)
    ensures forall j, d :: 0 <= j < |r| && lo <= d <= hi ==>
      d in r[j].series && r[j].series[d] == LabelSum(RelabelPresent(local, ccyOf), r[j].name, d)
  {
    var cols := RelabelPresent(local, ccyOf);
    GroupedOnCalendar(cols, lo, hi);
    GroupSum(cols, CalendarDays(lo, hi))
  }

  /** Grouping on the calendar gives every group a value on each calendar day. */
  lemma GroupedOnCalendar(cols: seq<Column>, lo: int, hi: int)
    ensures var r := GroupSum(cols, CalendarDays(lo, hi));
      forall j, d :: 0 <= j < |r| && lo <= d <= hi ==> d in r[j].series && r[j].series[d] == LabelSum(cols, r[j].name, d)
  {
  }

  /** Columns whose currency is NaN change no currency group. */
  lemma NanCurrencyIgnored(local: seq<Column>, more: seq<Column>, ccyOf: string -> Option<string>, lo: int, hi: int)
    requires forall i :: 0 <= i < |more| ==> ccyOf(more[i].name).None?
    ensures CurrencyGroups(local + more, ccyOf, lo, hi) == CurrencyGroups(local, ccyOf, lo, hi)
  {
    RelabelPresentConcat(local, more, ccyOf);
    RelabelPresentNone(more, ccyOf);
    assert RelabelPresent(local, ccyOf) + [] == RelabelPresent(local, ccyOf);
  }

  /** With no NaN currency, the currency groups add up to the local total. */
  lemma CurrencyGroupsConserve(local: seq<Column>, ccyOf: string -> Option<string>, lo: int, hi: int, d: int)
    requires lo <= d <= hi
    requires forall i :: 0 <= i < |local| ==> ccyOf(local[i].name).Some?
    ensures RowSum(CurrencyGroups(local, ccyOf, lo, hi), d) == RowSum(local, d)
  {
    GroupSumConserves(RelabelPresent(local, ccyOf), CalendarDays(lo, hi), d);
    RelabelPresentConserves(local, ccyOf, d);
  }

  /** Grouped currency columns, the pence label renamed, each multiplied by
      its currency's rate with NaN turned to 0 (`fillna(0)`, no forward fill). */
  function PriceGroups(g: seq<Column>, fx: Table, lo: int, hi: int): (r: seq<Column>)
    ensures |r| == |g|
    ensures forall j :: 0 <= j < |r| ==> r[j].name == GbxToGbp(g[j].name)
    ensures forall j :: 0 <= j < |r| ==>
      r[j].series == FillZero(Times(g[j].series, Aligned(fx, r[j].name, lo, hi)), lo, hi)
  {
    var grouped := Relabel(g, GbxLabel);
    seq(|grouped|, j requires 0 <= j < |grouped| =>
      Column(grouped[j].name, FillZero(Times(grouped[j].series, Aligned(fx, grouped[j].name, lo, hi)), lo, hi)))
  }

  /** On a day with a rate: the group's local value times the rate; on a day
      without one: 0. */
  lemma PriceGroupsValue(g: seq<Column>, fx: Table, lo: int, hi: int, j: int, d: int)
    requires lo <= d <= hi && 0 <= j < |g| && d in g[j].series
    ensures d in PriceGroups(g, fx, lo, hi)[j].series
    ensures var c := GbxToGbp(g[j].name);
      PriceGroups(g, fx, lo, hi)[j].series[d] ==
        if c in fx && d in fx[c] then Mul(g[j].series[d], fx[c][d]) else 0.0
  {
    var c := GbxToGbp(g[j].name);
    var rate := Aligned(fx, c, lo, hi);
    if c in fx && d in fx[c] {
      TimesAt(g[j].series, rate, d);
    }
  }

  /** The currency view: local values summed per currency, the pence label
      renamed, then either returned (`units_output`) or priced in CHF. */
  function CurrencyView(local: seq<Column>, ccyOf: string -> Option<string>, fx: Table, lo: int, hi: int, unitsOutput: bool): (r: seq<Column>)
    ensures unitsOutput ==> r == Relabel(CurrencyGroups(local, ccyOf, lo, hi), GbxLabel)
    ensures !unitsOutput ==> r == PriceGroups(CurrencyGroups(local, ccyOf, lo, hi), fx, lo, hi)
  {
    var g := CurrencyGroups(local, ccyOf, lo, hi);
    if unitsOutput then Relabel(g, GbxLabel) else PriceGroups(g, fx, lo, hi)
  }
}
