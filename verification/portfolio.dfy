/** `PortfolioService`: the four collection services combined, by asset
    class, by platform, by currency and in total. Every service reads the
    same calendar `lo..hi` (the cash-flow calendar), so the source's
    row-wise `concat(...).groupby(level=0).sum()` sums, per day, the columns
    of the four frames that share a label, NaN counting as 0. */
module Portfolio {
  import opened Wrappers
  import opened Seqs
  import opened Sorting
  import opened Frames
  import opened Balances
  import opened Valuation
  import opened Services

  /** The four ledger collections a portfolio is computed from. */
  datatype Ledgers = Ledgers(cashFlows: seq<LedgerRow>, securities: seq<QuotedRow>, cryptos: seq<LedgerRow>, fixedIncome: seq<QuotedRow>)

  /** The cleaned market data: FX rates, security prices, crypto prices. */
  datatype Market = Market(fx: Table, securityPrices: Table, cryptoPrices: Table)

  const AssetClasses: seq<string> := ["cash_flows", "cryptos", "securities", "fixed_income"]

  // ---------------------------------------------------------------------------
  // Frame arithmetic used below
  // ---------------------------------------------------------------------------

  lemma RowSumOfFour(c0: Column, c1: Column, c2: Column, c3: Column, d: int)
    ensures RowSum([c0, c1, c2, c3], d) == At(c0.series, d) + At(c1.series, d) + At(c2.series, d) + At(c3.series, d)
  {
    assert [c0, c1, c2, c3] == [c0] + [c1] + [c2] + [c3];
    RowSumConcat([c0] + [c1] + [c2], [c3], d);
    RowSumConcat([c0] + [c1], [c2], d);
    RowSumConcat([c0], [c1], d);
  }

  lemma RowSumOfParts(a: seq<Column>, b: seq<Column>, c: seq<Column>, e: seq<Column>, d: int)
    ensures RowSum(a + b + c + e, d) == RowSum(a, d) + RowSum(b, d) + RowSum(c, d) + RowSum(e, d)
  {
    RowSumConcat(a + b + c, e, d);
    RowSumConcat(a + b, c, d);
    RowSumConcat(a, b, d);
  }

  lemma LabelSumOfParts(a: seq<Column>, b: seq<Column>, c: seq<Column>, e: seq<Column>, l: string, d: int)
    ensures LabelSum(a + b + c + e, l, d) == LabelSum(a, l, d) + LabelSum(b, l, d) + LabelSum(c, l, d) + LabelSum(e, l, d)
  {
    LabelSumConcat(a + b + c, e, l, d);
    LabelSumConcat(a + b, c, l, d);
    LabelSumConcat(a, b, l, d);
  }

  lemma LabelSumOfThree(a: seq<Column>, b: seq<Column>, c: seq<Column>, l: string, d: int)
    ensures LabelSum(a + b + c, l, d) == LabelSum(a, l, d) + LabelSum(b, l, d) + LabelSum(c, l, d)
  {
    LabelSumConcat(a + b, c, l, d);
    LabelSumConcat(a, b, l, d);
  }

  /** Stacked frames grouped by label: each label's column is, day by day,
      the sum of the label sums of the parts. */
  lemma GroupOfFour(a: seq<Column>, b: seq<Column>, c: seq<Column>, e: seq<Column>, lo: int, hi: int)
    ensures var r := GroupSum(a + b + c + e, CalendarDays(lo, hi));
      forall j, d :: 0 <= j < |r| && lo <= d <= hi ==>
        r[j].series[d] == LabelSum(a, r[j].name, d) + LabelSum(b, r[j].name, d) + LabelSum(c, r[j].name, d) + LabelSum(e, r[j].name, d)
  {
    var r := GroupSum(a + b + c + e, CalendarDays(lo, hi));
    forall j, d | 0 <= j < |r| && lo <= d <= hi
      ensures r[j].series[d] == LabelSum(a, r[j].name, d) + LabelSum(b, r[j].name, d) + LabelSum(c, r[j].name, d) + LabelSum(e, r[j].name, d)
    {
      LabelSumOfParts(a, b, c, e, r[j].name, d);
    }
  }

  lemma GroupOfThree(a: seq<Column>, b: seq<Column>, c: seq<Column>, lo: int, hi: int)
    ensures var r := GroupSum(a + b + c, CalendarDays(lo, hi));
      forall j, d :: 0 <= j < |r| && lo <= d <= hi ==>
        r[j].series[d] == LabelSum(a, r[j].name, d) + LabelSum(b, r[j].name, d) + LabelSum(c, r[j].name, d)
  {
    var r := GroupSum(a + b + c, CalendarDays(lo, hi));
    forall j, d | 0 <= j < |r| && lo <= d <= hi
      ensures r[j].series[d] == LabelSum(a, r[j].name, d) + LabelSum(b, r[j].name, d) + LabelSum(c, r[j].name, d)
    {
      LabelSumOfThree(a, b, c, r[j].name, d);
    }
  }

  /** A service's share of a label in a grouped frame: the value of its
      column of that label, or 0 when it has none. */
  lemma ShareOfLabel(frame: seq<Column>, l: string, d: int)
    requires Distinct(Project(frame, LabelOf))
    ensures l !in Project(frame, LabelOf) ==> LabelSum(frame, l, d) == 0.0
    ensures forall j :: 0 <= j < |frame| && frame[j].name == l ==> LabelSum(frame, l, d) == At(frame[j].series, d)
  {
    if l !in Project(frame, LabelOf) {
      forall i | 0 <= i < |frame|
        ensures frame[i].name != l
      {
        assert Project(frame, LabelOf)[i] == frame[i].name;
      }
      LabelSumAbsent(frame, l, d);
    }
    forall j | 0 <= j < |frame| && frame[j].name == l
      ensures LabelSum(frame, l, d) == At(frame[j].series, d)
    {
      LabelSumSingle(frame, j, d);
    }
  }

  // ---------------------------------------------------------------------------
  // The services' account frames
  // ---------------------------------------------------------------------------

  /** What the portfolio reads from each service's account frame in CHF
      (`balance_by_platform_and_asset()`), from which the service's platform
      view and aggregate are built. */
  datatype Holdings = Holdings(cash: seq<Column>, cryptos: seq<Column>, securities: seq<Column>, fixedIncome: seq<Column>)

  /** The services' currency views (`balance_by_currency()`); cryptos have
      none. */
  datatype CurrencyViews = CurrencyViews(cash: seq<Column>, securities: seq<Column>, fixedIncome: seq<Column>)

  /** The account frames, built on demand by each portfolio view. The
      money-market account frame raises `KeyError` when an account's ISIN is
      not a key of the ledger's ISIN to currency dictionary (a missing
      currency is kept as a value and does not raise), so only the views
      built from the account frames fail. */
  function ServiceHoldings(l: Ledgers, m: Market, lo: int, hi: int): (r: Result<Holdings, ServiceError>)
    ensures r.Success? <==> !HasUnknownIsin(l.fixedIncome)
    ensures r.Success? ==> r.value.fixedIncome == FixedIncomeValued(l.fixedIncome, m.fx, lo, hi)
  {
    var fixedIncome :- FixedIncomeByAccount(l.fixedIncome, m.fx, lo, hi, false);
    Success(Holdings(
      CashByAccount(l.cashFlows, m.fx, lo, hi, false),
      CryptosByAccount(l.cryptos, m.cryptoPrices, m.fx, lo, hi, false),
      SecuritiesByAccount(l.securities, m.securityPrices, m.fx, lo, hi, false),
      fixedIncome))
  }

  /** The currency views never raise: the money-market one falls back to
      `'Unknown'` for an ISIN that is not a key of the dictionary. */
  function ServiceCurrencyViews(l: Ledgers, m: Market, lo: int, hi: int): CurrencyViews {
    CurrencyViews(
      CashByCurrency(l.cashFlows, m.fx, lo, hi, false),
      SecuritiesByCurrency(l.securities, m.securityPrices, m.fx, lo, hi, false),
      FixedIncomeByCurrency(l.fixedIncome, m.fx, lo, hi, false))
  }

  /** The day total of every account of every service. */
  function AccountsTotal(h: Holdings, d: int): real {
    RowSum(h.cash, d) + RowSum(h.cryptos, d) + RowSum(h.securities, d) + RowSum(h.fixedIncome, d)
  }

  // ---------------------------------------------------------------------------
  // balance_by_asset_class
  // ---------------------------------------------------------------------------

  /** `balance_by_asset_class()`: one column per asset class, each the
      service's `balance_aggregated()`, the row sum of its accounts. */
  function ByAssetClass(h: Holdings, lo: int, hi: int): (r: seq<Column>)
    ensures Project(r, LabelOf) == AssetClasses
    ensures forall k, d :: 0 <= k < |r| ==> (d in r[k].series <==> lo <= d <= hi)
    ensures forall d :: lo <= d <= hi ==>
      && r[0].series[d] == RowSum(h.cash, d)
      && r[1].series[d] == RowSum(h.cryptos, d)
      && r[2].series[d] == RowSum(h.securities, d)
      && r[3].series[d] == RowSum(h.fixedIncome, d)
  {
    var r := [Column(AssetClasses[0], Aggregated(h.cash, lo, hi)),
              Column(AssetClasses[1], Aggregated(h.cryptos, lo, hi)),
              Column(AssetClasses[2], Aggregated(h.securities, lo, hi)),
              Column(AssetClasses[3], Aggregated(h.fixedIncome, lo, hi))];
    assert Project(r, LabelOf) == AssetClasses;
    r
  }

  // ---------------------------------------------------------------------------
  // balance_by_platform and balance_total
  // ---------------------------------------------------------------------------

  /** The four services' `balance_by_platform()` views, stacked. */
  function PlatformFrames(h: Holdings, lo: int, hi: int): seq<Column> {
    ByPlatform(h.cash, lo, hi) + ByPlatform(h.cryptos, lo, hi) + ByPlatform(h.securities, lo, hi) + ByPlatform(h.fixedIncome, lo, hi)
  }

  /** `balance_by_platform()`: one column per platform any service has,
      holding on every calendar day the sum of the four services' values for
      that platform, a service without it counting 0. */
  function PortfolioByPlatform(h: Holdings, lo: int, hi: int): (r: seq<Column>)
    ensures Distinct(Project(r, LabelOf))
    ensures forall i :: 0 <= i < |PlatformFrames(h, lo, hi)| ==> PlatformFrames(h, lo, hi)[i].name in Project(r, LabelOf)
    ensures forall j, d :: 0 <= j < |r| ==> (d in r[j].series <==> lo <= d <= hi)
  {
    GroupSum(PlatformFrames(h, lo, hi), CalendarDays(lo, hi))
  }

  /** On every calendar day a platform's value is the sum of the four
      services' values for it. */
  lemma PlatformValue(h: Holdings, lo: int, hi: int)
    ensures var r := PortfolioByPlatform(h, lo, hi);
      forall j, d :: 0 <= j < |r| && lo <= d <= hi ==>
        r[j].series[d] ==
          LabelSum(ByPlatform(h.cash, lo, hi), r[j].name, d)
        + LabelSum(ByPlatform(h.cryptos, lo, hi), r[j].name, d)
        + LabelSum(ByPlatform(h.securities, lo, hi), r[j].name, d)
        + LabelSum(ByPlatform(h.fixedIncome, lo, hi), r[j].name, d)
  {
    GroupOfFour(ByPlatform(h.cash, lo, hi), ByPlatform(h.cryptos, lo, hi), ByPlatform(h.securities, lo, hi), ByPlatform(h.fixedIncome, lo, hi), lo, hi);
  }

  /** `balance_total()`: the row sum of the platform view. It is the sum of
      every account of every service: regrouping by platform loses and
      invents nothing. */
  function BalanceTotal(h: Holdings, lo: int, hi: int): (r: Series)
    ensures forall d :: d in r <==> lo <= d <= hi
    ensures forall d :: lo <= d <= hi ==> r[d] == AccountsTotal(h, d)
  {
    TotalsOfAccounts(h, lo, hi);
    DayTotals(PortfolioByPlatform(h, lo, hi), lo, hi)
  }

  /** The row sums of a frame over the calendar. */
  function DayTotals(cols: seq<Column>, lo: int, hi: int): (r: Series)
    ensures forall d :: d in r <==> lo <= d <= hi
    ensures forall d :: d in r ==> r[d] == RowSum(cols, d)
  {
    map d | d in CalendarDays(lo, hi) :: RowSum(cols, d)
  }

  lemma TotalsOfAccounts(h: Holdings, lo: int, hi: int)
    ensures forall d :: lo <= d <= hi ==> RowSum(PortfolioByPlatform(h, lo, hi), d) == AccountsTotal(h, d)
  {
    forall d | lo <= d <= hi
      ensures RowSum(PortfolioByPlatform(h, lo, hi), d) == AccountsTotal(h, d)
    {
      TotalOfAccounts(h, lo, hi, d);
    }
  }

  lemma TotalOfAccounts(h: Holdings, lo: int, hi: int, d: int)
    requires lo <= d <= hi
    ensures RowSum(GroupSum(PlatformFrames(h, lo, hi), CalendarDays(lo, hi)), d) == AccountsTotal(h, d)
  {
    PlatformGroupTotal(h, lo, hi, d);
    PlatformViewsConserve(h, lo, hi, d);
  }

  /** The grouped platform frame keeps the four services' day totals. */
  lemma PlatformGroupTotal(h: Holdings, lo: int, hi: int, d: int)
    requires lo <= d <= hi
    ensures RowSum(GroupSum(PlatformFrames(h, lo, hi), CalendarDays(lo, hi)), d)
         == RowSum(ByPlatform(h.cash, lo, hi), d) + RowSum(ByPlatform(h.cryptos, lo, hi), d)
          + RowSum(ByPlatform(h.securities, lo, hi), d) + RowSum(ByPlatform(h.fixedIncome, lo, hi), d)
  {
    var a, b, c, e := ByPlatform(h.cash, lo, hi), ByPlatform(h.cryptos, lo, hi), ByPlatform(h.securities, lo, hi), ByPlatform(h.fixedIncome, lo, hi);
    GroupOfPartsTotal(a, b, c, e, CalendarDays(lo, hi), d);
  }

  /** Grouping four stacked frames keeps the sum of their day totals. */
  lemma GroupOfPartsTotal(a: seq<Column>, b: seq<Column>, c: seq<Column>, e: seq<Column>, days: set<int>, d: int)
    requires d in days
    ensures RowSum(GroupSum(a + b + c + e, days), d) == RowSum(a, d) + RowSum(b, d) + RowSum(c, d) + RowSum(e, d)
  {
    GroupSumConserves(a + b + c + e, days, d);
    RowSumOfParts(a, b, c, e, d);
  }

  /** Each service's platform view keeps its day total. */
  lemma PlatformViewsConserve(h: Holdings, lo: int, hi: int, d: int)
    requires lo <= d <= hi
    ensures RowSum(ByPlatform(h.cash, lo, hi), d) + RowSum(ByPlatform(h.cryptos, lo, hi), d)
          + RowSum(ByPlatform(h.securities, lo, hi), d) + RowSum(ByPlatform(h.fixedIncome, lo, hi), d) == AccountsTotal(h, d)
  {
    ViewsConserve(h.cash, lo, hi, d);
    ViewsConserve(h.cryptos, lo, hi, d);
    ViewsConserve(h.securities, lo, hi, d);
    ViewsConserve(h.fixedIncome, lo, hi, d);
  }

  /** Conservation: on every calendar day the asset-class view adds up to
      the total. */
  lemma AssetClassesAddUp(h: Holdings, lo: int, hi: int, d: int)
    requires lo <= d <= hi
    ensures RowSum(ByAssetClass(h, lo, hi), d) == BalanceTotal(h, lo, hi)[d]
  {
    var cols := ByAssetClass(h, lo, hi);
    assert cols == [cols[0], cols[1], cols[2], cols[3]];
    RowSumOfFour(cols[0], cols[1], cols[2], cols[3], d);
  }

  // ---------------------------------------------------------------------------
  // balance_by_currency
  // ---------------------------------------------------------------------------

  /** Why `balance_by_currency()` raises: `pd.concat` of frames whose
      columns differ aligns each frame on the union of the labels, which a
      frame repeating a label cannot be (`InvalidIndexError`). */
  datatype PortfolioError = DuplicateColumns

  /** The three views have the same labels in the same order, so `concat`
      keeps the columns as they are. */
  predicate SameLabels(v: CurrencyViews) {
    Project(v.securities, LabelOf) == Project(v.cash, LabelOf) && Project(v.fixedIncome, LabelOf) == Project(v.cash, LabelOf)
  }

  /** Some view repeats a label: two groups `GBX` and `GBP` both read `GBP`
      after the pence rename. */
  predicate SomeDuplicate(v: CurrencyViews) {
    !Distinct(Project(v.cash, LabelOf)) || !Distinct(Project(v.securities, LabelOf)) || !Distinct(Project(v.fixedIncome, LabelOf))
  }

  /** Frames with identical columns, stacked and summed per day: column `j`
      of the result adds up column `j` of each view. */
  function PositionSums(v: CurrencyViews, lo: int, hi: int): (r: seq<Column>)
    requires SameLabels(v)
    ensures Project(r, LabelOf) == Project(v.cash, LabelOf)
    ensures |v.securities| == |r| && |v.fixedIncome| == |r|
    ensures forall j, d :: 0 <= j < |r| ==> (d in r[j].series <==> lo <= d <= hi)
    ensures forall j, d :: 0 <= j < |r| && lo <= d <= hi ==>
      r[j].series[d] == At(v.cash[j].series, d) + At(v.securities[j].series, d) + At(v.fixedIncome[j].series, d)
  {
    var n := |v.cash|;
    assert |Project(v.securities, LabelOf)| == n && |Project(v.fixedIncome, LabelOf)| == n;
    var r := seq(n, j requires 0 <= j < n =>
      Column(v.cash[j].name, map d | d in CalendarDays(lo, hi) :: At(v.cash[j].series, d) + At(v.securities[j].series, d) + At(v.fixedIncome[j].series, d)));
    assert Project(r, LabelOf) == Project(v.cash, LabelOf);
    r
  }

  /** With identical labels and none repeated, adding column by column is
      adding label by label. */
  lemma PositionSumsByLabel(v: CurrencyViews, lo: int, hi: int)
    requires SameLabels(v) && !SomeDuplicate(v)
    ensures var r := PositionSums(v, lo, hi);
      forall j, d :: 0 <= j < |r| && lo <= d <= hi ==>
        r[j].series[d] == LabelSum(v.cash, r[j].name, d) + LabelSum(v.securities, r[j].name, d) + LabelSum(v.fixedIncome, r[j].name, d)
  {
    var r := PositionSums(v, lo, hi);
    forall j, d | 0 <= j < |r| && lo <= d <= hi
      ensures r[j].series[d] == LabelSum(v.cash, r[j].name, d) + LabelSum(v.securities, r[j].name, d) + LabelSum(v.fixedIncome, r[j].name, d)
    {
      assert r[j].name == Project(r, LabelOf)[j] == v.cash[j].name;
      assert Project(v.securities, LabelOf)[j] == v.securities[j].name;
      assert Project(v.fixedIncome, LabelOf)[j] == v.fixedIncome[j].name;
      LabelSumSingle(v.cash, j, d);
      LabelSumSingle(v.securities, j, d);
      LabelSumSingle(v.fixedIncome, j, d);
    }
  }

  /** `balance_by_currency()`: the cash, securities and fixed-income currency
      views stacked and summed per calendar day; cryptos have no currency
      view and play no part. Views with the same labels are added column by
      column; otherwise columns are matched by label, which fails when a view
      repeats one. */
  function PortfolioByCurrency(v: CurrencyViews, lo: int, hi: int): (r: Result<seq<Column>, PortfolioError>)
    ensures r.Failure? <==> SomeDuplicate(v) && !SameLabels(v)
    ensures r.Success? ==> forall j, d :: 0 <= j < |r.value| ==> (d in r.value[j].series <==> lo <= d <= hi)
    ensures r.Success? && SameLabels(v) ==>
      && Project(r.value, LabelOf) == Project(v.cash, LabelOf)
      && |v.securities| == |r.value| && |v.fixedIncome| == |r.value|
      && forall j, d :: 0 <= j < |r.value| && lo <= d <= hi ==>
        r.value[j].series[d] == At(v.cash[j].series, d) + At(v.securities[j].series, d) + At(v.fixedIncome[j].series, d)
    ensures r.Success? && !SomeDuplicate(v) ==>
      && Distinct(Project(r.value, LabelOf))
      && forall j, d :: 0 <= j < |r.value| && lo <= d <= hi ==>
        r.value[j].series[d] == LabelSum(v.cash, r.value[j].name, d) + LabelSum(v.securities, r.value[j].name, d) + LabelSum(v.fixedIncome, r.value[j].name, d)
  {
    if SameLabels(v) then
      if !SomeDuplicate(v) then
        PositionSumsByLabel(v, lo, hi);
        Success(PositionSums(v, lo, hi))
      else
        Success(PositionSums(v, lo, hi))
    else if SomeDuplicate(v) then
      Failure(DuplicateColumns)
    else
      GroupOfThree(v.cash, v.securities, v.fixedIncome, lo, hi);
      Success(GroupSum(v.cash + v.securities + v.fixedIncome, CalendarDays(lo, hi)))
  }

  /** A securities view holding both a `GBX` and a `GBP` group shows two
      `GBP` columns, and next to a cash view without them the portfolio's
      currency view raises. */
  lemma PenceAndPoundsFail(cash: Series, pence: Series, pounds: Series, lo: int, hi: int)
    ensures PortfolioByCurrency(CurrencyViews([Column("CHF", cash)], [Column("GBP", pence), Column("GBP", pounds)], []), lo, hi)
         == Failure(DuplicateColumns)
  {
    var v := CurrencyViews([Column("CHF", cash)], [Column("GBP", pence), Column("GBP", pounds)], []);
    assert Project(v.securities, LabelOf)[0] == Project(v.securities, LabelOf)[1];
    assert |Project(v.securities, LabelOf)| != |Project(v.cash, LabelOf)|;
  }
}
