/** The four collection services (`CashFlowService`, `SecuritiesService`,
    `CryptoService`, `MoneyMarketService`): each turns its ledger's unit
    balances into CHF account columns and regroups them. The cleaned FX and
    price frames are inputs; the calendar `lo..hi` is the cash-flow
    calendar. Each service's account column is first defined per account
    (`CashColumn`, ...) and the frame is the list of those columns. */
module Services {
  import opened Wrappers
  import opened Seqs
  import opened Sorting
  import opened Frames
  import opened Balances
  import opened Valuation

  /** A ledger row together with the currency column its service reads
      (`quote_currency` for securities, `currency` for fixed income), `None`
      when NaN. */
  datatype QuotedRow = QuotedRow(entry: LedgerRow, currency: Option<string>)

  function EntryOf(r: QuotedRow): LedgerRow {
    r.entry
  }

  function PairOf(r: QuotedRow): (Option<string>, Option<string>) {
    (r.entry.ticker, r.currency)
  }

  /** The ledger rows without their currency. */
  function Entries(rows: seq<QuotedRow>): seq<LedgerRow> {
    Project(rows, EntryOf)
  }

  /** The ticker (or ISIN) to currency dictionary built from the ledger's
      distinct (ticker, currency) pairs. */
  function CurrencyMap(rows: seq<QuotedRow>): CurrencyDict {
    DedupedMap(Project(rows, PairOf))
  }

  /** Every ticker of the ledger is a key of the dictionary. */
  lemma CurrencyMapCovers(rows: seq<QuotedRow>, i: int)
    requires 0 <= i < |rows|
    ensures rows[i].entry.ticker in CurrencyMap(rows)
  {
    assert Project(rows, PairOf)[i].0 == rows[i].entry.ticker;
  }

  /** An account converted by a factor, read against the ledger: its balance
      on `k`, the last day up to `d` where the factor has a value, times that
      value `y`. */
  lemma AccountValue(rows: seq<LedgerRow>, a: string, f: Series, lo: int, hi: int, d: int, k: int, y: real)
    requires lo <= d <= hi
    requires LastKey(f, lo, d) == Some(k)
    requires f[k] == y
    ensures d in Convert(AccountColumn(rows, a, lo, hi), f, lo, hi) &&
      Convert(AccountColumn(rows, a, lo, hi), f, lo, hi)[d] == Mul(Expected(rows, a, lo, k), y)
  {
    AccountColumnCorrect(rows, a, lo, hi, k);
    ConvertScaled(AccountColumn(rows, a, lo, hi), f, lo, hi, d, k, Expected(rows, a, lo, k), y);
  }

  /** What an account's units are multiplied by, per service. */
  datatype Pricing =
    | CashRates(fx: Table)
    | SecurityPrices(prices: Table, fx: Table, m: CurrencyDict)
    | CryptoPrices(prices: Table, fx: Table)
    | IsinRates(m: CurrencyDict, fx: Table)

  /** The factor of account `a`: the rate of its currency for cash, price
      times quote-currency rate for securities and cryptos, the rate of the
      ISIN's currency for fixed income. */
  function Factor(p: Pricing, a: string, lo: int, hi: int): Series {
    match p
    case CashRates(fx) => Aligned(fx, AssetOf(a), lo, hi)
    case SecurityPrices(prices, fx, m) => SecurityFactor(prices, fx, m, a, lo, hi)
    case CryptoPrices(prices, fx) => CryptoFactor(prices, fx, a, lo, hi)
    case IsinRates(m, fx) => RateOf(fx, CurrencyOf(m, AssetOf(a)), lo, hi)
  }

  /** Every account column converted by its own factor. */
  function Valued(units: seq<Column>, p: Pricing, lo: int, hi: int): (r: seq<Column>)
    ensures |r| == |units|
    ensures Project(r, LabelOf) == Project(units, LabelOf)
    ensures forall i :: 0 <= i < |r| ==> r[i] == Column(units[i].name, Convert(units[i].series, Factor(p, units[i].name, lo, hi), lo, hi))
  {
    var r := seq(|units|, i requires 0 <= i < |units| => Column(units[i].name, Convert(units[i].series, Factor(p, units[i].name, lo, hi), lo, hi)));
    assert Project(r, LabelOf) == Project(units, LabelOf);
    r
  }

  /** An account column in CHF: its units times its factor, carried forward. */
  function PricedColumn(rows: seq<LedgerRow>, p: Pricing, a: string, lo: int, hi: int): Series {
    Convert(AccountColumn(rows, a, lo, hi), Factor(p, a, lo, hi), lo, hi)
  }

  /** `balance_by_platform_and_asset(units_output)`, shared by the services:
      the unit frame, or every account converted at its own factor. */
  function ByAccount(rows: seq<LedgerRow>, p: Pricing, lo: int, hi: int, unitsOutput: bool): (r: seq<Column>)
    ensures Project(r, LabelOf) == Accounts(rows)
    ensures forall j :: 0 <= j < |r| ==>
      r[j] == if unitsOutput then ColumnOf(rows, r[j].name, lo, hi) else Column(r[j].name, PricedColumn(rows, p, r[j].name, lo, hi))
  {
    var units := BalanceUnits(rows, lo, hi);
    if unitsOutput then units else Valued(units, p, lo, hi)
  }

  /** The price of a ticker on the calendar, 0 where missing (`fillna(0)`). */
  function PriceSeries(prices: Table, ticker: string, lo: int, hi: int): (r: Series)
    ensures forall d :: d in r <==> lo <= d <= hi
    ensures forall d :: d in r ==> r[d] == At(Aligned(prices, ticker, lo, hi), d)
  {
    FillZero(Aligned(prices, ticker, lo, hi), lo, hi)
  }

  /** A price (0 when missing) times a rate: the days with a value are the
      days with a rate, so the last such day is the rate's. */
  lemma PricedRate(price: Series, rate: Series, lo: int, hi: int, d: int, k: int, p: real, x: real)
    requires lo <= d <= hi
    requires forall e :: lo <= e <= hi ==> e in price
    requires LastKey(rate, lo, d) == Some(k)
    requires price[k] == p && rate[k] == x
    ensures LastKey(Times(price, rate), lo, d) == Some(k)
    ensures Times(price, rate)[k] == Mul(p, x)
  {
    forall e | lo <= e <= d
      ensures e in Times(price, rate) <==> e in rate
    {
    }
    LastKeyAgree(Times(price, rate), rate, lo, d);
    TimesAt(price, rate, k);
  }

  // ---------------------------------------------------------------------------
  // Cash flows
  // ---------------------------------------------------------------------------

  /** A cash account in CHF: converted at its own currency's rate. */
  function CashColumn(rows: seq<LedgerRow>, fx: Table, a: string, lo: int, hi: int): Series {
    PricedColumn(rows, CashRates(fx), a, lo, hi)
  }

  /** `CashFlowService.balance_by_platform_and_asset(units_output)`: one
      column per account, in units or in CHF. */
  function CashByAccount(rows: seq<LedgerRow>, fx: Table, lo: int, hi: int, unitsOutput: bool): (r: seq<Column>)
    ensures Project(r, LabelOf) == Accounts(rows)
    ensures forall j :: 0 <= j < |r| ==>
      r[j].series == if unitsOutput then AccountColumn(rows, r[j].name, lo, hi) else CashColumn(rows, fx, r[j].name, lo, hi)
  {
    ByAccount(rows, CashRates(fx), lo, hi, unitsOutput)
  }

  /** A cash account in CHF on day `d`: the account's amount on `k`, the last
      day up to `d` with a rate for its currency, at that day's rate. */
  lemma CashValue(rows: seq<LedgerRow>, fx: Table, a: string, lo: int, hi: int, d: int, k: int)
    requires lo <= d <= hi
    requires LastKey(Aligned(fx, AssetOf(a), lo, hi), lo, d) == Some(k)
    ensures AssetOf(a) in fx && k in fx[AssetOf(a)]
    ensures d in CashColumn(rows, fx, a, lo, hi) &&
      CashColumn(rows, fx, a, lo, hi)[d] == Mul(Expected(rows, a, lo, k), fx[AssetOf(a)][k])
  {
    assert Factor(CashRates(fx), a, lo, hi) == Aligned(fx, AssetOf(a), lo, hi);
    AccountValue(rows, a, Aligned(fx, AssetOf(a), lo, hi), lo, hi, d, k, fx[AssetOf(a)][k]);
  }

  /** Before the first day with a rate, a cash account is NaN (0 in sums). */
  lemma CashUnrated(rows: seq<LedgerRow>, fx: Table, a: string, lo: int, hi: int, d: int)
    requires lo <= d <= hi
    requires LastKey(Aligned(fx, AssetOf(a), lo, hi), lo, d).None?
    ensures d !in CashColumn(rows, fx, a, lo, hi)
  {
    assert Factor(CashRates(fx), a, lo, hi) == Aligned(fx, AssetOf(a), lo, hi);
    ConvertPresent(AccountColumn(rows, a, lo, hi), Aligned(fx, AssetOf(a), lo, hi), lo, hi, d);
  }

  /** `CashFlowService.balance_by_currency(units_output)`: accounts summed
      per currency. */
  function CashByCurrency(rows: seq<LedgerRow>, fx: Table, lo: int, hi: int, unitsOutput: bool): seq<Column> {
    ByAsset(CashByAccount(rows, fx, lo, hi, unitsOutput), lo, hi)
  }

  /** `CashFlowService.balance_by_platform()`. */
  function CashByPlatform(rows: seq<LedgerRow>, fx: Table, lo: int, hi: int): seq<Column> {
    ByPlatform(CashByAccount(rows, fx, lo, hi, false), lo, hi)
  }

  /** `CashFlowService.balance_aggregated()`. */
  function CashAggregated(rows: seq<LedgerRow>, fx: Table, lo: int, hi: int): Series {
    Aggregated(CashByAccount(rows, fx, lo, hi, false), lo, hi)
  }

  /** The currency view, the platform view and the aggregate of cash all add
      up to the same day total as the account columns. */
  lemma CashViewsAgree(rows: seq<LedgerRow>, fx: Table, lo: int, hi: int, d: int)
    requires lo <= d <= hi
    ensures RowSum(CashByCurrency(rows, fx, lo, hi, false), d) == RowSum(CashByAccount(rows, fx, lo, hi, false), d)
    ensures RowSum(CashByPlatform(rows, fx, lo, hi), d) == RowSum(CashByAccount(rows, fx, lo, hi, false), d)
    ensures CashAggregated(rows, fx, lo, hi)[d] == RowSum(CashByAccount(rows, fx, lo, hi, false), d)
  {
    ViewsConserve(CashByAccount(rows, fx, lo, hi, false), lo, hi, d);
  }

  // ---------------------------------------------------------------------------
  // Securities
  // ---------------------------------------------------------------------------

  /** A security's factor: its price (0 when missing) times the rate of its
      quote currency (`'Unknown'` when the ledger gives none). The source's
      `(units * price) * rate` is taken as `units * (price * rate)`. */
  function SecurityFactor(prices: Table, fx: Table, m: CurrencyDict, a: string, lo: int, hi: int): Series {
    Times(PriceSeries(prices, AssetOf(a), lo, hi), RateOf(fx, CurrencyOf(m, AssetOf(a)), lo, hi))
  }

  function SecurityColumn(rows: seq<QuotedRow>, prices: Table, fx: Table, a: string, lo: int, hi: int): Series {
    PricedColumn(Entries(rows), SecurityPrices(prices, fx, CurrencyMap(rows)), a, lo, hi)
  }

  /** `SecuritiesService.balance_by_platform_and_asset(units_output)`. */
  function SecuritiesByAccount(rows: seq<QuotedRow>, prices: Table, fx: Table, lo: int, hi: int, unitsOutput: bool): (r: seq<Column>)
    ensures Project(r, LabelOf) == Accounts(Entries(rows))
    ensures forall j :: 0 <= j < |r| ==>
      r[j].series == if unitsOutput then AccountColumn(Entries(rows), r[j].name, lo, hi) else SecurityColumn(rows, prices, fx, r[j].name, lo, hi)
  {
    ByAccount(Entries(rows), SecurityPrices(prices, fx, CurrencyMap(rows)), lo, hi, unitsOutput)
  }

  /** A security in CHF on day `d`: units held on `k`, the last day up to `d`
      with a rate for its quote currency, times that day's price (0 when
      missing) and rate. */
  lemma SecurityValue(rows: seq<QuotedRow>, prices: Table, fx: Table, a: string, lo: int, hi: int, d: int, k: int)
    requires lo <= d <= hi
    requires LastKey(RateOf(fx, CurrencyOf(CurrencyMap(rows), AssetOf(a)), lo, hi), lo, d) == Some(k)
    ensures Listed(fx, CurrencyOf(CurrencyMap(rows), AssetOf(a))) && k in fx[CurrencyOf(CurrencyMap(rows), AssetOf(a)).value]
    ensures d in SecurityColumn(rows, prices, fx, a, lo, hi) &&
      SecurityColumn(rows, prices, fx, a, lo, hi)[d] ==
      Mul(Expected(Entries(rows), a, lo, k), Mul(At(Aligned(prices, AssetOf(a), lo, hi), k), fx[CurrencyOf(CurrencyMap(rows), AssetOf(a)).value][k]))
  {
    var price := PriceSeries(prices, AssetOf(a), lo, hi);
    var rate := RateOf(fx, CurrencyOf(CurrencyMap(rows), AssetOf(a)), lo, hi);
    assert Factor(SecurityPrices(prices, fx, CurrencyMap(rows)), a, lo, hi) == Times(price, rate);
    var p, x := At(Aligned(prices, AssetOf(a), lo, hi), k), fx[CurrencyOf(CurrencyMap(rows), AssetOf(a)).value][k];
    PricedRate(price, rate, lo, hi, d, k, p, x);
    AccountValue(Entries(rows), a, Times(price, rate), lo, hi, d, k, Mul(p, x));
  }

  /** A security with no rate for its quote currency (for instance a pence
      `GBX` quote, which the FX frame never holds, or a NaN one) is NaN on every calendar
      day, so it adds nothing to the platform view or the totals. */
  lemma SecurityWithoutRate(rows: seq<QuotedRow>, prices: Table, fx: Table, a: string, lo: int, hi: int, d: int)
    requires lo <= d <= hi
    requires !Listed(fx, CurrencyOf(CurrencyMap(rows), AssetOf(a)))
    ensures d !in SecurityColumn(rows, prices, fx, a, lo, hi)
  {
    var p := SecurityPrices(prices, fx, CurrencyMap(rows));
    var rate := RateOf(fx, CurrencyOf(CurrencyMap(rows), AssetOf(a)), lo, hi);
    assert Factor(p, a, lo, hi) == Times(PriceSeries(prices, AssetOf(a), lo, hi), rate);
    NoRateNoValue(PriceSeries(prices, AssetOf(a), lo, hi), rate, lo, d);
    UnpricedColumn(Entries(rows), p, a, lo, hi, d);
  }

  /** A rate series with no value makes the product empty up to every day. */
  lemma NoRateNoValue(price: Series, rate: Series, lo: int, d: int)
    requires forall j :: j !in rate
    ensures LastKey(Times(price, rate), lo, d).None?
  {
  }

  /** Before the first day its factor has a value, an account is NaN. */
  lemma UnpricedColumn(rows: seq<LedgerRow>, p: Pricing, a: string, lo: int, hi: int, d: int)
    requires lo <= d <= hi
    requires LastKey(Factor(p, a, lo, hi), lo, d).None?
    ensures d !in PricedColumn(rows, p, a, lo, hi)
  {
    ConvertPresent(AccountColumn(rows, a, lo, hi), Factor(p, a, lo, hi), lo, hi, d);
  }

  /** An account in its quote currency: units times price, 0 where missing. */
  function LocalColumn(rows: seq<LedgerRow>, prices: Table, a: string, lo: int, hi: int): Column {
    Column(a, Times(AccountColumn(rows, a, lo, hi), PriceSeries(prices, AssetOf(a), lo, hi)))
  }

  /** `balance_units * prices_matrix.values`: securities in their quote
      currency, missing prices read as 0. */
  function SecuritiesLocal(rows: seq<QuotedRow>, prices: Table, lo: int, hi: int): (r: seq<Column>)
    ensures Project(r, LabelOf) == Accounts(Entries(rows))
    ensures forall j :: 0 <= j < |r| ==> r[j] == LocalColumn(Entries(rows), prices, r[j].name, lo, hi)
  {
    var es := Entries(rows);
    var accounts := Accounts(es);
    var r := Project(accounts, (a: string) => LocalColumn(es, prices, a, lo, hi));
    assert Project(r, LabelOf) == accounts;
    r
  }

  /** Labels a local column with its ticker's quote currency. */
  function QuoteCurrency(m: CurrencyDict, a: string): Option<string> {
    CurrencyOf(m, AssetOf(a))
  }

  function QuoteCurrencies(m: CurrencyDict): (f: string -> Option<string>)
    ensures forall a :: f(a) == QuoteCurrency(m, a)
  {
    a => QuoteCurrency(m, a)
  }

  /** `SecuritiesService.balance_by_currency(units_output)`. */
  function SecuritiesByCurrency(rows: seq<QuotedRow>, prices: Table, fx: Table, lo: int, hi: int, unitsOutput: bool): seq<Column> {
    var m := CurrencyMap(rows);
    CurrencyView(SecuritiesLocal(rows, prices, lo, hi), QuoteCurrencies(m), fx, lo, hi, unitsOutput)
  }

  /** `SecuritiesService.balance_by_asset()`, `balance_by_platform()`, `balance_aggregated()`. */
  function SecuritiesByAsset(rows: seq<QuotedRow>, prices: Table, fx: Table, lo: int, hi: int, unitsOutput: bool): (r: seq<Column>)
    ensures Distinct(Project(r, LabelOf))
    ensures forall d :: lo <= d <= hi ==> RowSum(r, d) == RowSum(SecuritiesByAccount(rows, prices, fx, lo, hi, unitsOutput), d)
  {
    var accounts := SecuritiesByAccount(rows, prices, fx, lo, hi, unitsOutput);
    forall d | lo <= d <= hi
      ensures RowSum(ByAsset(accounts, lo, hi), d) == RowSum(accounts, d)
    {
      ViewsConserve(accounts, lo, hi, d);
    }
    ByAsset(accounts, lo, hi)
  }

  function SecuritiesByPlatform(rows: seq<QuotedRow>, prices: Table, fx: Table, lo: int, hi: int): seq<Column> {
    ByPlatform(SecuritiesByAccount(rows, prices, fx, lo, hi, false), lo, hi)
  }

  function SecuritiesAggregated(rows: seq<QuotedRow>, prices: Table, fx: Table, lo: int, hi: int): Series {
    Aggregated(SecuritiesByAccount(rows, prices, fx, lo, hi, false), lo, hi)
  }

  // ---------------------------------------------------------------------------
  // Cryptos
  // ---------------------------------------------------------------------------

  const CryptoQuote: string := "USD"

  /** Crypto prices are in US dollars: price (0 when missing) times the USD rate. */
  function CryptoFactor(prices: Table, fx: Table, a: string, lo: int, hi: int): Series {
    Times(PriceSeries(prices, AssetOf(a), lo, hi), Aligned(fx, CryptoQuote, lo, hi))
  }

  function CryptoColumn(rows: seq<LedgerRow>, prices: Table, fx: Table, a: string, lo: int, hi: int): Series {
    PricedColumn(rows, CryptoPrices(prices, fx), a, lo, hi)
  }

  /** `CryptoService.balance_by_platform_and_asset(units_output)`. */
  function CryptosByAccount(rows: seq<LedgerRow>, prices: Table, fx: Table, lo: int, hi: int, unitsOutput: bool): (r: seq<Column>)
    ensures Project(r, LabelOf) == Accounts(rows)
    ensures forall j :: 0 <= j < |r| ==>
      r[j].series == if unitsOutput then AccountColumn(rows, r[j].name, lo, hi) else CryptoColumn(rows, prices, fx, r[j].name, lo, hi)
  {
    ByAccount(rows, CryptoPrices(prices, fx), lo, hi, unitsOutput)
  }

  /** A crypto account in CHF: units on `k`, the last day up to `d` with a
      USD rate, times that day's USD price and rate. */
  lemma CryptoValue(rows: seq<LedgerRow>, prices: Table, fx: Table, a: string, lo: int, hi: int, d: int, k: int)
    requires lo <= d <= hi
    requires LastKey(Aligned(fx, CryptoQuote, lo, hi), lo, d) == Some(k)
    ensures CryptoQuote in fx && k in fx[CryptoQuote]
    ensures d in CryptoColumn(rows, prices, fx, a, lo, hi) &&
      CryptoColumn(rows, prices, fx, a, lo, hi)[d] ==
      Mul(Expected(rows, a, lo, k), Mul(At(Aligned(prices, AssetOf(a), lo, hi), k), fx[CryptoQuote][k]))
  {
    var price := PriceSeries(prices, AssetOf(a), lo, hi);
    var rate := Aligned(fx, CryptoQuote, lo, hi);
    assert Factor(CryptoPrices(prices, fx), a, lo, hi) == Times(price, rate);
    var p, x := At(Aligned(prices, AssetOf(a), lo, hi), k), fx[CryptoQuote][k];
    PricedRate(price, rate, lo, hi, d, k, p, x);
    AccountValue(rows, a, Times(price, rate), lo, hi, d, k, Mul(p, x));
  }

  function CryptosByAsset(rows: seq<LedgerRow>, prices: Table, fx: Table, lo: int, hi: int, unitsOutput: bool): seq<Column> {
    ByAsset(CryptosByAccount(rows, prices, fx, lo, hi, unitsOutput), lo, hi)
  }

  function CryptosByPlatform(rows: seq<LedgerRow>, prices: Table, fx: Table, lo: int, hi: int): seq<Column> {
    ByPlatform(CryptosByAccount(rows, prices, fx, lo, hi, false), lo, hi)
  }

  function CryptosAggregated(rows: seq<LedgerRow>, prices: Table, fx: Table, lo: int, hi: int): Series {
    Aggregated(CryptosByAccount(rows, prices, fx, lo, hi, false), lo, hi)
  }

  // ---------------------------------------------------------------------------
  // Fixed income (money market)
  // ---------------------------------------------------------------------------

  /** `self.fx_dict[isin]` raising `KeyError`. */
  datatype ServiceError = UnknownIsin(isin: string)

  /** Every account's ISIN is a key of the ISIN to currency dictionary (its
      value may still be a missing currency). */
  predicate AllKnown(accounts: seq<string>, m: CurrencyDict) {
    forall i :: 0 <= i < |accounts| ==> Some(AssetOf(accounts[i])) in m
  }

  /** The ISIN of the first account that is not a key of the dictionary, if
      any. */
  function FirstUnknown(accounts: seq<string>, m: CurrencyDict): (r: Option<string>)
    ensures r.None? <==> AllKnown(accounts, m)
    ensures r.Some? ==> Some(r.value) !in m && exists i :: 0 <= i < |accounts| && AssetOf(accounts[i]) == r.value
  {
    if |accounts| == 0 then None
    else if Some(AssetOf(accounts[0])) !in m then Some(AssetOf(accounts[0]))
    else
      var rest := FirstUnknown(accounts[1..], m);
      assert forall i :: 1 <= i < |accounts| ==> accounts[i] == accounts[1..][i - 1];
      if rest.Some? then
        var i :| 0 <= i < |accounts[1..]| && AssetOf(accounts[1..][i]) == rest.value;
        assert AssetOf(accounts[i + 1]) == rest.value;
        rest
      else rest
  }

  /** A fixed-income position in CHF, at the rate of its ISIN's currency. */
  function FixedIncomeColumn(rows: seq<QuotedRow>, fx: Table, a: string, lo: int, hi: int): Series {
    PricedColumn(Entries(rows), IsinRates(CurrencyMap(rows), fx), a, lo, hi)
  }

  /** Some account of the ledger names an ISIN that is not a key of the
      ledger's ISIN to currency dictionary. */
  predicate HasUnknownIsin(rows: seq<QuotedRow>) {
    !AllKnown(Accounts(Entries(rows)), CurrencyMap(rows))
  }

  /** The fixed-income accounts in CHF, once every account ISIN is a key of the dictionary. */
  function FixedIncomeValued(rows: seq<QuotedRow>, fx: Table, lo: int, hi: int): (r: seq<Column>)
    ensures Project(r, LabelOf) == Accounts(Entries(rows))
  {
    ByAccount(Entries(rows), IsinRates(CurrencyMap(rows), fx), lo, hi, false)
  }

  /** Each column is its account's position in CHF. */
  lemma FixedIncomeColumns(rows: seq<QuotedRow>, fx: Table, lo: int, hi: int, j: int)
    requires 0 <= j < |FixedIncomeValued(rows, fx, lo, hi)|
    ensures FixedIncomeValued(rows, fx, lo, hi)[j].series == FixedIncomeColumn(rows, fx, FixedIncomeValued(rows, fx, lo, hi)[j].name, lo, hi)
  {
  }

  /** `MoneyMarketService.balance_by_platform_and_asset(units_output)`: in
      CHF, the first account ISIN that is not a key of the dictionary raises. */
  function FixedIncomeByAccount(rows: seq<QuotedRow>, fx: Table, lo: int, hi: int, unitsOutput: bool): (r: Result<seq<Column>, ServiceError>)
    ensures r.Failure? <==> !unitsOutput && HasUnknownIsin(rows)
    ensures r.Success? ==> r.value == if unitsOutput then BalanceUnits(Entries(rows), lo, hi) else FixedIncomeValued(rows, fx, lo, hi)
  {
    if unitsOutput then Success(BalanceUnits(Entries(rows), lo, hi))
    else
      var unknown := FirstUnknown(Accounts(Entries(rows)), CurrencyMap(rows));
      if unknown.Some? then Failure(UnknownIsin(unknown.value)) else Success(FixedIncomeValued(rows, fx, lo, hi))
  }

  /** The `KeyError` never happens when no platform name or ISIN carries the
      account separator: every account's second piece is an ISIN of the
      same ledger the dictionary was built from. */
  lemma FixedIncomeKnownIsins(rows: seq<QuotedRow>)
    requires forall i :: 0 <= i < |rows| && Account(rows[i].entry).Some? ==>
      CleanKey(rows[i].entry.platform.value, rows[i].entry.ticker.value)
    ensures !HasUnknownIsin(rows)
  {
    var entries := Entries(rows);
    forall i | 0 <= i < |entries| && Account(entries[i]).Some?
      ensures Some(AssetOf(Account(entries[i]).value)) in CurrencyMap(rows)
    {
      assert entries[i] == rows[i].entry;
      KnownIsin(rows, i);
    }
    AllKnownFromRows(Accounts(entries), entries, CurrencyMap(rows));
  }

  /** When every row's ISIN is a key of the dictionary, so is every account's. */
  lemma AllKnownFromRows(accounts: seq<string>, entries: seq<LedgerRow>, m: CurrencyDict)
    requires forall j :: 0 <= j < |accounts| ==> exists i :: 0 <= i < |entries| && Account(entries[i]) == Some(accounts[j])
    requires forall i :: 0 <= i < |entries| && Account(entries[i]).Some? ==> Some(AssetOf(Account(entries[i]).value)) in m
    ensures AllKnown(accounts, m)
  {
    forall j | 0 <= j < |accounts|
      ensures Some(AssetOf(accounts[j])) in m
    {
      var i :| 0 <= i < |entries| && Account(entries[i]) == Some(accounts[j]);
    }
  }

  /** A row's account label reads back its own ISIN, which the dictionary holds. */
  lemma KnownIsin(rows: seq<QuotedRow>, i: int)
    requires 0 <= i < |rows|
    requires Account(rows[i].entry).Some?
    requires CleanKey(rows[i].entry.platform.value, rows[i].entry.ticker.value)
    ensures Some(AssetOf(Account(Entries(rows)[i]).value)) in CurrencyMap(rows)
  {
    assert Entries(rows)[i] == rows[i].entry;
    AccountLabels(rows[i].entry.platform.value, rows[i].entry.ticker.value);
    CurrencyMapCovers(rows, i);
  }

  /** A fixed-income position in CHF on day `d`: the amount on `k`, the last
      day up to `d` with a rate for its currency, at that day's rate. */
  lemma FixedIncomeValue(rows: seq<QuotedRow>, fx: Table, a: string, lo: int, hi: int, d: int, k: int)
    requires lo <= d <= hi
    requires LastKey(RateOf(fx, CurrencyOf(CurrencyMap(rows), AssetOf(a)), lo, hi), lo, d) == Some(k)
    ensures Listed(fx, CurrencyOf(CurrencyMap(rows), AssetOf(a))) && k in fx[CurrencyOf(CurrencyMap(rows), AssetOf(a)).value]
    ensures d in FixedIncomeColumn(rows, fx, a, lo, hi) &&
      FixedIncomeColumn(rows, fx, a, lo, hi)[d] == Mul(Expected(Entries(rows), a, lo, k), fx[CurrencyOf(CurrencyMap(rows), AssetOf(a)).value][k])
  {
    var rate := RateOf(fx, CurrencyOf(CurrencyMap(rows), AssetOf(a)), lo, hi);
    assert Factor(IsinRates(CurrencyMap(rows), fx), a, lo, hi) == rate;
    AccountValue(Entries(rows), a, rate, lo, hi, d, k, fx[CurrencyOf(CurrencyMap(rows), AssetOf(a)).value][k]);
  }

  /** `MoneyMarketService.balance_by_currency(units_output)`: amounts (price
      1) summed per currency, `'Unknown'` for an ISIN that is not a key. */
  function FixedIncomeByCurrency(rows: seq<QuotedRow>, fx: Table, lo: int, hi: int, unitsOutput: bool): seq<Column> {
    var m := CurrencyMap(rows);
    CurrencyView(BalanceUnits(Entries(rows), lo, hi), QuoteCurrencies(m), fx, lo, hi, unitsOutput)
  }

  function FixedIncomeByAsset(rows: seq<QuotedRow>, fx: Table, lo: int, hi: int, unitsOutput: bool): Result<seq<Column>, ServiceError> {
    var r :- FixedIncomeByAccount(rows, fx, lo, hi, unitsOutput);
    Success(ByAsset(r, lo, hi))
  }

  function FixedIncomeByPlatform(rows: seq<QuotedRow>, fx: Table, lo: int, hi: int): Result<seq<Column>, ServiceError> {
    var r :- FixedIncomeByAccount(rows, fx, lo, hi, false);
    Success(ByPlatform(r, lo, hi))
  }

  function FixedIncomeAggregated(rows: seq<QuotedRow>, fx: Table, lo: int, hi: int): Result<Series, ServiceError> {
    var r :- FixedIncomeByAccount(rows, fx, lo, hi, false);
    Success(Aggregated(r, lo, hi))
  }
}
