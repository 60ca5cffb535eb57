/** The Interactive Brokers adapter (`ibkr_data_extract.py`): the cash
    sheet, the executions sheet turned into a securities ledger, the two
    cash legs of each currency trade, the cash side of each stock trade and
    the dividends. */
module Ibkr {
  import opened Wrappers
  import opened Text
  import opened Seqs
  import opened Sums
  import opened Adapter

  const Platform := "Interactive Brokers"

  /** A line of the `cash_flows` or `ibkr_dividends` sheet. */
  datatype CashRow = CashRow(date: real, currency: string, description: Option<string>, amount: real)

  /** A line of the `ibkr_secu_flow` sheet: `Date/Time, Symbol, Quantity,
      Currency, Asset Category, Comm/Fee, T. Price, Proceeds`. */
  datatype Execution = Execution(date: real, symbol: string, quantity: real, currency: string,
                                 category: string, fee: real, price: real, proceeds: real)

  /** A securities-ledger line; `proceeds` is the `Proceeds` column the
      ledger keeps for the cash side. */
  datatype Trade = Trade(date: real, kind: string, units: real, platform: string, ticker: string,
                         quoteCurrency: string, assetClass: string, fees: real, amount: real, proceeds: real)

  const Amounts: CashFlow -> real := (c: CashFlow) => c.amount

  // ---------------------------------------------------------------------------
  // Cash sheet (cash_flow_prep)
  // ---------------------------------------------------------------------------

  const NotTotal: CashRow -> bool := (c: CashRow) => c.currency != "Total"
  const RowAmount: CashRow -> real := (c: CashRow) => c.amount

  function TransferOf(c: CashRow): CashFlow {
    CashFlow(c.date, "Transfer", "Variable", c.amount, Platform, Some(c.currency), c.description, "Cash")
  }

  /** `cash_flow_prep`: the sheet without its `Total` lines, each line a
      transfer of its amount in its currency. */
  function CashFlows(rows: seq<CashRow>): (r: seq<CashFlow>)
    ensures |r| == |Filter(rows, NotTotal)|
    ensures forall j :: 0 <= j < |r| ==> r[j].currency != Some("Total") && r[j].kind == "Transfer"
    ensures Total(r, Amounts) == SumIf(rows, NotTotal, RowAmount)
    decreases |rows|
  {
    if |rows| == 0 then []
    else
      var rest := CashFlows(rows[1..]);
      if NotTotal(rows[0]) then
        assert ([TransferOf(rows[0])] + rest)[1..] == rest;
        [TransferOf(rows[0])] + rest
      else rest
  }

  // ---------------------------------------------------------------------------
  // Executions (securities_ledger_prep)
  // ---------------------------------------------------------------------------

  /** One execution as a ledger line: negative proceeds mean a buy; a sell's
      units and a buy's price change sign; `Stocks` is renamed `Equity`. */
  function LedgerLine(e: Execution): (t: Trade)
    ensures t.kind == "buy" <==> e.proceeds < 0.0
    ensures t.kind == "sell" <==> e.proceeds >= 0.0
    ensures t.units == (if e.proceeds < 0.0 then e.quantity else -e.quantity)
    ensures t.amount == (if e.proceeds < 0.0 then -e.price else e.price)
    ensures t.assetClass == "Equity" <==> e.category == "Stocks" || e.category == "Equity"
    ensures t.proceeds == e.proceeds && t.fees == e.fee && t.ticker == e.symbol && t.quoteCurrency == e.currency
  {
    var kind := if e.proceeds < 0.0 then "buy" else "sell";
    Trade(e.date, kind, if kind == "sell" then -e.quantity else e.quantity, Platform, e.symbol, e.currency,
          if e.category == "Stocks" then "Equity" else e.category, e.fee, if kind == "buy" then -e.price else e.price,
          e.proceeds)
  }

  /** `securities_ledger_prep`: every execution as a ledger line, in order. */
  function SecuritiesLedger(execs: seq<Execution>): (r: seq<Trade>)
    ensures |r| == |execs|
    ensures forall i :: 0 <= i < |execs| ==> r[i] == LedgerLine(execs[i])
  {
    seq(|execs|, i requires 0 <= i < |execs| => LedgerLine(execs[i]))
  }

  const Units: Trade -> real := (t: Trade) => t.units
  const Quantity: Execution -> real := (e: Execution) => e.quantity
  const Bought: Execution -> bool := (e: Execution) => e.proceeds < 0.0
  const Sold: Execution -> bool := (e: Execution) => e.proceeds >= 0.0

  /** The ledger's units add up to the quantity bought less the quantity
      sold. */
  lemma {:induction false} LedgerUnits(execs: seq<Execution>)
    ensures Total(SecuritiesLedger(execs), Units) == SumIf(execs, Bought, Quantity) - SumIf(execs, Sold, Quantity)
    decreases |execs|
  {
    if |execs| > 0 {
      LedgerUnits(execs[1..]);
      assert SecuritiesLedger(execs)[1..] == SecuritiesLedger(execs[1..]);
    }
  }

  // ---------------------------------------------------------------------------
  // Currency trades (fx_balancing)
  // ---------------------------------------------------------------------------

  const IsForex: Trade -> bool := (t: Trade) => t.assetClass == "Forex"

  /** The bought currency of a pair such as `EUR.USD`: the part before `.`. */
  function BaseCurrency(t: Trade): string {
    BeforeSep(t.ticker, ".")
  }

  function FxDescription(t: Trade, fmt: real -> string): string {
    t.kind + " " + fmt(t.units) + " " + BaseCurrency(t) + " with " + t.quoteCurrency
  }

  /** The first leg: the proceeds and the fee, in the quote currency. */
  function QuoteLeg(t: Trade, fmt: real -> string): CashFlow {
    CashFlow(t.date, "Transfer", "Variable", t.proceeds + t.fees, t.platform, Some(t.quoteCurrency),
             Some(FxDescription(t, fmt)), "Cash")
  }

  /** The second leg: the units, in the base currency. */
  function BaseLeg(t: Trade, fmt: real -> string): CashFlow {
    CashFlow(t.date, "Transfer", "Variable", t.units, t.platform, Some(BaseCurrency(t)),
             Some(FxDescription(t, fmt)), "Cash")
  }

  function QuoteLegs(ts: seq<Trade>, fmt: real -> string): (r: seq<CashFlow>)
    ensures |r| == |ts|
    ensures forall i :: 0 <= i < |ts| ==> r[i] == QuoteLeg(ts[i], fmt)
    decreases |ts|
  {
    if |ts| == 0 then [] else [QuoteLeg(ts[0], fmt)] + QuoteLegs(ts[1..], fmt)
  }

  function BaseLegs(ts: seq<Trade>, fmt: real -> string): (r: seq<CashFlow>)
    ensures |r| == |ts|
    ensures forall i :: 0 <= i < |ts| ==> r[i] == BaseLeg(ts[i], fmt)
    decreases |ts|
  {
    if |ts| == 0 then [] else [BaseLeg(ts[0], fmt)] + BaseLegs(ts[1..], fmt)
  }

  /** The legs of the `Forex` lines of the ledger: all the quote legs and
      then all the base legs, so that leg `i` and leg `i + n` settle the
      same trade. */
  function FxLegs(ledger: seq<Trade>, fmt: real -> string): (r: seq<CashFlow>)
    ensures var fx := Filter(ledger, IsForex);
      && |r| == 2 * |fx|
      && forall i :: 0 <= i < |fx| ==> r[i] == QuoteLeg(fx[i], fmt) && r[i + |fx|] == BaseLeg(fx[i], fmt)
  {
    var fx := Filter(ledger, IsForex);
    QuoteLegs(fx, fmt) + BaseLegs(fx, fmt)
  }

  /** Why the extraction raises: with no `Forex` line, splitting the empty
      ticker column gives a frame without columns, and taking its first
      column (`iloc[:, 0]`) raises `IndexError`. */
  datatype IbkrError = NoForexLine

  /** `fx_balancing`: the legs of the currency trades; it raises when the
      ledger has none. */
  function FxBalancing(ledger: seq<Trade>, fmt: real -> string): (r: Result<seq<CashFlow>, IbkrError>)
    ensures r.Failure? <==> |Filter(ledger, IsForex)| == 0
    ensures r.Success? ==> var fx := Filter(ledger, IsForex);
      && |r.value| == 2 * |fx|
      && forall i :: 0 <= i < |fx| ==> r.value[i] == QuoteLeg(fx[i], fmt) && r.value[i + |fx|] == BaseLeg(fx[i], fmt)
  {
    if |Filter(ledger, IsForex)| == 0 then Failure(NoForexLine) else Success(FxLegs(ledger, fmt))
  }

  /** The two legs of one currency trade: same date and description, one
      in the quote currency carrying the proceeds and the fee, one in the
      bought currency carrying the units. */
  lemma TradeLegs(t: Trade, fmt: real -> string)
    ensures QuoteLeg(t, fmt).date == BaseLeg(t, fmt).date == t.date
    ensures QuoteLeg(t, fmt).description == BaseLeg(t, fmt).description
    ensures QuoteLeg(t, fmt).currency == Some(t.quoteCurrency) && QuoteLeg(t, fmt).amount == t.proceeds + t.fees
    ensures BaseLeg(t, fmt).currency == Some(BaseCurrency(t)) && BaseLeg(t, fmt).amount == t.units
    ensures !Contains(t.ticker, ".") ==> BaseLeg(t, fmt).currency == Some(t.ticker)
  {
  }

  /** The cash flows booked in `c`. */
  function InCurrency(c: string): CashFlow -> bool {
    (f: CashFlow) => f.currency == Some(c)
  }

  function QuotedIn(c: string): Trade -> bool {
    (t: Trade) => t.quoteCurrency == c
  }

  function BoughtIn(c: string): Trade -> bool {
    (t: Trade) => BaseCurrency(t) == c
  }

  const Settled: Trade -> real := (t: Trade) => t.proceeds + t.fees

  lemma {:induction false} QuoteLegsIn(ts: seq<Trade>, fmt: real -> string, c: string)
    ensures SumIf(QuoteLegs(ts, fmt), InCurrency(c), Amounts) == SumIf(ts, QuotedIn(c), Settled)
    decreases |ts|
  {
    if |ts| > 0 {
      QuoteLegsIn(ts[1..], fmt, c);
      assert QuoteLegs(ts, fmt)[1..] == QuoteLegs(ts[1..], fmt);
    }
  }

  lemma {:induction false} BaseLegsIn(ts: seq<Trade>, fmt: real -> string, c: string)
    ensures SumIf(BaseLegs(ts, fmt), InCurrency(c), Amounts) == SumIf(ts, BoughtIn(c), Units)
    decreases |ts|
  {
    if |ts| > 0 {
      BaseLegsIn(ts[1..], fmt, c);
      assert BaseLegs(ts, fmt)[1..] == BaseLegs(ts[1..], fmt);
    }
  }

  /** In every currency, the legs move exactly what the currency trades
      paid in it (proceeds and fees) plus what they bought of it (units). */
  lemma FxBalancingPerCurrency(ledger: seq<Trade>, fmt: real -> string, c: string)
    ensures var fx := Filter(ledger, IsForex);
      SumIf(FxLegs(ledger, fmt), InCurrency(c), Amounts)
        == SumIf(fx, QuotedIn(c), Settled) + SumIf(fx, BoughtIn(c), Units)
  {
    var fx := Filter(ledger, IsForex);
    SumIfConcat(QuoteLegs(fx, fmt), BaseLegs(fx, fmt), InCurrency(c), Amounts);
    QuoteLegsIn(fx, fmt, c);
    BaseLegsIn(fx, fmt, c);
  }

  // ---------------------------------------------------------------------------
  // Cash side of the stock trades (cash_balancing)
  // ---------------------------------------------------------------------------

  /** The description `cash_balancing` writes once `type` has already been
      overwritten with `Transfer`. */
  function CashDescription(t: Trade, fmt: real -> string): string {
    "Transfer " + fmt(t.units) + " units of " + t.ticker
  }

  /** The amount as written: the proceeds count positively for a buy and
      negatively for a sell, and the fee is added. */
  function AsWrittenAmount(t: Trade): real {
    ((if t.kind == "buy" then 1.0 else 0.0) - (if t.kind == "sell" then 1.0 else 0.0)) * t.proceeds + t.fees
  }

  /** The amount a trade moves on the cash account: the proceeds, already
      negative for a buy and positive for a sell, plus the fee. */
  function SettledAmount(t: Trade): real {
    t.proceeds + t.fees
  }

  function CashLegAsWritten(t: Trade, fmt: real -> string): CashFlow {
    CashFlow(t.date, "Transfer", "Variable", AsWrittenAmount(t), t.platform, Some(t.quoteCurrency),
             Some(CashDescription(t, fmt)), "Cash")
  }

  function CashLeg(t: Trade, fmt: real -> string): CashFlow {
    CashFlow(t.date, "Transfer", "Variable", SettledAmount(t), t.platform, Some(t.quoteCurrency),
             Some(CashDescription(t, fmt)), "Cash")
  }

  /** `cash_balancing` as written: one cash line per ledger line. */
  function CashBalancingAsWritten(ledger: seq<Trade>, fmt: real -> string): (r: seq<CashFlow>)
    ensures |r| == |ledger|
    ensures forall i :: 0 <= i < |ledger| ==> r[i] == CashLegAsWritten(ledger[i], fmt)
  {
    seq(|ledger|, i requires 0 <= i < |ledger| => CashLegAsWritten(ledger[i], fmt))
  }

  /** As written, a sale takes cash out: selling for 100 with a fee of 1
      books -101 where the account receives 99. */
  lemma SaleDrainsCash()
    ensures var t := LedgerLine(Execution(0.0, "AAPL", 1.0, "USD", "Stocks", -1.0, 100.0, 100.0));
      && t.kind == "sell"
      && AsWrittenAmount(t) == -101.0
      && SettledAmount(t) == 99.0
  {
  }

  /** The two versions agree on buys and differ by twice the proceeds on
      sells. */
  lemma AsWrittenAgainstSettled(t: Trade)
    requires t.kind == "buy" || t.kind == "sell"
    ensures t.kind == "buy" ==> AsWrittenAmount(t) == SettledAmount(t)
    ensures t.kind == "sell" ==> AsWrittenAmount(t) == SettledAmount(t) - 2.0 * t.proceeds
  {
  }

  const AsWritten: Trade -> real := (t: Trade) => AsWrittenAmount(t)

  /** As written, the cash lines of a currency add up to the as-written
      amounts of its trades, not to what they settled. */
  lemma {:induction false} CashBalancingAsWrittenPerCurrency(ledger: seq<Trade>, fmt: real -> string, c: string)
    ensures SumIf(CashBalancingAsWritten(ledger, fmt), InCurrency(c), Amounts) == SumIf(ledger, QuotedIn(c), AsWritten)
    decreases |ledger|
  {
    if |ledger| > 0 {
      CashBalancingAsWrittenPerCurrency(ledger[1..], fmt, c);
      assert CashBalancingAsWritten(ledger, fmt)[1..] == CashBalancingAsWritten(ledger[1..], fmt);
    }
  }

  /** `cash_balancing` with each line settling its trade. */
  function CashBalancing(ledger: seq<Trade>, fmt: real -> string): (r: seq<CashFlow>)
    ensures |r| == |ledger|
    ensures forall i :: 0 <= i < |ledger| ==>
      r[i].date == ledger[i].date && r[i].currency == Some(ledger[i].quoteCurrency) && r[i].kind == "Transfer"
    decreases |ledger|
  {
    if |ledger| == 0 then [] else [CashLeg(ledger[0], fmt)] + CashBalancing(ledger[1..], fmt)
  }

  /** The cash lines of a currency add up to what its trades settled. */
  lemma {:induction false} CashBalancingPerCurrency(ledger: seq<Trade>, fmt: real -> string, c: string)
    ensures SumIf(CashBalancing(ledger, fmt), InCurrency(c), Amounts) == SumIf(ledger, QuotedIn(c), Settled)
    decreases |ledger|
  {
    if |ledger| > 0 {
      CashBalancingPerCurrency(ledger[1..], fmt, c);
      assert CashBalancing(ledger, fmt)[1..] == CashBalancing(ledger[1..], fmt);
    }
  }

  /** A sale with a fee no larger than its proceeds brings cash in; a buy
      with a non-positive fee takes cash out. */
  lemma CashLegDirection(e: Execution, fmt: real -> string)
    ensures var t := LedgerLine(e);
      && (e.proceeds >= 0.0 && e.fee <= 0.0 && -e.fee <= e.proceeds ==> CashLeg(t, fmt).amount >= 0.0)
      && (e.proceeds < 0.0 && e.fee <= 0.0 ==> CashLeg(t, fmt).amount < 0.0)
  {
  }

  // ---------------------------------------------------------------------------
  // Dividends (dividends_prep)
  // ---------------------------------------------------------------------------

  const NoTotal: CashRow -> bool := (c: CashRow) => !Contains(c.currency, "Total")

  function InflowOf(c: CashRow): CashFlow {
    CashFlow(c.date, "Inflow", "Variable", c.amount, Platform, Some(c.currency), c.description, "Cash")
  }

  /** `dividends_prep`: the lines whose currency does not mention `Total`,
      each an inflow. */
  function Dividends(rows: seq<CashRow>): (r: seq<CashFlow>)
    ensures |r| == |Filter(rows, NoTotal)|
    ensures forall j :: 0 <= j < |r| ==> r[j].kind == "Inflow" && r[j].currency.Some? && !Contains(r[j].currency.value, "Total")
    ensures Total(r, Amounts) == SumIf(rows, NoTotal, RowAmount)
    decreases |rows|
  {
    if |rows| == 0 then []
    else
      var rest := Dividends(rows[1..]);
      if NoTotal(rows[0]) then
        assert ([InflowOf(rows[0])] + rest)[1..] == rest;
        [InflowOf(rows[0])] + rest
      else rest
  }

  // ---------------------------------------------------------------------------
  // main
  // ---------------------------------------------------------------------------

  /** The five ledgers `main` hands over, in its order. */
  datatype IbkrRun = IbkrRun(cashFlows: seq<CashFlow>, fx: seq<CashFlow>, securities: seq<Trade>,
                             cashBalancing: seq<CashFlow>, dividends: seq<CashFlow>)

  const IsEquity: Trade -> bool := (t: Trade) => t.assetClass == "Equity"

  /** `main` as written: the currency legs come from every execution, the
      securities ledger and its cash side from the equity lines only, the
      cash side booked with `(buy − sell) × Proceeds + fees`. It raises in
      `fx_balancing` when no execution is a currency trade. */
  function Extract(cash: seq<CashRow>, execs: seq<Execution>, divs: seq<CashRow>, fmt: real -> string): (r: Result<IbkrRun, IbkrError>)
    ensures r.Failure? <==> |Filter(SecuritiesLedger(execs), IsForex)| == 0
    ensures r.Success? ==> forall t :: t in r.value.securities ==> t.assetClass == "Equity"
    ensures r.Success? ==> r.value.cashBalancing == CashBalancingAsWritten(r.value.securities, fmt)
    ensures r.Success? ==> forall c :: SumIf(r.value.cashBalancing, InCurrency(c), Amounts) == SumIf(r.value.securities, QuotedIn(c), AsWritten)
  {
    var ledger := SecuritiesLedger(execs);
    var equity := Filter(ledger, IsEquity);
    forall c
      ensures SumIf(CashBalancingAsWritten(equity, fmt), InCurrency(c), Amounts) == SumIf(equity, QuotedIn(c), AsWritten)
    {
      CashBalancingAsWrittenPerCurrency(equity, fmt, c);
    }
    var fx :- FxBalancing(ledger, fmt);
    Success(IbkrRun(CashFlows(cash), fx, equity, CashBalancingAsWritten(equity, fmt), Dividends(divs)))
  }

  /** `main` with the corrected `cash_balancing`: each currency's cash lines
      settle its trades. It still raises when no execution is a currency
      trade. */
  function CorrectedExtract(cash: seq<CashRow>, execs: seq<Execution>, divs: seq<CashRow>, fmt: real -> string): (r: Result<IbkrRun, IbkrError>)
    ensures r.Failure? <==> |Filter(SecuritiesLedger(execs), IsForex)| == 0
    ensures r.Success? ==> forall t :: t in r.value.securities ==> t.assetClass == "Equity"
    ensures r.Success? ==> |r.value.cashBalancing| == |r.value.securities|
    ensures r.Success? ==> forall c :: SumIf(r.value.cashBalancing, InCurrency(c), Amounts) == SumIf(r.value.securities, QuotedIn(c), Settled)
  {
    var ledger := SecuritiesLedger(execs);
    var equity := Filter(ledger, IsEquity);
    forall c
      ensures SumIf(CashBalancing(equity, fmt), InCurrency(c), Amounts) == SumIf(equity, QuotedIn(c), Settled)
    {
      CashBalancingPerCurrency(equity, fmt, c);
    }
    var fx :- FxBalancing(ledger, fmt);
    Success(IbkrRun(CashFlows(cash), fx, equity, CashBalancing(equity, fmt), Dividends(divs)))
  }

  /** The as-written and corrected runs fail alike and differ only in the
      cash side of the trades. */
  lemma ExtractAgainstCorrected(cash: seq<CashRow>, execs: seq<Execution>, divs: seq<CashRow>, fmt: real -> string)
    ensures var a, b := Extract(cash, execs, divs, fmt), CorrectedExtract(cash, execs, divs, fmt);
      && (a.Success? <==> b.Success?)
      && (a.Success? ==> a.value.(cashBalancing := b.value.cashBalancing) == b.value)
  {
  }
}
