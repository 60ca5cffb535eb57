/** The eToro adapter (`etoro_data_extract.py`): deposits, trades, the
    stock-split corrections, the cash side of each trade and the dividends,
    all read from the lines of the "Account Activity" sheet. */
module Etoro {
  import opened Wrappers
  import opened Text
  import opened Seqs
  import opened Sums
  import opened Adapter

  /** One line of the account-activity sheet, with its date already parsed. */
  datatype Activity = Activity(date: real, kind: string, details: string, amount: real, units: real)

  /** A securities-ledger line: `date, type, units, platform, ticker,
      quote_currency, asset_class`. `amount` is the trade's `Amount`, which
      only the cash side reads (a split correction has none and carries 0). */
  datatype Trade = Trade(date: real, kind: string, units: real, platform: string, ticker: string,
                         quoteCurrency: Option<string>, assetClass: string, amount: real)

  datatype EtoroError =
    | SplitWidth       // `str.split(sep, expand=True)` does not give the two columns it is assigned to
    | LengthMismatch   // a corrected ticker is NaN, so the ticker list is shorter than the frame
    | BadRatio         // the split ratio is missing, has no `:`, or `int()` rejects a part of it
    | ZeroRatio        // the ratio's second number is 0
    | NoQuoteCurrency  // the split's pair has no `/`

  // ---------------------------------------------------------------------------
  // Splitting a text column into two
  // ---------------------------------------------------------------------------

  /** `df[[a, b]] = series.str.split(sep, expand=True)`: it takes exactly two
      columns, so no value may split into three pieces and some value must
      split into two; an empty selection splits into no column at all and
      fails too. A value without the separator gets NaN in the second
      column. */
  function SplitPairs(ds: seq<string>, sep: string): (r: Result<seq<(string, Option<string>)>, EtoroError>)
    requires |sep| > 0
    ensures r.Success? <==>
      (forall i :: 0 <= i < |ds| ==> |Split(ds[i], sep)| <= 2) &&
      (exists i :: 0 <= i < |ds| && |Split(ds[i], sep)| == 2)
    ensures r.Success? ==> |r.value| == |ds|
    ensures r.Success? ==> forall i :: 0 <= i < |ds| ==>
      r.value[i].0 == Split(ds[i], sep)[0] && r.value[i].1 == Piece(ds[i], sep, 1)
  {
    if |ds| == 0 || Widest(ds, sep) != 2 then Failure(SplitWidth)
    else Success(seq(|ds|, i requires 0 <= i < |ds| => (Split(ds[i], sep)[0], Piece(ds[i], sep, 1))))
  }

  /** A value without the separator has NaN in the second column. */
  lemma NoSeparatorNoSecond(d: string, sep: string)
    requires |sep| > 0 && !Contains(d, sep)
    ensures Piece(d, sep, 1).None? && Split(d, sep)[0] == d
  {
    FindNoneMeansAbsent(d, sep);
  }

  /** The second word of a text whose first two words are space-free. */
  lemma SecondWord(u: string, c: string, tail: string)
    requires NoSpace(u) && NoSpace(c)
    requires tail == [] || tail[0] == ' '
    ensures Piece(u + " " + c + tail, " ", 1) == Some(c)
  {
    var s := u + " " + c + tail;
    FirstSpaceAfter(u, c + tail);
    assert s == u + " " + (c + tail);
    assert s[|u| + 1..] == c + tail;
    assert Split(s, " ") == [s[..|u|]] + Split(c + tail, " ");
    if tail == [] {
      assert c + tail == c;
      forall j | 0 <= j < |c|
        ensures !OccursAt(c, " ", j)
      {
        assert c[j..j + 1] == [c[j]];
      }
      FindNoneMeansAbsent(c, " ");
      assert Split(c, " ") == [c];
    } else {
      FirstSpaceAfter(c, tail[1..]);
      assert c + tail == c + " " + tail[1..];
      assert Split(c + tail, " ")[0] == (c + tail)[..|c|] == c;
    }
  }

  // ---------------------------------------------------------------------------
  // Deposits (cash_flow_prep)
  // ---------------------------------------------------------------------------

  /** A `Deposit` line as a cash flow: the currency is the second word of
      `Details`, NaN when there is none. */
  function Deposit(a: Activity): CashFlow {
    CashFlow(a.date, "Transfer", "Variable", a.amount, "Etoro", Piece(a.details, " ", 1), Some("Cash deposit"), "Cash")
  }

  const IsDeposit: Activity -> bool := (a: Activity) => a.kind == "Deposit"

  /** `cash_flow_prep`: the `Deposit` lines, in order, as cash flows. */
  function Deposits(acts: seq<Activity>): (r: seq<CashFlow>)
    ensures |r| == |Filter(acts, IsDeposit)|
    ensures forall j :: 0 <= j < |r| ==>
      var a := Filter(acts, IsDeposit)[j];
      r[j].date == a.date && r[j].amount == a.amount && r[j].kind == "Transfer" && r[j].platform == "Etoro"
  {
    var ds := Filter(acts, IsDeposit);
    seq(|ds|, j requires 0 <= j < |ds| => Deposit(ds[j]))
  }

  /** A deposit described as `Deposit USD ...` is booked in USD, and one
      whose description is a single word has no currency. */
  lemma DepositCurrency(a: Activity, word: string, ccy: string, tail: string)
    ensures a.details == word + " " + ccy + tail && NoSpace(word) && NoSpace(ccy) && (tail == [] || tail[0] == ' ') ==>
      Deposit(a).currency == Some(ccy)
    ensures !Contains(a.details, " ") ==> Deposit(a).currency.None?
  {
    if a.details == word + " " + ccy + tail && NoSpace(word) && NoSpace(ccy) && (tail == [] || tail[0] == ' ') {
      SecondWord(word, ccy, tail);
    }
    if !Contains(a.details, " ") {
      NoSeparatorNoSecond(a.details, " ");
    }
  }

  // ---------------------------------------------------------------------------
  // Ticker correction (_tickers_list_update)
  // ---------------------------------------------------------------------------

  /** `ticker_corr_map.get(ticker, ticker)`; a NaN correction is `None`. */
  function Corrected(corr: map<string, Option<string>>, t: string): Option<string> {
    if t in corr then corr[t] else Some(t)
  }

  /** `ticker.strip().upper()`. */
  function CleanTicker(t: string): string {
    Upper(Strip(t))
  }

  /** No ticker of the list has a NaN correction. */
  predicate AllCorrected(corr: map<string, Option<string>>, tickers: seq<string>) {
    forall i :: 0 <= i < |tickers| ==> Corrected(corr, tickers[i]).Some?
  }

  /** Each ticker replaced by its correction, the NaN ones dropped and the
      rest passed through `clean`. The cleaning is a parameter here so that
      these list facts do not depend on what it does to a string. */
  function KeepCorrected(corr: map<string, Option<string>>, tickers: seq<string>, clean: string -> string): (r: seq<string>)
    ensures |r| <= |tickers|
    ensures |r| == |tickers| <==> AllCorrected(corr, tickers)
    decreases |tickers|
  {
    if |tickers| == 0 then []
    else
      var rest := KeepCorrected(corr, tickers[1..], clean);
      match Corrected(corr, tickers[0])
      case None => rest
      case Some(t) =>
        assert AllCorrected(corr, tickers) <==> AllCorrected(corr, tickers[1..]) by {
          assert forall i :: 1 <= i < |tickers| ==> tickers[i] == tickers[1..][i - 1];
        }
        [clean(t)] + rest
  }

  /** When no correction is NaN, the list keeps its order: each ticker is
      replaced by its own cleaned correction. */
  lemma {:induction false} KeepCorrectedElements(corr: map<string, Option<string>>, tickers: seq<string>, clean: string -> string)
    requires AllCorrected(corr, tickers)
    ensures forall i :: 0 <= i < |tickers| ==> KeepCorrected(corr, tickers, clean)[i] == clean(Corrected(corr, tickers[i]).value)
    decreases |tickers|
  {
    if |tickers| > 0 {
      assert AllCorrected(corr, tickers[1..]) by {
        assert forall i :: 1 <= i < |tickers| ==> tickers[i] == tickers[1..][i - 1];
      }
      KeepCorrectedElements(corr, tickers[1..], clean);
      var r := KeepCorrected(corr, tickers, clean);
      var rest := KeepCorrected(corr, tickers[1..], clean);
      assert Corrected(corr, tickers[0]).Some?;
      assert r == [clean(Corrected(corr, tickers[0]).value)] + rest;
      forall i | 0 <= i < |tickers|
        ensures r[i] == clean(Corrected(corr, tickers[i]).value)
      {
        if i > 0 {
          assert r[i] == rest[i - 1];
          assert tickers[i] == tickers[1..][i - 1];
        }
      }
    }
  }

  /** With an idempotent cleaning, the kept tickers pass through a second
      round without a table unchanged. */
  lemma {:induction false} KeepCorrectedIdempotent(corr: map<string, Option<string>>, tickers: seq<string>, clean: string -> string)
    requires forall t :: clean(clean(t)) == clean(t)
    ensures var r := KeepCorrected(corr, tickers, clean); KeepCorrected(map[], r, clean) == r
    decreases |tickers|
  {
    if |tickers| > 0 {
      KeepCorrectedIdempotent(corr, tickers[1..], clean);
      var rest := KeepCorrected(corr, tickers[1..], clean);
      match Corrected(corr, tickers[0])
      case None =>
      case Some(t) =>
        var r := [clean(t)] + rest;
        assert r[1..] == rest;
        assert Corrected(map[], r[0]) == Some(r[0]);
    }
  }

  /** `_tickers_list_update`: each ticker replaced by its correction, the NaN
      ones dropped, the rest stripped and upper-cased. */
  function TickersListUpdate(corr: map<string, Option<string>>, tickers: seq<string>): (r: seq<string>)
    ensures |r| <= |tickers|
    ensures |r| == |tickers| <==> AllCorrected(corr, tickers)
  {
    KeepCorrected(corr, tickers, CleanTicker)
  }

  /** When no correction is NaN, `_tickers_list_update` keeps the order. */
  lemma TickersListUpdateElements(corr: map<string, Option<string>>, tickers: seq<string>)
    requires AllCorrected(corr, tickers)
    ensures forall i :: 0 <= i < |tickers| ==> TickersListUpdate(corr, tickers)[i] == CleanTicker(Corrected(corr, tickers[i]).value)
  {
    KeepCorrectedElements(corr, tickers, CleanTicker);
  }

  lemma StripLeftClean(s: string)
    requires |s| == 0 || !IsSpaceChar(s[0])
    ensures StripLeft(s) == s
  {
  }

  lemma StripRightClean(s: string)
    requires |s| == 0 || !IsSpaceChar(s[|s| - 1])
    ensures StripRight(s) == s
  {
  }

  lemma UpperTwice(s: string)
    ensures Upper(Upper(s)) == Upper(s)
  {
    var u := Upper(s);
    assert forall i :: 0 <= i < |u| ==> UpperChar(u[i]) == u[i];
  }

  /** Cleaning a ticker twice is cleaning it once. */
  lemma CleanTickerIdempotent(t: string)
    ensures CleanTicker(CleanTicker(t)) == CleanTicker(t)
  {
    var s := Strip(t);
    var u := Upper(s);
    assert |u| > 0 ==> u[0] == UpperChar(s[0]) && u[|u| - 1] == UpperChar(s[|s| - 1]);
    StripLeftClean(u);
    StripRightClean(u);
    assert Strip(u) == u;
    UpperTwice(s);
  }

  /** Updated tickers are already clean: a second update with an empty
      table gives them back unchanged. */
  lemma TickersListUpdateIdempotent(corr: map<string, Option<string>>, tickers: seq<string>)
    ensures var r := TickersListUpdate(corr, tickers); TickersListUpdate(map[], r) == r
  {
    forall t
      ensures CleanTicker(CleanTicker(t)) == CleanTicker(t)
    {
      CleanTickerIdempotent(t);
    }
    KeepCorrectedIdempotent(corr, tickers, CleanTicker);
  }

  // ---------------------------------------------------------------------------
  // Trades (securities_ledger_prep)
  // ---------------------------------------------------------------------------

  const IsTrade: Activity -> bool := (a: Activity) => a.kind == "Open Position" || a.kind == "Position closed"

  function DetailsOf(acts: seq<Activity>): (r: seq<string>)
    ensures |r| == |acts|
    ensures forall i :: 0 <= i < |acts| ==> r[i] == acts[i].details
  {
    seq(|acts|, i requires 0 <= i < |acts| => acts[i].details)
  }

  function Firsts(ps: seq<(string, Option<string>)>): (r: seq<string>)
    ensures |r| == |ps|
    ensures forall i :: 0 <= i < |ps| ==> r[i] == ps[i].0
  {
    seq(|ps|, i requires 0 <= i < |ps| => ps[i].0)
  }

  /** `.str.replace('GBX', 'GBP')` on a currency column; NaN stays NaN. */
  function GbxToGbp(q: Option<string>): (r: Option<string>)
    ensures r != Some("GBX")
    ensures r.None? <==> q.None?
  {
    if q.Some? then GbxNeverStays(q.value); Some(ReplaceAll(q.value, "GBX", "GBP")) else None
  }

  /** Replacing `GBX` never leaves the bare code `GBX` behind. */
  lemma GbxNeverStays(q: string)
    ensures ReplaceAll(q, "GBX", "GBP") != "GBX"
  {
    ReplaceKeepsLength(q, "GBX", "GBP");
    if |q| == 3 {
      if q == "GBX" {
        assert q[..3] == "GBX" && q[3..] == "";
      } else {
        assert !OccursAt(q, "GBX", 0) by { assert q[0..3] == q; }
        assert forall i :: 0 < i ==> !OccursAt(q, "GBX", i);
      }
    }
  }

  /** A pence quote becomes pounds; a quote without `GBX` is unchanged. */
  lemma GbxQuote(q: string)
    ensures GbxToGbp(Some("GBX")) == Some("GBP")
    ensures !Contains(q, "GBX") ==> GbxToGbp(Some(q)) == Some(q)
  {
    assert "GBX"[..3] == "GBX";
    assert "GBX"[3..] == "";
    assert ReplaceAll("", "GBX", "GBP") == "";
    assert ReplaceAll("GBX", "GBX", "GBP") == "GBP" + ReplaceAll("", "GBX", "GBP") == "GBP";
    assert GbxToGbp(Some("GBX")) == Some(ReplaceAll("GBX", "GBX", "GBP"));
    if !Contains(q, "GBX") {
      assert ReplaceAll(q, "GBX", "GBP") == q;
      assert GbxToGbp(Some(q)) == Some(ReplaceAll(q, "GBX", "GBP"));
    }
  }

  /** One trade line with its corrected ticker: `Open Position` is a buy,
      `Position closed` a sell whose units are negated. */
  function TradeOf(a: Activity, ticker: string, quote: Option<string>): Trade {
    var kind := if a.kind == "Open Position" then "buy" else "sell";
    Trade(a.date, kind, if kind == "sell" then -a.units else a.units, "Etoro", ticker, GbxToGbp(quote), "Equity", a.amount)
  }

  /** What `securities_ledger_prep` makes of one trade line: the kind and
      the units' sign follow the line's type, the ticker is the corrected
      part before `/`, and a pence quote never survives. */
  predicate LedgerLine(a: Activity, t: Trade, corr: map<string, Option<string>>) {
    && (t.kind == "buy" <==> a.kind == "Open Position")
    && (t.kind == "sell" <==> a.kind != "Open Position")
    && t.units == (if a.kind == "Open Position" then a.units else -a.units)
    && t.amount == a.amount && t.date == a.date
    && Corrected(corr, Split(a.details, "/")[0]).Some?
    && t.ticker == CleanTicker(Corrected(corr, Split(a.details, "/")[0]).value)
    && t.quoteCurrency != Some("GBX")
    && (t.quoteCurrency.None? <==> !Contains(a.details, "/"))
    && t.platform == "Etoro" && t.assetClass == "Equity"
  }

  lemma TradeOfLine(a: Activity, corr: map<string, Option<string>>, pair: (string, Option<string>), ticker: string)
    requires pair.0 == Split(a.details, "/")[0] && pair.1 == Piece(a.details, "/", 1)
    requires Corrected(corr, pair.0).Some? && ticker == CleanTicker(Corrected(corr, pair.0).value)
    ensures LedgerLine(a, TradeOf(a, ticker, pair.1), corr)
  {
    FindNoneMeansAbsent(a.details, "/");
  }

  /** The ledger lines of `trades`, position by position. */
  function TradesOf(trades: seq<Activity>, tickers: seq<string>, pairs: seq<(string, Option<string>)>): (r: seq<Trade>)
    requires |tickers| == |trades| && |pairs| == |trades|
    ensures |r| == |trades|
    ensures forall j :: 0 <= j < |r| ==> r[j] == TradeOf(trades[j], tickers[j], pairs[j].1)
  {
    if |trades| == 0 then []
    else [TradeOf(trades[0], tickers[0], pairs[0].1)] + TradesOf(trades[1..], tickers[1..], pairs[1..])
  }

  /** `securities_ledger_prep`: the trade lines as ledger lines, in order. */
  function SecuritiesLedger(acts: seq<Activity>, corr: map<string, Option<string>>): (r: Result<seq<Trade>, EtoroError>)
    ensures |Filter(acts, IsTrade)| == 0 ==> r == Failure(SplitWidth)
    ensures r.Success? ==> |r.value| == |Filter(acts, IsTrade)|
    ensures r.Success? ==> forall j :: 0 <= j < |r.value| ==> LedgerLine(Filter(acts, IsTrade)[j], r.value[j], corr)
  {
    var trades := Filter(acts, IsTrade);
    var pairs :- SplitPairs(DetailsOf(trades), "/");
    var tickers := TickersListUpdate(corr, Firsts(pairs));
    if |tickers| != |trades| then Failure(LengthMismatch)
    else
      TickersListUpdateElements(corr, Firsts(pairs));
      var r := TradesOf(trades, tickers, pairs);
      assert forall j :: 0 <= j < |trades| ==> LedgerLine(trades[j], r[j], corr) by {
        forall j | 0 <= j < |trades|
          ensures LedgerLine(trades[j], r[j], corr)
        {
          TradeOfLine(trades[j], corr, pairs[j], tickers[j]);
        }
      }
      Success(r)
  }

  // ---------------------------------------------------------------------------
  // Stock splits (stock_split_corr)
  // ---------------------------------------------------------------------------

  /** A `corp action: Split` line once `Details` is split on the space: the
      `TICKER/CCY` pair and the `n:d` ratio (NaN when missing). */
  datatype SplitEvent = SplitEvent(date: real, pair: string, ratio: Option<string>)

  const IsSplit: Activity -> bool := (a: Activity) => a.kind == "corp action: Split"

  const Units: Trade -> real := (t: Trade) => t.units

  /** The ledger lines of `ticker` dated up to `date`. */
  function HeldOn(ticker: string, date: real): Trade -> bool {
    (t: Trade) => t.date <= date && t.ticker == ticker
  }

  /** The units of `ticker` held at `date`. */
  function Owned(ledger: seq<Trade>, ticker: string, date: real): real {
    SumIf(ledger, HeldOn(ticker, date), Units)
  }

  /** A line dated up to `date` for `ticker` adds its units to the holding;
      any other line leaves it alone. */
  lemma OwnedSnoc(ledger: seq<Trade>, t: Trade, ticker: string, date: real)
    ensures Owned(ledger + [t], ticker, date) ==
      Owned(ledger, ticker, date) + (if t.date <= date && t.ticker == ticker then t.units else 0.0)
  {
    SumIfSnoc(ledger, t, HeldOn(ticker, date), Units);
  }

  /** `int(n)` and `int(d)` of an `n:d` ratio, read in that order. */
  function Ratio(ratio: Option<string>): (r: Result<(int, int), EtoroError>)
    ensures r.Success? <==>
      && ratio.Some?
      && PyInt(Split(ratio.value, ":")[0]).Some?
      && Piece(ratio.value, ":", 1).Some?
      && PyInt(Piece(ratio.value, ":", 1).value).Some?
    ensures r.Success? ==>
      && Some(r.value.0) == PyInt(Split(ratio.value, ":")[0])
      && Some(r.value.1) == PyInt(Piece(ratio.value, ":", 1).value)
    ensures r.Failure? ==> r.error == BadRatio
  {
    if ratio.None? then Failure(BadRatio)
    else
      var parts := Split(ratio.value, ":");
      match PyInt(parts[0])
      case None => Failure(BadRatio)
      case Some(n) =>
        if |parts| < 2 then Failure(BadRatio)
        else
          match PyInt(parts[1])
          case None => Failure(BadRatio)
          case Some(d) => Success((n, d))
  }

  /** The line that corrects a holding of `ticker` for an `n:d` split on
      `date`: the units it adds on top of what is already held. */
  function Correction(ledger: seq<Trade>, date: real, ticker: string, quote: string, n: int, d: int): Trade
    requires d != 0
  {
    var owned := Owned(ledger, ticker, date);
    Trade(date, "split adjustment", owned * (n as real) / (d as real) - owned, "Etoro", ticker, Some(quote), "Equity", 0.0)
  }

  /** With its correction appended, the ledger holds `n / d` times the units
      of `ticker` it held at the split date. */
  lemma SplitRestoresRatio(ledger: seq<Trade>, date: real, ticker: string, quote: string, n: int, d: int)
    requires d != 0
    ensures Owned(ledger + [Correction(ledger, date, ticker, quote, n, d)], ticker, date)
      == Owned(ledger, ticker, date) * (n as real) / (d as real)
  {
    OwnedSnoc(ledger, Correction(ledger, date, ticker, quote, n, d), ticker, date);
  }

  /** The correction one split event produces: nothing when no units of its
      ticker are held at its date; otherwise, once the ratio and the quote
      currency are read, the `Correction` for them. */
  function SplitAdjustment(ledger: seq<Trade>, e: SplitEvent): (r: Result<Option<Trade>, EtoroError>)
    ensures Owned(ledger, BeforeSep(e.pair, "/"), e.date) == 0.0 <==> r == Success(None)
    ensures r.Success? && r.value.Some? ==>
      && r.value.value.kind == "split adjustment" && r.value.value.platform == "Etoro" && r.value.value.assetClass == "Equity"
      && Ratio(e.ratio).Success? && Ratio(e.ratio).value.1 != 0 && Piece(e.pair, "/", 1).Some?
      && r.value.value == Correction(ledger, e.date, BeforeSep(e.pair, "/"), Piece(e.pair, "/", 1).value,
                                     Ratio(e.ratio).value.0, Ratio(e.ratio).value.1)
    ensures r.Failure? && Ratio(e.ratio).Success? && Ratio(e.ratio).value.1 == 0 ==> r.error == ZeroRatio
  {
    var ticker := BeforeSep(e.pair, "/");
    var owned := Owned(ledger, ticker, e.date);
    if owned == 0.0 then Success(None)
    else
      var nd :- Ratio(e.ratio);
      if nd.1 == 0 then Failure(ZeroRatio)
      else
        match Piece(e.pair, "/", 1)
        case None => Failure(NoQuoteCurrency)
        case Some(quote) => Success(Some(Correction(ledger, e.date, ticker, quote, nd.0, nd.1)))
  }

  /** The split events read from the activity lines. With no split line the
      two-column assignment receives an array without columns and raises,
      like every other empty split. */
  function SplitEvents(acts: seq<Activity>): (r: Result<seq<SplitEvent>, EtoroError>)
    ensures |Filter(acts, IsSplit)| == 0 ==> r == Failure(SplitWidth)
    ensures r.Success? ==> |r.value| == |Filter(acts, IsSplit)|
    ensures r.Success? ==> forall i :: 0 <= i < |r.value| ==>
      r.value[i].date == Filter(acts, IsSplit)[i].date && r.value[i].pair == Split(Filter(acts, IsSplit)[i].details, " ")[0]
  {
    var splits := Filter(acts, IsSplit);
    var pairs :- SplitPairs(DetailsOf(splits), " ");
    Success(seq(|splits|, i requires 0 <= i < |splits| => SplitEvent(splits[i].date, pairs[i].0, pairs[i].1)))
  }

  /** The corrections `adjust` gives a run of split events, in order; the
      first failing event decides the error. */
  function Corrections(events: seq<SplitEvent>, adjust: SplitEvent -> Result<Option<Trade>, EtoroError>): (r: Result<seq<Trade>, EtoroError>)
    ensures r.Success? <==> forall i :: 0 <= i < |events| ==> adjust(events[i]).Success?
    ensures r.Success? ==> |r.value| <= |events|
    decreases |events|
  {
    if |events| == 0 then Success([])
    else
      var first := adjust(events[0]);
      var rest := Corrections(events[1..], adjust);
      assert forall i :: 1 <= i < |events| ==> events[i] == events[1..][i - 1];
      if first.Failure? then Failure(first.error)
      else if rest.Failure? then rest
      else Success(if first.value.Some? then [first.value.value] + rest.value else rest.value)
  }

  /** Every event that calls for a correction gets it, and nothing else is
      added. */
  lemma {:induction false} CorrectionsMembers(events: seq<SplitEvent>, adjust: SplitEvent -> Result<Option<Trade>, EtoroError>)
    requires Corrections(events, adjust).Success?
    ensures forall t :: t in Corrections(events, adjust).value <==>
      exists i :: 0 <= i < |events| && adjust(events[i]) == Success(Some(t))
    decreases |events|
  {
    if |events| > 0 {
      CorrectionsMembers(events[1..], adjust);
      var rest := Corrections(events[1..], adjust).value;
      forall t
        ensures t in Corrections(events, adjust).value <==>
          exists i :: 0 <= i < |events| && adjust(events[i]) == Success(Some(t))
      {
        if exists i :: 0 <= i < |events| && adjust(events[i]) == Success(Some(t)) {
          var i :| 0 <= i < |events| && adjust(events[i]) == Success(Some(t));
          if i > 0 {
            assert events[1..][i - 1] == events[i];
          }
        }
        if t in rest {
          var i :| 0 <= i < |events[1..]| && adjust(events[1..][i]) == Success(Some(t));
          assert events[i + 1] == events[1..][i];
        }
      }
    }
  }

  /** `stock_split_corr`: the split lines of the activity turned into
      corrections of `ledger`, each one what `SplitAdjustment` makes of its
      event. */
  function StockSplitCorr(acts: seq<Activity>, ledger: seq<Trade>): (r: Result<seq<Trade>, EtoroError>)
    ensures r.Success? <==>
      && SplitEvents(acts).Success?
      && forall i :: 0 <= i < |SplitEvents(acts).value| ==> SplitAdjustment(ledger, SplitEvents(acts).value[i]).Success?
    ensures r.Success? ==> forall t :: t in r.value <==>
      exists i :: 0 <= i < |SplitEvents(acts).value| && SplitAdjustment(ledger, SplitEvents(acts).value[i]) == Success(Some(t))
    ensures r.Success? ==> |r.value| <= |Filter(acts, IsSplit)|
    ensures r.Success? ==> forall t :: t in r.value ==>
      t.kind == "split adjustment" && t.platform == "Etoro" && t.assetClass == "Equity"
  {
    var events :- SplitEvents(acts);
    var adjust := (e: SplitEvent) => SplitAdjustment(ledger, e);
    var r := Corrections(events, adjust);
    if r.Success? then
      CorrectionsMembers(events, adjust);
      r
    else r
  }

  // ---------------------------------------------------------------------------
  // Cash side of the trades (cash_balancing)
  // ---------------------------------------------------------------------------

  /** The USD cash flow settling one trade: a buy spends its amount, a sell
      brings it in. `fmt` renders a float as `str()` does. */
  function CashLeg(t: Trade, fmt: real -> string): CashFlow {
    CashFlow(t.date, "Transfer", "Variable", if t.kind == "buy" then -t.amount else t.amount, "Etoro",
             Some("USD"), Some(t.kind + " " + fmt(t.units) + " units of " + t.ticker), "Cash")
  }

  /** `cash_balancing`: one settling cash flow per ledger line. */
  function CashBalancing(trades: seq<Trade>, fmt: real -> string): (r: seq<CashFlow>)
    ensures |r| == |trades|
    ensures forall i :: 0 <= i < |trades| ==> r[i].currency == Some("USD") && r[i].date == trades[i].date
    decreases |trades|
  {
    if |trades| == 0 then [] else [CashLeg(trades[0], fmt)] + CashBalancing(trades[1..], fmt)
  }

  const Amounts: CashFlow -> real := (c: CashFlow) => c.amount
  const TradeAmounts: Trade -> real := (t: Trade) => t.amount
  const IsBuy: Trade -> bool := (t: Trade) => t.kind == "buy"
  const NotBuy: Trade -> bool := (t: Trade) => t.kind != "buy"

  /** The cash legs add up to what the sells brought in less what the buys
      spent. */
  lemma {:induction false} CashBalancingTotal(trades: seq<Trade>, fmt: real -> string)
    ensures Total(CashBalancing(trades, fmt), Amounts) == SumIf(trades, NotBuy, TradeAmounts) - SumIf(trades, IsBuy, TradeAmounts)
    decreases |trades|
  {
    if |trades| > 0 {
      CashBalancingTotal(trades[1..], fmt);
      assert CashBalancing(trades, fmt)[1..] == CashBalancing(trades[1..], fmt);
    }
  }

  // ---------------------------------------------------------------------------
  // Dividends (dividends_prep)
  // ---------------------------------------------------------------------------

  /** A dividend as an inflow; its description names the ticker, currency and
      amount, and is NaN when the currency is. */
  function DividendFlow(a: Activity, ticker: string, ccy: Option<string>, fmt: real -> string): CashFlow {
    var description := if ccy.Some? then Some(ticker + " Cash Dividend " + ccy.value + " " + fmt(a.amount)) else None;
    CashFlow(a.date, "Inflow", "Variable", a.amount, "Etoro", ccy, description, "Cash")
  }

  const IsDividend: Activity -> bool := (a: Activity) => a.kind == "Dividend"

  /** What `dividends_prep` makes of one dividend line: an inflow of its
      amount on its date, in the currency after `/` (never pence), with a
      description exactly when that currency is known. */
  predicate DividendLine(a: Activity, c: CashFlow) {
    && c.kind == "Inflow" && c.amount == a.amount && c.date == a.date && c.platform == "Etoro"
    && c.currency != Some("GBX")
    && (c.currency.None? <==> !Contains(a.details, "/"))
    && (c.description.None? <==> c.currency.None?)
  }

  lemma DividendFlowLine(a: Activity, pair: (string, Option<string>), ticker: string, fmt: real -> string)
    requires pair.1 == Piece(a.details, "/", 1)
    ensures DividendLine(a, DividendFlow(a, ticker, GbxToGbp(pair.1), fmt))
  {
    FindNoneMeansAbsent(a.details, "/");
  }

  /** `dividends_prep`: the `Dividend` lines as inflows, the ticker corrected
      and a pence currency turned into pounds. */
  function Dividends(acts: seq<Activity>, corr: map<string, Option<string>>, fmt: real -> string): (r: Result<seq<CashFlow>, EtoroError>)
    ensures |Filter(acts, IsDividend)| == 0 ==> r == Failure(SplitWidth)
    ensures r.Success? ==> |r.value| == |Filter(acts, IsDividend)|
    ensures r.Success? ==> forall j :: 0 <= j < |r.value| ==> DividendLine(Filter(acts, IsDividend)[j], r.value[j])
  {
    var divs := Filter(acts, IsDividend);
    var pairs :- SplitPairs(DetailsOf(divs), "/");
    var tickers := TickersListUpdate(corr, Firsts(pairs));
    if |tickers| != |divs| then Failure(LengthMismatch)
    else
      var r := seq(|divs|, j requires 0 <= j < |divs| => DividendFlow(divs[j], tickers[j], GbxToGbp(pairs[j].1), fmt));
      assert forall j :: 0 <= j < |divs| ==> DividendLine(divs[j], r[j]) by {
        forall j | 0 <= j < |divs|
          ensures DividendLine(divs[j], r[j])
        {
          DividendFlowLine(divs[j], pairs[j], tickers[j], fmt);
        }
      }
      Success(r)
  }

  // ---------------------------------------------------------------------------
  // main
  // ---------------------------------------------------------------------------

  /** The four ledgers `main` hands over: deposits, cash legs, securities
      (trades and split corrections) and dividends. */
  datatype EtoroRun = EtoroRun(cashFlows: seq<CashFlow>, cashBalancing: seq<CashFlow>,
                               securities: seq<Trade>, dividends: seq<CashFlow>)

  /** `EtoroData(...)` then `main()`: the trades are read first, then the
      split corrections against them, then the dividends. */
  function Extract(acts: seq<Activity>, corr: map<string, Option<string>>, fmt: real -> string): (r: Result<EtoroRun, EtoroError>)
    ensures |Filter(acts, IsTrade)| == 0 || |Filter(acts, IsSplit)| == 0 || |Filter(acts, IsDividend)| == 0 ==> r.Failure?
    ensures r.Success? ==>
      var n := |r.value.cashBalancing|;
      && n <= |r.value.securities|
      && Total(r.value.cashBalancing, Amounts)
         == SumIf(r.value.securities[..n], NotBuy, TradeAmounts) - SumIf(r.value.securities[..n], IsBuy, TradeAmounts)
      && (forall j :: n <= j < |r.value.securities| ==> r.value.securities[j].kind == "split adjustment")
  {
    var trades :- SecuritiesLedger(acts, corr);
    var splits :- StockSplitCorr(acts, trades);
    var divs :- Dividends(acts, corr, fmt);
    CashBalancingTotal(trades, fmt);
    assert (trades + splits)[..|trades|] == trades;
    Success(EtoroRun(Deposits(acts), CashBalancing(trades, fmt), trades + splits, divs))
  }
}
