/** The Revolut adapter (`revolut_data_extract.py`): the current-account
    statements merged with the older transaction history, the French month
    names of the exported dates, the cash-flow classification, the crypto
    ledger with one extra row per outgoing transfer, and the savings
    (money-market) ledger. */
module Revolut {
  import opened Wrappers
  import opened Text
  import opened Seqs
  import opened Sums
  import opened Adapter

  const Platform := "Revolut"

  /** A line of an account statement or of `transactions_history.csv`:
      `Type, Completed Date, Description, Amount, Fee, Currency, State`. */
  datatype StatementRow = StatementRow(kind: string, date: real, description: Option<string>, amount: real,
                                       fee: real, currency: string, state: string)

  datatype RevolutError =
    | MissingDescription  // a NaN in `str.contains` makes the boolean mask invalid
    | EmptyCryptoExport   // no crypto line: the split fee column has no last column to take

  const StatementAmount: StatementRow -> real := (r: StatementRow) => r.amount
  const StatementFee: StatementRow -> real := (r: StatementRow) => r.fee
  const Amounts: CashFlow -> real := (c: CashFlow) => c.amount

  // ---------------------------------------------------------------------------
  // Statements (clean_account_statement)
  // ---------------------------------------------------------------------------

  function InState(state: string): StatementRow -> bool {
    (r: StatementRow) => r.state == state
  }

  /** The amount with the fee taken off (`addFee` false) or added back. */
  function WithFee(row: StatementRow, addFee: bool): StatementRow {
    row.(amount := if addFee then row.amount + row.fee else row.amount - row.fee)
  }

  /** The rows in `state`, in order, each with its fee applied. */
  function Settle(rows: seq<StatementRow>, state: string, addFee: bool): (r: seq<StatementRow>)
    ensures |r| == |Filter(rows, InState(state))|
    ensures forall i :: 0 <= i < |r| ==> r[i].state == state
    ensures Total(r, StatementAmount) ==
      SumIf(rows, InState(state), StatementAmount)
      + (if addFee then SumIf(rows, InState(state), StatementFee) else -SumIf(rows, InState(state), StatementFee))
    decreases |rows|
  {
    if |rows| == 0 then []
    else
      var rest := Settle(rows[1..], state, addFee);
      if rows[0].state == state then
        assert ([WithFee(rows[0], addFee)] + rest)[1..] == rest;
        [WithFee(rows[0], addFee)] + rest
      else rest
  }

  /** Undoes `WithFee`. */
  function Unsettle(rows: seq<StatementRow>, addFee: bool): (r: seq<StatementRow>)
    ensures |r| == |rows|
    decreases |rows|
  {
    if |rows| == 0 then [] else [WithFee(rows[0], !addFee)] + Unsettle(rows[1..], addFee)
  }

  /** Applying the fee changes nothing but the amount: taking it back off
      gives exactly the rows that were kept. */
  lemma {:induction false} SettleUndo(rows: seq<StatementRow>, state: string, addFee: bool)
    ensures Unsettle(Settle(rows, state, addFee), addFee) == Filter(rows, InState(state))
    decreases |rows|
  {
    if |rows| > 0 {
      SettleUndo(rows[1..], state, addFee);
      if rows[0].state == state {
        var rest := Settle(rows[1..], state, addFee);
        assert Settle(rows, state, addFee) == [WithFee(rows[0], addFee)] + rest;
        assert ([WithFee(rows[0], addFee)] + rest)[1..] == rest;
        assert WithFee(WithFee(rows[0], addFee), !addFee) == rows[0];
      }
    }
  }

  const Current := "COMPLETED"
  const History := "Completed"

  /** `clean_account_statement`: completed statement lines net of their fee,
      then completed history lines with their fee added back. */
  function CleanAccountStatement(current: seq<StatementRow>, previous: seq<StatementRow>): (r: seq<StatementRow>)
    ensures |r| == |Filter(current, InState(Current))| + |Filter(previous, InState(History))|
    ensures forall i :: 0 <= i < |r| ==> r[i].state == Current || r[i].state == History
    ensures Total(r, StatementAmount) ==
      SumIf(current, InState(Current), StatementAmount) - SumIf(current, InState(Current), StatementFee)
      + SumIf(previous, InState(History), StatementAmount) + SumIf(previous, InState(History), StatementFee)
  {
    var a := Settle(current, Current, false);
    var b := Settle(previous, History, true);
    TotalConcat(a, b, StatementAmount);
    a + b
  }

  // ---------------------------------------------------------------------------
  // Dates (convert_english_months)
  // ---------------------------------------------------------------------------

  predicate Patterns(pairs: seq<(string, string)>) {
    forall j :: 0 <= j < |pairs| ==> |pairs[j].0| > 0
  }

  /** `s.replace(a, b)` for every pair `(a, b)` in turn. */
  function ReplaceEach(s: string, pairs: seq<(string, string)>): (r: string)
    requires Patterns(pairs)
    ensures (forall j :: 0 <= j < |pairs| ==> !Contains(s, pairs[j].0)) ==> r == s
    decreases |pairs|
  {
    if |pairs| == 0 then s
    else
      assert forall j :: 0 <= j < |pairs| - 1 ==> pairs[1..][j] == pairs[j + 1];
      ReplaceEach(ReplaceAll(s, pairs[0].0, pairs[0].1), pairs[1..])
  }

  /** A text holding one pattern, and nothing any other pair would touch,
      comes out with that one occurrence replaced. */
  lemma {:induction false} ReplaceEachOne(s: string, pairs: seq<(string, string)>, k: nat, m: nat)
    requires Patterns(pairs) && k < |pairs|
    requires OccursAt(s, pairs[k].0, m)
    requires forall i :: 0 <= i < m ==> !OccursAt(s, pairs[k].0, i)
    requires !Contains(s[m + |pairs[k].0|..], pairs[k].0)
    requires forall j :: 0 <= j < k ==> !Contains(s, pairs[j].0)
    requires forall j :: k < j < |pairs| ==> !Contains(s[..m] + pairs[k].1 + s[m + |pairs[k].0|..], pairs[j].0)
    ensures ReplaceEach(s, pairs) == s[..m] + pairs[k].1 + s[m + |pairs[k].0|..]
    decreases k
  {
    var rest := pairs[1..];
    assert forall j :: 0 <= j < |rest| ==> rest[j] == pairs[j + 1];
    if k == 0 {
      ReplaceSingle(s, m, pairs[0].0, pairs[0].1);
    } else {
      assert !Contains(s, pairs[0].0);
      ReplaceEachOne(s, rest, k - 1, m);
    }
  }

  /** The French abbreviations `%b` is printed with, and their English forms. */
  const MonthTranslation: seq<(string, string)> :=
    [("janv.", "Jan"), ("févr.", "Feb"), ("mars", "Mar"), ("avr.", "Apr"), ("mai", "May"), ("juin", "Jun"),
     ("juil.", "Jul"), ("août", "Aug"), ("sept.", "Sep"), ("oct.", "Oct"), ("nov.", "Nov"), ("déc.", "Dec")]

  /** `convert_english_months` on one value of the column. */
  function ConvertEnglishMonths(s: string): (r: string)
    ensures (forall j :: 0 <= j < |MonthTranslation| ==> !Contains(s, MonthTranslation[j].0)) ==> r == s
  {
    assert Patterns(MonthTranslation);
    ReplaceEach(s, MonthTranslation)
  }

  /** A date holding exactly one French month name, and nothing else any
      pair would touch, gets that name replaced by the English one. */
  lemma MonthTranslated(s: string, k: nat, m: nat)
    requires k < |MonthTranslation|
    requires OccursAt(s, MonthTranslation[k].0, m)
    requires forall i :: 0 <= i < m ==> !OccursAt(s, MonthTranslation[k].0, i)
    requires !Contains(s[m + |MonthTranslation[k].0|..], MonthTranslation[k].0)
    requires forall j :: 0 <= j < k ==> !Contains(s, MonthTranslation[j].0)
    requires forall j :: k < j < |MonthTranslation| ==>
      !Contains(s[..m] + MonthTranslation[k].1 + s[m + |MonthTranslation[k].0|..], MonthTranslation[j].0)
    ensures ConvertEnglishMonths(s) == s[..m] + MonthTranslation[k].1 + s[m + |MonthTranslation[k].0|..]
  {
    assert Patterns(MonthTranslation);
    ReplaceEachOne(s, MonthTranslation, k, m);
  }

  // ---------------------------------------------------------------------------
  // Cash flows (cash_flow_prep)
  // ---------------------------------------------------------------------------

  /** `d.replace(prefix, '').upper() == d.replace(prefix, '')`. */
  predicate UpperAfterRemoving(d: string, prefix: string)
    requires |prefix| > 0
  {
    var t := ReplaceAll(d, prefix, "");
    Upper(t) == t
  }

  /** The `in_out_mask`: exchanges, top-ups, transfers and refunds of a transfer. */
  predicate InOut(row: StatementRow) {
    || row.kind == "EXCHANGE" || row.kind == "TOPUP" || row.kind == "TRANSFER"
    || (row.kind == "REFUND" && row.description.Some? && Contains(row.description.value, "Transfer"))
  }

  /** A move between own accounts or currencies named in the description. */
  predicate Internal(d: string) {
    Contains(d, "Top-Up") || Contains(d, "Exchanged to") || Contains(d, "Exchanged from")
  }

  /** Which lines end up as outflows once the six overwrites have run. */
  predicate Outflowing(row: StatementRow, d: string) {
    !Internal(d) && (!InOut(row) || (UpperAfterRemoving(d, "From ") && UpperAfterRemoving(d, "To ")))
  }

  /** The `type` the overwrites leave, the later rule winning, with `Outflow`
      for a line none of them touched. */
  function CashKind(row: StatementRow, d: string): (k: string)
    requires row.description == Some(d)
    ensures k == "Outflow" <==> Outflowing(row, d)
    ensures k == "Transfer" <==> !Outflowing(row, d)
  {
    var io := InOut(row);
    var t1: Option<string> := if io && UpperAfterRemoving(d, "From ") then Some("Transfer") else None;
    var t2 := if io && UpperAfterRemoving(d, "To ") then Some("Outflow") else t1;
    var t3 := if io && !UpperAfterRemoving(d, "From ") then Some("Transfer") else t2;
    var t4 := if io && !UpperAfterRemoving(d, "To ") then Some("Transfer") else t3;
    var t5 := if Contains(d, "Top-Up") then Some("Transfer") else t4;
    var t6 := if Contains(d, "Exchanged to") || Contains(d, "Exchanged from") then Some("Transfer") else t5;
    t6.GetOr("Outflow")
  }

  function CashFlowOf(row: StatementRow, d: string): CashFlow
    requires row.description == Some(d)
  {
    CashFlow(row.date, CashKind(row, d), "Variable", row.amount, Platform, Some(row.currency), Some(d), "Cash")
  }

  /** What a statement line becomes in `collection_cash_flows`. */
  predicate CashLine(row: StatementRow, c: CashFlow) {
    && c.date == row.date && c.amount == row.amount && c.subtype == "Variable"
    && (c.kind == "Outflow" || c.kind == "Transfer")
    && row.description.Some? && (c.kind == "Outflow" <==> Outflowing(row, row.description.value))
    && c.platform == Platform && c.currency == Some(row.currency) && c.description == row.description
    && c.assetClass == "Cash"
  }

  lemma CashFlowOfLine(row: StatementRow, d: string)
    requires row.description == Some(d)
    ensures CashLine(row, CashFlowOf(row, d))
  {
  }

  /** The classification of every line of the merged statement, which
      fails as soon as a description is missing. */
  function Classify(rows: seq<StatementRow>): (r: Result<seq<CashFlow>, RevolutError>)
    ensures r.Success? <==> forall i :: 0 <= i < |rows| ==> rows[i].description.Some?
    ensures r.Success? ==> |r.value| == |rows| && forall i :: 0 <= i < |rows| ==> CashLine(rows[i], r.value[i])
  {
    if forall i :: 0 <= i < |rows| ==> rows[i].description.Some? then
      var r := seq(|rows|, i requires 0 <= i < |rows| => CashFlowOf(rows[i], rows[i].description.value));
      assert forall i :: 0 <= i < |rows| ==> CashLine(rows[i], r[i]) by {
        forall i | 0 <= i < |rows| ensures CashLine(rows[i], r[i]) {
          CashFlowOfLine(rows[i], rows[i].description.value);
        }
      }
      Success(r)
    else Failure(MissingDescription)
  }

  /** `cash_flow_prep`: the classified statement. Its amounts add up to the
      completed amounts net of the current account's fees, plus the
      history's amounts with their fees. */
  function CashFlowPrep(current: seq<StatementRow>, previous: seq<StatementRow>): (r: Result<seq<CashFlow>, RevolutError>)
    ensures r.Success? ==>
      Total(r.value, Amounts) ==
        SumIf(current, InState(Current), StatementAmount) - SumIf(current, InState(Current), StatementFee)
        + SumIf(previous, InState(History), StatementAmount) + SumIf(previous, InState(History), StatementFee)
    ensures r.Success? ==> forall i :: 0 <= i < |r.value| ==> r.value[i].kind == "Outflow" || r.value[i].kind == "Transfer"
  {
    var rows := CleanAccountStatement(current, previous);
    var r := Classify(rows);
    if r.Success? then
      TotalPointwise(r.value, Amounts, rows, StatementAmount);
      r
    else r
  }

  // ---------------------------------------------------------------------------
  // Crypto ledger (cryptos_prep, __add_transfer_fees)
  // ---------------------------------------------------------------------------

  /** A line of a crypto export: `Date, Symbol, Type, Quantity, Price, Value,
      Fees`, the numbers already parsed; `feeText` is the `Fees` text the
      currency is read from. */
  datatype CryptoRow = CryptoRow(date: real, symbol: string, kind: string, quantity: real, price: real,
                                 value: real, fees: real, feeText: string)

  /** A crypto-ledger line. A `units` of `None` stands for the infinity or
      NaN pandas produces when dividing by a zero price. */
  datatype CryptoTrade = CryptoTrade(date: real, kind: string, units: Option<real>, platform: string, ticker: string,
                                     currency: Option<string>, assetClass: string, amount: real, fees: real,
                                     price: real)

  /** The French type names, renamed; anything else is kept. */
  function CryptoKind(k: string): (r: string)
    ensures r == "buy" <==> k == "Achat" || k == "buy"
    ensures r == "sell" <==> k == "Vente" || k == "sell"
    ensures r == "transfer out" <==> k == "Envoi" || k == "transfer out"
    ensures k != "Achat" && k != "Vente" && k != "Envoi" ==> r == k
  {
    var k1 := if k == "Achat" then "buy" else k;
    var k2 := if k1 == "Vente" then "sell" else k1;
    if k2 == "Envoi" then "transfer out" else k2
  }

  /** `a / b` as pandas computes it, `None` for a zero divisor. */
  function Quotient(a: real, b: real): Option<real> {
    if b == 0.0 then None else Some(a / b)
  }

  /** One export line: sells and outgoing transfers take units away, buys
      cost their value, the fee is a cost, and a buy's or sell's units are
      moved by the fee expressed in units. */
  function CryptoLine(row: CryptoRow, currency: Option<string>): CryptoTrade {
    var kind := CryptoKind(row.kind);
    var units := if kind == "sell" || kind == "transfer out" then -row.quantity else row.quantity;
    var amount := if kind == "buy" then -row.value else row.value;
    var fees := -row.fees;
    var adjusted :=
      if kind == "buy" || kind == "sell" then
        (if row.price == 0.0 then None else Some(units + fees / row.price))
      else Some(units);
    CryptoTrade(row.date, kind, adjusted, Platform, row.symbol + "-USD", currency, "Cryptos", amount, fees, row.price)
  }

  /** For the usual non-negative export values at a positive price: a buy
      adds fewer units than bought and costs its value, a sale removes
      more units than sold and brings its value in, an outgoing transfer
      removes what was sent, and every fee is a cost. */
  lemma CryptoSigns(row: CryptoRow, currency: Option<string>)
    requires row.quantity >= 0.0 && row.value >= 0.0 && row.fees >= 0.0 && row.price > 0.0
    ensures CryptoLine(row, currency).fees <= 0.0
    ensures CryptoKind(row.kind) == "buy" ==>
      CryptoLine(row, currency).units.Some? && CryptoLine(row, currency).units.value <= row.quantity
      && CryptoLine(row, currency).amount <= 0.0
    ensures CryptoKind(row.kind) == "sell" ==>
      CryptoLine(row, currency).units.Some? && CryptoLine(row, currency).units.value <= -row.quantity
      && CryptoLine(row, currency).amount >= 0.0
    ensures CryptoKind(row.kind) == "transfer out" ==> CryptoLine(row, currency).units == Some(-row.quantity)
  {
    assert row.fees / row.price >= 0.0;
    assert -row.fees / row.price == -(row.fees / row.price);
  }

  /** The currency read off `Fees.str.split(' ', expand=True).iloc[:, -1]`:
      the last piece, or NaN for a value with fewer pieces than the widest. */
  function FeeCurrency(texts: seq<string>, i: nat): (r: Option<string>)
    requires i < |texts|
    ensures r.Some? <==> |Split(texts[i], " ")| == Widest(texts, " ")
    ensures r.Some? ==> r.value == LastPiece(texts[i], " ")
  {
    if |Split(texts[i], " ")| == Widest(texts, " ") then Some(LastPiece(texts[i], " ")) else None
  }

  /** When every fee is written as a number and a currency code separated by
      one space, every line's currency is its code. */
  lemma UniformFeeCurrency(nums: seq<string>, codes: seq<string>, i: nat)
    requires |nums| == |codes| && i < |nums|
    requires forall j :: 0 <= j < |nums| ==> NoSpace(nums[j]) && NoSpace(codes[j])
    ensures FeeCurrency(seq(|nums|, j requires 0 <= j < |nums| => nums[j] + " " + codes[j]), i) == Some(codes[i])
  {
    var texts := seq(|nums|, j requires 0 <= j < |nums| => nums[j] + " " + codes[j]);
    forall j | 0 <= j < |texts|
      ensures |Split(texts[j], " ")| == 2
    {
      TwoWords(nums[j], codes[j]);
    }
    TwoWords(nums[i], codes[i]);
    LastPieceOf(nums[i], codes[i]);
  }

  lemma TwoWords(u: string, x: string)
    requires NoSpace(u) && NoSpace(x)
    ensures Split(u + " " + x, " ") == [u, x]
  {
    var s := u + " " + x;
    forall j | 0 <= j < |s| && j != |u|
      ensures !OccursAt(s, " ", j)
    {
      if j < |u| {
        assert s[j..j + 1] == [u[j]];
      } else {
        assert s[j..j + 1] == [x[j - |u| - 1]];
      }
    }
    SplitTwo(u, " ", x);
  }

  const FeeTexts: CryptoRow -> string := (r: CryptoRow) => r.feeText

  /** The export lines as ledger lines, before the fee rows are added. */
  function CryptoLines(rows: seq<CryptoRow>): (r: seq<CryptoTrade>)
    ensures |r| == |rows|
    ensures forall i :: 0 <= i < |rows| ==>
      r[i] == CryptoLine(rows[i], FeeCurrency(seq(|rows|, j requires 0 <= j < |rows| => rows[j].feeText), i))
  {
    var texts := seq(|rows|, j requires 0 <= j < |rows| => rows[j].feeText);
    seq(|rows|, i requires 0 <= i < |rows| => CryptoLine(rows[i], FeeCurrency(texts, i)))
  }

  const IsTransferOut: CryptoTrade -> bool := (t: CryptoTrade) => t.kind == "transfer out"
  const IsTransferFee: CryptoTrade -> bool := (t: CryptoTrade) => t.kind == "transfer fees"

  /** The fee row of an outgoing transfer: the fee expressed in units. */
  function FeeRow(t: CryptoTrade): CryptoTrade {
    t.(units := Quotient(t.fees, t.price), kind := "transfer fees")
  }

  /** `__add_transfer_fees`: the ledger, then one fee row per outgoing
      transfer, in the same order. */
  function AddTransferFees(ledger: seq<CryptoTrade>): (r: seq<CryptoTrade>)
    ensures |r| == |ledger| + |Filter(ledger, IsTransferOut)|
    ensures r[..|ledger|] == ledger
    ensures forall j :: 0 <= j < |Filter(ledger, IsTransferOut)| ==>
      r[|ledger| + j] == FeeRow(Filter(ledger, IsTransferOut)[j])
  {
    var outs := Filter(ledger, IsTransferOut);
    ledger + seq(|outs|, j requires 0 <= j < |outs| => FeeRow(outs[j]))
  }

  /** The ledger gains exactly one fee row per outgoing transfer, and each
      carries the transfer's date, ticker, amount and fee. */
  lemma TransferFeesCount(ledger: seq<CryptoTrade>)
    ensures |Filter(AddTransferFees(ledger), IsTransferFee)| ==
      |Filter(ledger, IsTransferFee)| + |Filter(ledger, IsTransferOut)|
    ensures |Filter(AddTransferFees(ledger), IsTransferOut)| == |Filter(ledger, IsTransferOut)|
  {
    var r := AddTransferFees(ledger);
    var fees := r[|ledger|..];
    assert r == ledger + fees;
    assert forall j :: 0 <= j < |fees| ==> fees[j].kind == "transfer fees";
    FilterConcat(ledger, fees, IsTransferFee);
    FilterConcat(ledger, fees, IsTransferOut);
    FilterAll(fees, IsTransferFee);
    NoneKept(fees, IsTransferOut);
  }

  lemma {:induction false} NoneKept<T>(s: seq<T>, p: T -> bool)
    requires forall i :: 0 <= i < |s| ==> !p(s[i])
    ensures Filter(s, p) == []
    decreases |s|
  {
    if |s| > 0 {
      NoneKept(s[1..], p);
    }
  }

  /** The lines whose fee rows `__add_transfer_fees` will add. */
  const SendsOut: CryptoRow -> bool := (r: CryptoRow) => CryptoKind(r.kind) == "transfer out"

  /** `cryptos_prep`: every export line in order, tickers quoted in USD,
      followed by the fee row of each outgoing transfer. An export without
      lines fails: splitting its empty `Fees` column gives a frame without
      columns, whose last column (`iloc[:, -1]`) does not exist. */
  function CryptosPrep(rows: seq<CryptoRow>): (r: Result<seq<CryptoTrade>, RevolutError>)
    ensures r.Failure? <==> |rows| == 0
    ensures r.Success? ==> |r.value| == |rows| + |Filter(rows, SendsOut)|
    ensures r.Success? ==> forall i :: 0 <= i < |rows| ==>
      r.value[i].ticker == rows[i].symbol + "-USD" && r.value[i].date == rows[i].date && r.value[i].kind == CryptoKind(rows[i].kind)
    ensures r.Success? ==> forall i :: |rows| <= i < |r.value| ==> r.value[i].kind == "transfer fees"
    ensures r.Success? ==> forall i :: 0 <= i < |r.value| ==> r.value[i].assetClass == "Cryptos" && r.value[i].platform == Platform
  {
    if |rows| == 0 then Failure(EmptyCryptoExport)
    else
      var lines := CryptoLines(rows);
      SendsOutCount(rows, lines);
      CryptoLedgerShape(lines);
      Success(AddTransferFees(lines))
  }

  /** Fee rows come from ledger lines, so they share their asset class and
      platform. */
  lemma CryptoLedgerShape(lines: seq<CryptoTrade>)
    requires forall i :: 0 <= i < |lines| ==> lines[i].assetClass == "Cryptos" && lines[i].platform == Platform
    ensures forall i :: 0 <= i < |AddTransferFees(lines)| ==>
      AddTransferFees(lines)[i].assetClass == "Cryptos" && AddTransferFees(lines)[i].platform == Platform
    ensures forall i :: |lines| <= i < |AddTransferFees(lines)| ==> AddTransferFees(lines)[i].kind == "transfer fees"
    ensures forall i :: 0 <= i < |lines| ==> AddTransferFees(lines)[i] == lines[i]
  {
    var r := AddTransferFees(lines);
    var outs := Filter(lines, IsTransferOut);
    FilterMembers(lines, IsTransferOut);
    forall i | |lines| <= i < |r|
      ensures r[i].assetClass == "Cryptos" && r[i].platform == Platform && r[i].kind == "transfer fees"
    {
      var t := outs[i - |lines|];
      assert r[i] == FeeRow(t);
      assert t in lines;
    }
    forall i | 0 <= i < |lines|
      ensures r[i] == lines[i]
    {
      assert r[..|lines|][i] == r[i];
    }
  }

  lemma {:induction false} SendsOutCount(rows: seq<CryptoRow>, lines: seq<CryptoTrade>)
    requires |rows| == |lines|
    requires forall i :: 0 <= i < |rows| ==> lines[i].kind == CryptoKind(rows[i].kind)
    ensures |Filter(lines, IsTransferOut)| == |Filter(rows, SendsOut)|
    decreases |rows|
  {
    if |rows| > 0 {
      assert forall i :: 0 <= i < |rows| - 1 ==> rows[1..][i] == rows[i + 1] && lines[1..][i] == lines[i + 1];
      SendsOutCount(rows[1..], lines[1..]);
    }
  }

  // ---------------------------------------------------------------------------
  // Savings ledger (money_market_prep)
  // ---------------------------------------------------------------------------

  /** A line of a savings export: `Date, Value, Description`, the value
      still carrying its currency symbol. */
  datatype SavingsRow = SavingsRow(date: real, value: string, description: string)

  datatype SavingsTrade = SavingsTrade(date: real, kind: Option<string>, platform: string, isin: string,
                                       currency: Option<string>, assetClass: string, amount: real,
                                       description: string)

  /** The value once `£` and `€` are gone. */
  function WithoutPoundEuro(v: string): string {
    ReplaceAll(ReplaceAll(v, "£", ""), "€", "")
  }

  /** The three symbol rules in order, each setting the currency and deleting
      its symbol: the value left has no `£` or `€`, and the later rule wins. */
  function SavingsCurrency(v: string): (r: (string, Option<string>))
    ensures '£' !in r.0 && '€' !in r.0
    ensures r.1 == (if Contains(WithoutPoundEuro(v), "CHF") then Some("CHF")
                    else if '€' in v then Some("EUR")
                    else if '£' in v then Some("GBP")
                    else None)
  {
    var v1 := ReplaceAll(v, "£", "");
    var c1: Option<string> := if Contains(v, "£") then Some("GBP") else None;
    var v2 := ReplaceAll(v1, "€", "");
    var c2 := if Contains(v1, "€") then Some("EUR") else c1;
    var v3 := ReplaceAll(v2, "CHF", "");
    var c3 := if Contains(v2, "CHF") then Some("CHF") else c2;
    DeleteChar(v, '£');
    DeleteChar(v1, '€');
    ContainsChar(v, '£');
    ContainsChar(v1, '€');
    DeleteKeepsChars(v2, "CHF");
    (v3, c3)
  }

  /** The three description rules in order, the later one winning. */
  function SavingsKind(d: string): (r: Option<string>)
    ensures r == (if Contains(d, "Interest") then Some("interest")
                  else if Contains(d, "Service Fee") then Some("fees")
                  else if Contains(d, "BUY") then Some("buy")
                  else None)
  {
    var k1: Option<string> := if Contains(d, "BUY") then Some("buy") else None;
    var k2 := if Contains(d, "Service Fee") then Some("fees") else k1;
    if Contains(d, "Interest") then Some("interest") else k2
  }

  /** One savings line; `parse` is `astype(float)`. */
  function SavingsLine(row: SavingsRow, parse: string -> real): SavingsTrade {
    var (cleaned, currency) := SavingsCurrency(row.value);
    SavingsTrade(row.date, SavingsKind(row.description), Platform, LastPiece(row.description, " "), currency,
                 "Fixed income", parse(cleaned), row.description)
  }

  /** The fund's ISIN is the description's last word. */
  lemma IsinIsLastWord(date: real, value: string, text: string, isin: string, parse: string -> real)
    requires NoSpace(isin)
    ensures SavingsLine(SavingsRow(date, value, text + " " + isin), parse).isin == isin
  {
    LastPieceOf(text, isin);
  }

  /** `money_market_prep`: every savings line, in order. */
  function MoneyMarketPrep(rows: seq<SavingsRow>, parse: string -> real): (r: seq<SavingsTrade>)
    ensures |r| == |rows|
    ensures forall i :: 0 <= i < |rows| ==> r[i] == SavingsLine(rows[i], parse)
  {
    seq(|rows|, i requires 0 <= i < |rows| => SavingsLine(rows[i], parse))
  }

  // ---------------------------------------------------------------------------
  // main
  // ---------------------------------------------------------------------------

  datatype RevolutRun = RevolutRun(cashFlows: seq<CashFlow>, cryptos: seq<CryptoTrade>, savings: seq<SavingsTrade>)

  /** `main`: the crypto ledger first, then the cash flows and the savings
      ledger; it fails on an empty crypto export and when a completed
      statement line has no description. */
  function Extract(current: seq<StatementRow>, previous: seq<StatementRow>, cryptoRows: seq<CryptoRow>,
                   savingsRows: seq<SavingsRow>, parse: string -> real): (r: Result<RevolutRun, RevolutError>)
    ensures r.Success? <==> |cryptoRows| > 0 && CashFlowPrep(current, previous).Success?
    ensures |cryptoRows| == 0 ==> r == Failure(EmptyCryptoExport)
    ensures r.Success? ==>
      Total(r.value.cashFlows, Amounts) ==
        SumIf(current, InState(Current), StatementAmount) - SumIf(current, InState(Current), StatementFee)
        + SumIf(previous, InState(History), StatementAmount) + SumIf(previous, InState(History), StatementFee)
    ensures r.Success? ==> |r.value.cryptos| == |cryptoRows| + |Filter(cryptoRows, SendsOut)|
    ensures r.Success? ==> |r.value.savings| == |savingsRows|
  {
    var cryptos :- CryptosPrep(cryptoRows);
    var cashFlows :- CashFlowPrep(current, previous);
    Success(RevolutRun(cashFlows, cryptos, MoneyMarketPrep(savingsRows, parse)))
  }
}
