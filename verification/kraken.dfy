/** The Kraken adapter (`kraken_data_extract.py`): the ledger fetched page
    by page from the exchange, then normalised into crypto-ledger rows. The
    HTTP call and its request signature are a parameter here. */
module Kraken {
  import opened Wrappers
  import opened Sums
  import opened DocumentStore
  import Identity
  import DataFeed
  import Adapter

  const Platform := "Kraken"

  /** Entries the exchange returns per request. */
  const PageSize: nat := 50

  /** A ledger entry as the API returns it, numbers already parsed. */
  datatype LedgerEntry = LedgerEntry(time: real, kind: string, asset: string, amount: real, fee: real, balance: real)

  /** One response of the `Ledgers` endpoint: the ledger's total size and the
      entries of the requested page. */
  datatype Response = Response(count: int, entries: seq<LedgerEntry>)

  // ---------------------------------------------------------------------------
  // Paging (get_full_kraken_ledger)
  // ---------------------------------------------------------------------------

  /** How many requests a ledger of `count` entries takes: one at least, and
      just enough pages to reach `count`. */
  function PageCount(count: int): (k: nat)
    ensures k >= 1
    ensures count <= PageSize ==> k == 1
    ensures count > PageSize ==> PageSize * (k - 1) < count <= PageSize * k
  {
    if count <= PageSize then 1 else (count + PageSize - 1) / PageSize
  }

  /** The page the entry at position `j` of the ledger comes back in. */
  function PageOf(j: nat): nat {
    j / PageSize
  }

  /** The offsets requested: `0, 50, 100, …`, one per page. Every entry lies
      in exactly one page, and no request after the first starts past the
      end of the ledger. */
  function Offsets(count: int): (r: seq<nat>)
    ensures |r| == PageCount(count) && r[0] == 0
    ensures forall i :: 0 <= i < |r| ==> r[i] == PageSize * i
    ensures forall i :: 1 <= i < |r| ==> r[i] < count
    ensures forall j: nat :: j < count ==> PageOf(j) < |r| && r[PageOf(j)] <= j < r[PageOf(j)] + PageSize
    ensures forall i, j: nat :: 0 <= i < |r| && r[i] <= j < r[i] + PageSize ==> PageOf(j) == i
  {
    var k := PageCount(count);
    seq(k, i requires 0 <= i < k => PageSize * i)
  }

  /** The entries of the pages at `offsets`, one page after the other. */
  function Pages(api: nat -> Response, offsets: seq<nat>): seq<LedgerEntry>
    decreases |offsets|
  {
    if |offsets| == 0 then []
    else Pages(api, offsets[..|offsets| - 1]) + api(offsets[|offsets| - 1]).entries
  }

  /** `get_full_kraken_ledger`: ask for offset 0, read the ledger's size from
      that answer, and keep asking 50 entries further on while entries are
      left. `api(offset)` is the endpoint's answer for that offset. */
  method FullLedger(api: nat -> Response) returns (offsets: seq<nat>, entries: seq<LedgerEntry>)
    ensures offsets == Offsets(api(0).count)
    ensures entries == Pages(api, offsets)
  {
    var count := api(0).count;
    offsets := [0];
    entries := api(0).entries;
    assert Pages(api, [0]) == Pages(api, []) + api(0).entries;
    var size := count - PageSize;
    var offset: nat := PageSize;
    while size > 0
      invariant |offsets| >= 1
      invariant forall i :: 0 <= i < |offsets| ==> offsets[i] == PageSize * i
      invariant offset == PageSize * |offsets|
      invariant size == count - PageSize * |offsets|
      invariant |offsets| == 1 || count > PageSize * (|offsets| - 1)
      invariant entries == Pages(api, offsets)
      decreases size
    {
      assert (offsets + [offset])[..|offsets|] == offsets;
      entries := entries + api(offset).entries;
      offsets := offsets + [offset];
      size := size - PageSize;
      offset := offset + PageSize;
    }
    var k := PageCount(count);
    assert |offsets| == k;
    assert forall i :: 0 <= i < k ==> offsets[i] == Offsets(count)[i];
  }

  // ---------------------------------------------------------------------------
  // Normalising (clean_ledger)
  // ---------------------------------------------------------------------------

  /** A row of `collection_cryptos`; a ticker or currency of `None` is NaN. */
  datatype CryptoTrade = CryptoTrade(date: real, kind: string, units: real, platform: string, ticker: Option<string>,
                                     currency: Option<string>, assetClass: string, amount: real, fees: real)

  datatype KrakenError =
    | NoKnownAsset  // an all-NaN `ticker` column is numeric and `+= '-USD'` raises

  /** The coin an asset code stands for, the later rule winning. */
  function Coin(asset: string): (r: Option<string>)
    ensures r == Some("ETH") <==> asset in {"ETH.F", "XETH", "ETH.B", "XETH.F", "XETH.B"}
    ensures r == Some("SOL") <==> asset == "SOL03.S" || asset == "SOL"
    ensures r == Some("EIGEN") <==> asset == "EIGEN"
    ensures r.None? <==> asset !in {"ETH.F", "XETH", "ETH.B", "XETH.F", "XETH.B", "SOL03.S", "SOL", "EIGEN"}
  {
    var t1: Option<string> := if asset in {"ETH.F", "XETH", "ETH.B", "XETH.F", "XETH.B"} then Some("ETH") else None;
    var t2 := if asset == "SOL03.S" || asset == "SOL" then Some("SOL") else t1;
    if asset == "EIGEN" then Some("EIGEN") else t2
  }

  /** The USD pair a known coin is priced with. */
  function UsdPair(coin: Option<string>): Option<string> {
    if coin.Some? then Some(coin.value + "-USD") else None
  }

  /** One normalised entry: units are the amount net of the fee, taken
      before amount and fee change sign; a deposit becomes a transfer. */
  function CleanEntry(e: LedgerEntry): CryptoTrade {
    var ticker := UsdPair(Coin(e.asset));
    CryptoTrade(e.time, if e.kind == "deposit" then "transfer" else e.kind, e.amount - e.fee, Platform, ticker,
                ticker, "Cryptos", -e.amount, -e.fee)
  }

  predicate KnownAsset(e: LedgerEntry) {
    Coin(e.asset).Some?
  }

  /** `clean_ledger`: every entry normalised, in order. It fails when no
      entry is of a known coin, since the ticker column then holds only NaN. */
  function CleanLedger(es: seq<LedgerEntry>): (r: Result<seq<CryptoTrade>, KrakenError>)
    ensures r.Success? <==> exists i :: 0 <= i < |es| && KnownAsset(es[i])
    ensures r.Success? ==> |r.value| == |es|
    ensures r.Success? ==> forall i :: 0 <= i < |es| ==> r.value[i] == CleanEntry(es[i])
  {
    if exists i :: 0 <= i < |es| && KnownAsset(es[i]) then
      Success(seq(|es|, i requires 0 <= i < |es| => CleanEntry(es[i])))
    else Failure(NoKnownAsset)
  }

  /** What `clean_ledger` promises of each row: the units are what the
      negated amount and fee leave, the currency is the ticker, and a
      ticker exists exactly for a known coin. */
  lemma CleanEntryShape(e: LedgerEntry)
    ensures CleanEntry(e).units == CleanEntry(e).fees - CleanEntry(e).amount
    ensures CleanEntry(e).currency == CleanEntry(e).ticker
    ensures CleanEntry(e).ticker.Some? <==> KnownAsset(e)
    ensures KnownAsset(e) ==> CleanEntry(e).ticker == Some(Coin(e.asset).value + "-USD")
    ensures CleanEntry(e).kind == "transfer" <==> e.kind == "deposit" || e.kind == "transfer"
    ensures CleanEntry(e).kind != "deposit"
  {
  }

  const Units: CryptoTrade -> real := (t: CryptoTrade) => t.units
  const Amounts: CryptoTrade -> real := (t: CryptoTrade) => t.amount
  const Fees: CryptoTrade -> real := (t: CryptoTrade) => t.fees
  const EntryAmounts: LedgerEntry -> real := (e: LedgerEntry) => e.amount
  const EntryFees: LedgerEntry -> real := (e: LedgerEntry) => e.fee

  /** Over the whole ledger the units are the entries' amounts less their
      fees, and equal the negated fees less the negated amounts. */
  lemma {:induction false} LedgerUnits(ts: seq<CryptoTrade>, es: seq<LedgerEntry>)
    requires |ts| == |es|
    requires forall i :: 0 <= i < |es| ==> ts[i] == CleanEntry(es[i])
    ensures Total(ts, Units) == Total(es, EntryAmounts) - Total(es, EntryFees)
    ensures Total(ts, Units) == Total(ts, Fees) - Total(ts, Amounts)
    decreases |es|
  {
    if |es| > 0 {
      assert forall i :: 0 <= i < |es| - 1 ==> ts[1..][i] == ts[i + 1] && es[1..][i] == es[i + 1];
      LedgerUnits(ts[1..], es[1..]);
    }
  }

  // ---------------------------------------------------------------------------
  // main
  // ---------------------------------------------------------------------------

  const LedgerColumns: set<string> :=
    {"date", "type", "units", "platform", "ticker", "currency", "asset_class", "amount", "fees"}

  /** The document a ledger row becomes. */
  function TradeDoc(t: CryptoTrade): (d: Doc)
    ensures d.Keys == LedgerColumns
  {
    map["date" := Time(t.date), "type" := Str(t.kind), "units" := Num(t.units), "platform" := Str(t.platform),
        "ticker" := Adapter.TextCell(t.ticker), "currency" := Adapter.TextCell(t.currency),
        "asset_class" := Str(t.assetClass), "amount" := Num(t.amount), "fees" := Num(t.fees)]
  }

  /** The identity fields of a ledger row. */
  function TradeEntry(t: CryptoTrade): Identity.Entry {
    Identity.Entry(t.date, Identity.Text(t.kind), Some(t.units), Adapter.TextKey(t.currency), Identity.Text(t.platform))
  }

  /** The driver reads a row's identity back, in units; a NaN currency puts
      the row in no balance group. */
  lemma TradeDocIdentity(t: CryptoTrade)
    ensures Identity.ReadEntry(TradeDoc(t), "units", "currency") == Some(TradeEntry(t))
    ensures Identity.Grouped(TradeEntry(t)) <==> t.currency.Some?
  {
    var d := TradeDoc(t);
    assert d["date"] == Time(t.date) && d["type"] == Str(t.kind) && d["units"] == Num(t.units);
    assert d["currency"] == Adapter.TextCell(t.currency) && d["platform"] == Str(t.platform);
  }

  /** `main`: the fetched ledger, normalised, bound for `collection_cryptos`
      with its balance kept in units. */
  function Extract(es: seq<LedgerEntry>): (r: Result<DataFeed.SubCollection, KrakenError>)
    ensures r.Success? <==> exists i :: 0 <= i < |es| && KnownAsset(es[i])
    ensures r.Success? ==> |r.value.rows| == |es| && r.value.destination == DataFeed.CryptosLedger
    ensures r.Success? ==> forall i :: 0 <= i < |es| ==> r.value.rows[i].Keys == LedgerColumns
  {
    var ts :- CleanLedger(es);
    Success(DataFeed.SubCollection(seq(|ts|, i requires 0 <= i < |ts| => TradeDoc(ts[i])), "units", "currency",
                                   DataFeed.CryptosLedger))
  }

  /** The driver writes every ledger `clean_ledger` returns, entries of
      unknown coins included: their currency is NaN, so they fall in no
      balance group and carry a NaN balance in their id. */
  lemma ExtractWritable(es: seq<LedgerEntry>)
    requires Extract(es).Success?
    ensures DataFeed.Writable(Extract(es).value)
    ensures forall i :: 0 <= i < |es| ==>
      Identity.ReadEntry(Extract(es).value.rows[i], "units", "currency").Some?
      && (Identity.Grouped(Identity.ReadEntry(Extract(es).value.rows[i], "units", "currency").value) <==> KnownAsset(es[i]))
  {
    var c := Extract(es).value;
    var ts := CleanLedger(es).value;
    forall i | 0 <= i < |es|
      ensures Identity.ReadEntry(c.rows[i], "units", "currency") == Some(TradeEntry(ts[i]))
      ensures Identity.Grouped(TradeEntry(ts[i])) <==> KnownAsset(es[i])
    {
      assert c.rows[i] == TradeDoc(ts[i]);
      TradeDocIdentity(ts[i]);
      CleanEntryShape(es[i]);
    }
    if |es| > 0 {
      forall j | 0 <= j < 5
        ensures Identity.HasColumnIn(c.rows, Identity.IdentityColumns("units", "currency")[j])
      {
        assert c.rows[0] == TradeDoc(ts[0]);
        assert Identity.IdentityColumns("units", "currency")[j] in TradeDoc(ts[0]);
      }
    }
    assert c.amountCol == "units" && c.ccyCol == "currency";
  }
}
