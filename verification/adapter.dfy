/** What a platform adapter hands to the ingestion driver: ledgers wrapped
    by `collection_config` (`data/platform_data/_data_extract_util.py`), and
    the cash-flow row that four of the adapters build. */
module Adapter {
  import opened Wrappers
  import opened DocumentStore
  import Identity
  import DataFeed

  /** A row of `collection_cash_flows` with the columns `date, type,
      subtype, amount, platform, currency, description, asset_class`.
      A currency or description that pandas leaves as NaN is `None`. */
  datatype CashFlow = CashFlow(date: real, kind: string, subtype: string, amount: real, platform: string,
                               currency: Option<string>, description: Option<string>, assetClass: string)

  const CashFlowColumns: set<string> :=
    {"date", "type", "subtype", "amount", "platform", "currency", "description", "asset_class"}

  /** A text cell, NaN when absent. */
  function TextCell(o: Option<string>): Value {
    if o.Some? then Str(o.value) else Null
  }

  /** The document a cash-flow row becomes once the frame is turned into records. */
  function CashFlowDoc(c: CashFlow): (d: Doc)
    ensures d.Keys == CashFlowColumns
  {
    map["date" := Time(c.date), "type" := Str(c.kind), "subtype" := Str(c.subtype),
        "amount" := Num(c.amount), "platform" := Str(c.platform), "currency" := TextCell(c.currency),
        "description" := TextCell(c.description), "asset_class" := Str(c.assetClass)]
  }

  function CashFlowDocs(cs: seq<CashFlow>): (r: seq<Doc>)
    ensures |r| == |cs|
    ensures forall i :: 0 <= i < |cs| ==> r[i] == CashFlowDoc(cs[i])
    decreases |cs|
  {
    if |cs| == 0 then [] else [CashFlowDoc(cs[0])] + CashFlowDocs(cs[1..])
  }

  /** A cash-flow ledger with the default `amount` and `currency` columns. */
  function CashFlowLedger(cs: seq<CashFlow>): DataFeed.SubCollection {
    DataFeed.SubCollection(CashFlowDocs(cs), "amount", "currency", DataFeed.CashFlows)
  }

  /** A text cell as the driver's identity reads it. */
  function TextKey(o: Option<string>): Identity.Key {
    if o.Some? then Identity.Text(o.value) else Identity.Missing
  }

  /** The identity fields of a cash-flow row. */
  function CashFlowEntry(c: CashFlow): Identity.Entry {
    Identity.Entry(c.date, Identity.Text(c.kind), Some(c.amount), TextKey(c.currency), Identity.Text(c.platform))
  }

  /** The driver reads a cash-flow row's identity back unchanged, a missing
      currency as NaN; the row then belongs to no balance group. */
  lemma CashFlowIdentity(c: CashFlow)
    ensures Identity.ReadEntry(CashFlowDoc(c), "amount", "currency") == Some(CashFlowEntry(c))
    ensures Identity.Grouped(CashFlowEntry(c)) <==> c.currency.Some?
  {
    var d := CashFlowDoc(c);
    assert d["date"] == Time(c.date) && d["type"] == Str(c.kind) && d["amount"] == Num(c.amount);
    assert d["currency"] == TextCell(c.currency) && d["platform"] == Str(c.platform);
  }

  /** The driver can stamp and write every cash-flow ledger, NaN currencies
      included, and reads each row's identity from its own fields. */
  lemma CashFlowLedgerWritable(cs: seq<CashFlow>)
    ensures DataFeed.Writable(CashFlowLedger(cs))
    ensures forall i :: 0 <= i < |cs| ==>
      Identity.ReadEntry(CashFlowLedger(cs).rows[i], "amount", "currency") == Some(CashFlowEntry(cs[i]))
  {
    var c := CashFlowLedger(cs);
    forall i | 0 <= i < |cs|
      ensures Identity.ReadEntry(c.rows[i], "amount", "currency") == Some(CashFlowEntry(cs[i]))
    {
      CashFlowIdentity(cs[i]);
    }
    if |cs| > 0 {
      forall j | 0 <= j < 5
        ensures Identity.HasColumnIn(c.rows, Identity.IdentityColumns("amount", "currency")[j])
      {
        assert Identity.IdentityColumns("amount", "currency")[j] in CashFlowDoc(cs[0]);
      }
    }
  }
}
