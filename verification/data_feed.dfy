/** The ingestion driver (`CapitalVaultDataFeed` in
    `data/platform_data/platform_data_refresh.py`): collect every platform's
    ledgers, keep the rows from the cut-off date on, stamp each row with its
    id and upsert the rows into one of the four ledger collections. */
module DataFeed {
  import opened Wrappers
  import opened Seqs
  import opened DocumentStore
  import Identity
  import Calendar

  /** One ledger an adapter's `main()` hands over: the rows, the names of
      their amount and currency columns, and the attribute naming the
      collection they go to, as `collection_config` builds it. */
  datatype SubCollection = SubCollection(rows: seq<Doc>, amountCol: string, ccyCol: string, destination: string)

  /** The adapters, in the order they run. */
  const Platforms: seq<string> := ["bcge", "etoro", "ibkr", "kraken", "revolut"]

  // ---------------------------------------------------------------------------
  // get_collections
  // ---------------------------------------------------------------------------

  /** `df['date'] >= start_date` after `pd.to_datetime(..., utc=True)`; a row
      without a date compares as `NaT` and is dropped. */
  predicate OnOrAfter(row: Doc, start: real) {
    "date" in row && row["date"].Time? && row["date"].t >= start
  }

  /** The rows dated on or after `start`, in their order. */
  function RowsFrom(rows: seq<Doc>, start: real): (r: seq<Doc>)
    ensures forall i :: 0 <= i < |r| ==> OnOrAfter(r[i], start)
    ensures forall i :: 0 <= i < |rows| && OnOrAfter(rows[i], start) ==> rows[i] in r
    ensures IsSubseq(r, rows)
  {
    var keep := row => OnOrAfter(row, start);
    FilterSubseq(rows, keep);
    FilterMembers(rows, keep);
    Filter(rows, keep)
  }

  /** One ledger after the optional start-date filter. */
  function FilterFrame(c: SubCollection, start: Option<real>): SubCollection {
    if start.None? then c else c.(rows := RowsFrom(c.rows, start.value))
  }

  function Frames(cs: seq<SubCollection>, start: Option<real>): (r: seq<SubCollection>)
    ensures |r| == |cs|
    ensures forall i :: 0 <= i < |cs| ==> r[i] == FilterFrame(cs[i], start)
    decreases |cs|
  {
    if |cs| == 0 then [] else [FilterFrame(cs[0], start)] + Frames(cs[1..], start)
  }

  /** `DataFrame.empty == False`. */
  predicate NonEmpty(c: SubCollection) {
    |c.rows| > 0
  }

  /** `get_collections(start_date)`: platform by platform, each adapter's
      ledgers with the start filter applied, the empty ones dropped.
      `extracts[p]` is what the adapter of `Platforms[p]` returned. */
  function GetCollections(extracts: seq<seq<SubCollection>>, start: Option<real>): (r: seq<SubCollection>)
    ensures forall i :: 0 <= i < |r| ==> |r[i].rows| > 0
    ensures start.Some? ==> forall i, j :: 0 <= i < |r| && 0 <= j < |r[i].rows| ==> OnOrAfter(r[i].rows[j], start.value)
    decreases |extracts|
  {
    if |extracts| == 0 then []
    else
      FilterMembers(Frames(extracts[0], start), NonEmpty);
      Filter(Frames(extracts[0], start), NonEmpty) + GetCollections(extracts[1..], start)
  }

  lemma FramesConcat(a: seq<SubCollection>, b: seq<SubCollection>, start: Option<real>)
    ensures Frames(a + b, start) == Frames(a, start) + Frames(b, start)
  {
  }

  lemma FramesUnfiltered(cs: seq<SubCollection>)
    ensures Frames(cs, None) == cs
  {
  }

  /** The ledgers come out in platform order, then in the order each adapter
      listed them: exactly the non-empty filtered ledgers of all adapters. */
  lemma {:induction false} GetCollectionsOrder(extracts: seq<seq<SubCollection>>, start: Option<real>)
    ensures GetCollections(extracts, start) == Filter(Frames(Flatten(extracts), start), NonEmpty)
    decreases |extracts|
  {
    if |extracts| > 0 {
      GetCollectionsOrder(extracts[1..], start);
      FramesConcat(extracts[0], Flatten(extracts[1..]), start);
      FilterConcat(Frames(extracts[0], start), Frames(Flatten(extracts[1..]), start), NonEmpty);
    }
  }

  /** Without a start date nothing is filtered: every non-empty ledger is
      passed on whole. */
  lemma GetCollectionsUnfiltered(extracts: seq<seq<SubCollection>>)
    ensures GetCollections(extracts, None) == Filter(Flatten(extracts), NonEmpty)
  {
    GetCollectionsOrder(extracts, None);
    FramesUnfiltered(Flatten(extracts));
  }

  // ---------------------------------------------------------------------------
  // The cut-off of an update run
  // ---------------------------------------------------------------------------

  /** `pd.to_datetime(f'{pd.Timestamp.now().year}-01-01', utc=True)`: midnight
      UTC opening 1 January of the year the local clock `localNow` is in. */
  function Cutoff(localNow: real): (r: real)
    ensures forall y :: Calendar.YearStartDay(y) <= Calendar.Day(localNow) < Calendar.YearStartDay(y + 1)
                        ==> r == Calendar.Midnight(Calendar.YearStartDay(y))
    ensures r <= localNow
    ensures localNow - r < (366 * Calendar.SecondsPerDay) as real
  {
    var d := Calendar.Day(localNow);
    var y := Calendar.YearOfDay(d);
    forall z | Calendar.YearStartDay(z) <= d < Calendar.YearStartDay(z + 1)
      ensures z == y
    {
      Calendar.YearOfDayUnique(d, z);
    }
    Calendar.DayMonotone(localNow, Calendar.YearStartDay(y));
    Calendar.YearStartStep(y);
    Calendar.Midnight(Calendar.YearStartDay(y))
  }

  /** `data_feed(update)`: the start date handed to `get_collections`. */
  function StartDate(update: bool, localNow: real): Option<real> {
    if update then Some(Cutoff(localNow)) else None
  }

  // ---------------------------------------------------------------------------
  // The four ledger collections and write_collection
  // ---------------------------------------------------------------------------

  datatype Vault = Vault(cashFlows: Store, securities: Store, cryptos: Store, fixedIncome: Store)

  const CashFlows: string := "collection_cash_flows"
  const SecuritiesLedger: string := "collection_securities_ledger"
  const CryptosLedger: string := "collection_cryptos"
  const FixedIncomeLedger: string := "collection_fixed_income"

  /** The attribute names `getattr(self, destination_collection)` resolves to a collection. */
  predicate IsDestination(name: string) {
    name == CashFlows || name == SecuritiesLedger || name == CryptosLedger || name == FixedIncomeLedger
  }

  function Get(v: Vault, name: string): Store
    requires IsDestination(name)
  {
    if name == CashFlows then v.cashFlows
    else if name == SecuritiesLedger then v.securities
    else if name == CryptosLedger then v.cryptos
    else v.fixedIncome
  }

  function Put(v: Vault, name: string, s: Store): (r: Vault)
    requires IsDestination(name)
    ensures Get(r, name) == s
    ensures forall other :: IsDestination(other) && other != name ==> Get(r, other) == Get(v, other)
  {
    if name == CashFlows then v.(cashFlows := s)
    else if name == SecuritiesLedger then v.(securities := s)
    else if name == CryptosLedger then v.(cryptos := s)
    else v.(fixedIncome := s)
  }

  /** Two vaults holding the same four collections are the same. */
  lemma VaultExtensional(a: Vault, b: Vault)
    requires forall d :: IsDestination(d) ==> Get(a, d) == Get(b, d)
    ensures a == b
  {
    assert Get(a, CashFlows) == Get(b, CashFlows);
    assert Get(a, SecuritiesLedger) == Get(b, SecuritiesLedger);
    assert Get(a, CryptosLedger) == Get(b, CryptosLedger);
    assert Get(a, FixedIncomeLedger) == Get(b, FixedIncomeLedger);
  }

  datatype FeedError =
    | LedgerWithoutColumn(name: string) // `balance_calc` selects a column no row has
    | MalformedLedger(row: nat)        // `balance_calc` raises on a row's identity cells
    | UnknownDestination(name: string) // `getattr(..., None)` gave `None`

  /** `balance_calc` runs to the end on the ledger: its identity columns
      exist and no row holds a cell it raises on. NaN cells are fine. */
  predicate Stampable(c: SubCollection) {
    Identity.Readable(c.rows, c.amountCol, c.ccyCol)
  }

  predicate Writable(c: SubCollection) {
    Stampable(c) && IsDestination(c.destination)
  }

  /** The rows of `c` after `balance_calc`. */
  function Stamped(c: SubCollection, fmt: real -> string): (r: seq<Doc>)
    requires Stampable(c)
    ensures HasColumn(r, IdField)
  {
    Identity.BalanceCalc(c.rows, c.amountCol, c.ccyCol, fmt).value
  }

  /** `write_collection(collection)`: stamp the rows, then upsert them by
      `_id` into the named collection. Nothing else in the vault changes. */
  function WriteCollection(v: Vault, c: SubCollection, fmt: real -> string): (r: Result<Vault, FeedError>)
    ensures r.Success? <==> Writable(c)
    ensures r.Success? ==> Get(r.value, c.destination) == Write(Get(v, c.destination), Stamped(c, fmt), IdField).store
    ensures r.Success? ==> forall other :: IsDestination(other) && other != c.destination ==> Get(r.value, other) == Get(v, other)
  {
    match Identity.BalanceCalc(c.rows, c.amountCol, c.ccyCol, fmt)
    case Failure(e) =>
      Failure(if e.NoColumn? then LedgerWithoutColumn(e.name) else MalformedLedger(e.index))
    case Success(out) =>
      if !IsDestination(c.destination) then Failure(UnknownDestination(c.destination))
      else Success(Put(v, c.destination, Write(Get(v, c.destination), out, IdField).store))
  }

  /** Every stamped row ends up in its collection under its own `_id`. */
  lemma WriteCollectionStores(v: Vault, c: SubCollection, fmt: real -> string, i: int)
    requires Writable(c)
    requires 0 <= i < |Stamped(c, fmt)|
    ensures var k := Stamped(c, fmt)[i][IdField];
      var s := Get(WriteCollection(v, c, fmt).value, c.destination);
      k in s && IdField in s[k] && s[k][IdField] == k
  {
    WrittenIdField(Get(v, c.destination), Stamped(c, fmt), IdField, i);
  }

  // ---------------------------------------------------------------------------
  // data_feed
  // ---------------------------------------------------------------------------

  /** The vault after a run, and the exception that stopped it, if any. */
  datatype FeedOutcome = FeedOutcome(vault: Vault, error: Option<FeedError>)

  /** `for sub_collection in collection_list: self.write_collection(...)`. */
  function FeedWrites(v: Vault, cs: seq<SubCollection>, fmt: real -> string): (r: FeedOutcome)
    ensures r.error.None? <==> forall i :: 0 <= i < |cs| ==> Writable(cs[i])
    decreases |cs|
  {
    if |cs| == 0 then FeedOutcome(v, None)
    else
      match WriteCollection(v, cs[0], fmt)
      case Failure(e) => FeedOutcome(v, Some(e))
      case Success(v') =>
        var r := FeedWrites(v', cs[1..], fmt);
        assert (forall i :: 0 <= i < |cs| ==> Writable(cs[i])) <==> (forall i :: 0 <= i < |cs[1..]| ==> Writable(cs[1..][i])) by {
          if forall i :: 0 <= i < |cs[1..]| ==> Writable(cs[1..][i]) {
            forall i | 0 < i < |cs| ensures Writable(cs[i]) {
              assert cs[i] == cs[1..][i - 1];
            }
          }
        }
        r
  }

  /** `data_feed(update)` at local time `localNow`; `extracts` are the
      adapters' outputs and `fmt` renders floats as Python's `str` does. */
  function DataFeed(v: Vault, extracts: seq<seq<SubCollection>>, update: bool, localNow: real, fmt: real -> string): (r: FeedOutcome)
    ensures var cs := GetCollections(extracts, StartDate(update, localNow));
      r.error.None? <==> forall i :: 0 <= i < |cs| ==> Writable(cs[i])
    ensures !update ==> r == FeedWrites(v, Filter(Flatten(extracts), NonEmpty), fmt)
  {
    GetCollectionsUnfiltered(extracts);
    FeedWrites(v, GetCollections(extracts, StartDate(update, localNow)), fmt)
  }

  /** All the stamped rows a run sends to collection `d`, in the order written. */
  function Batch(cs: seq<SubCollection>, d: string, fmt: real -> string): (r: seq<Doc>)
    requires forall i :: 0 <= i < |cs| ==> Writable(cs[i])
    ensures HasColumn(r, IdField)
    decreases |cs|
  {
    if |cs| == 0 then []
    else
      assert Writable(cs[0]);
      var rest := Batch(cs[1..], d, fmt);
      var mine := if cs[0].destination == d then Stamped(cs[0], fmt) else [];
      HasColumnConcat(mine, rest, IdField);
      mine + rest
  }

  /** A run writes, to each collection, the concatenation of the ledgers
      addressed to it, as one batch: the others' writes do not interfere. */
  lemma {:induction false} FeedPerDestination(v: Vault, cs: seq<SubCollection>, fmt: real -> string, d: string)
    requires forall i :: 0 <= i < |cs| ==> Writable(cs[i])
    requires IsDestination(d)
    ensures Get(FeedWrites(v, cs, fmt).vault, d) == Write(Get(v, d), Batch(cs, d, fmt), IdField).store
    decreases |cs|
  {
    if |cs| > 0 {
      var v' := WriteCollection(v, cs[0], fmt).value;
      FeedWritesStep(v, cs, fmt);
      FeedPerDestination(v', cs[1..], fmt, d);
      BatchStep(cs, d, fmt);
      WriteCollectionGet(v, cs[0], fmt, d);
      ChainWrites(Get(v, d), Get(v', d), Get(FeedWrites(v', cs[1..], fmt).vault, d),
                  Stamped(cs[0], fmt), Batch(cs[1..], d, fmt), Batch(cs, d, fmt), cs[0].destination == d);
    }
  }

  /** One step of the per-collection argument, over plain stores: whether or
      not the first ledger went to this collection, the collection ends up as
      one write of the whole batch. */
  lemma ChainWrites(s0: Store, s1: Store, out: Store, mine: seq<Doc>, rest: seq<Doc>, batch: seq<Doc>, hit: bool)
    requires HasColumn(mine, IdField)
    requires out == Write(s1, rest, IdField).store
    requires hit ==> s1 == Write(s0, mine, IdField).store && batch == mine + rest
    requires !hit ==> s1 == s0 && batch == rest
    ensures out == Write(s0, batch, IdField).store
  {
    if hit {
      WriteConcat(s0, mine, rest, IdField);
    }
  }

  lemma FeedWritesStep(v: Vault, cs: seq<SubCollection>, fmt: real -> string)
    requires |cs| > 0 && Writable(cs[0])
    ensures FeedWrites(v, cs, fmt) == FeedWrites(WriteCollection(v, cs[0], fmt).value, cs[1..], fmt)
  {
  }

  lemma BatchStep(cs: seq<SubCollection>, d: string, fmt: real -> string)
    requires |cs| > 0
    requires forall i :: 0 <= i < |cs| ==> Writable(cs[i])
    ensures cs[0].destination == d ==> Batch(cs, d, fmt) == Stamped(cs[0], fmt) + Batch(cs[1..], d, fmt)
    ensures cs[0].destination != d ==> Batch(cs, d, fmt) == Batch(cs[1..], d, fmt)
  {
  }

  lemma WriteCollectionGet(v: Vault, c: SubCollection, fmt: real -> string, d: string)
    requires Writable(c) && IsDestination(d)
    ensures Get(WriteCollection(v, c, fmt).value, d)
         == if c.destination == d then Write(Get(v, d), Stamped(c, fmt), IdField).store else Get(v, d)
  {
  }

  /** Re-ingestion is harmless: running the same writes again over their own
      result leaves every collection as it was. */
  lemma FeedIdempotent(v: Vault, cs: seq<SubCollection>, fmt: real -> string)
    requires FeedWrites(v, cs, fmt).error.None?
    ensures FeedWrites(FeedWrites(v, cs, fmt).vault, cs, fmt) == FeedWrites(v, cs, fmt)
  {
    var once := FeedWrites(v, cs, fmt).vault;
    var twice := FeedWrites(once, cs, fmt).vault;
    forall d | IsDestination(d)
      ensures Get(twice, d) == Get(once, d)
    {
      FeedPerDestination(v, cs, fmt, d);
      FeedPerDestination(once, cs, fmt, d);
      WriteIdempotent(Get(v, d), Batch(cs, d, fmt), IdField);
    }
    VaultExtensional(twice, once);
  }

  /** Running `data_feed` twice with the same extracts and clock leaves the
      vault as running it once. */
  lemma DataFeedIdempotent(v: Vault, extracts: seq<seq<SubCollection>>, update: bool, localNow: real, fmt: real -> string)
    requires DataFeed(v, extracts, update, localNow, fmt).error.None?
    ensures DataFeed(DataFeed(v, extracts, update, localNow, fmt).vault, extracts, update, localNow, fmt)
         == DataFeed(v, extracts, update, localNow, fmt)
  {
    FeedIdempotent(v, GetCollections(extracts, StartDate(update, localNow)), fmt);
  }

  /** An update run writes only rows dated on or after 1 January of the
      current year; a full run writes every non-empty ledger whole. */
  lemma DataFeedScope(extracts: seq<seq<SubCollection>>, update: bool, localNow: real)
    ensures var cs := GetCollections(extracts, StartDate(update, localNow));
      update ==> forall i, j :: 0 <= i < |cs| && 0 <= j < |cs[i].rows| ==> OnOrAfter(cs[i].rows[j], Cutoff(localNow))
    ensures !update ==> GetCollections(extracts, StartDate(update, localNow)) == Filter(Flatten(extracts), NonEmpty)
  {
    if !update {
      GetCollectionsUnfiltered(extracts);
    }
  }
}
