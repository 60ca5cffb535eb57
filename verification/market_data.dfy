/** The market-data side of the pipeline (`data/market_data/market_data_extract.py`):
    keeping the `fx_matrix` and `market_prices` collections complete. A
    stored matrix is one document per date. An update first fetches the
    dates after the latest stored one, then back-fills the instruments the
    matrix has no column for, on the stored dates only. The price provider
    (`get_prices`, a yfinance download) is a parameter. */
module MarketData {
  import opened Wrappers
  import opened Text
  import opened Seqs
  import opened Frames
  import Valuation

  /** A `(date, ticker)` pair read from a source ledger, the date as a day
      and a missing ticker (NaN) as `None`. */
  datatype SourceRow = SourceRow(day: int, ticker: Option<string>)

  /** What `__get_meta_data` derives from the source ledgers: the date
      window and the instruments they mention, NaN included. */
  datatype Meta = Meta(start: int, end: int, needed: seq<Option<string>>)

  datatype MarketError =
    | NoSourceRows     // `min()` of an empty date column is NaT
    | ChfNotListed     // `list.remove('CHF')` raises ValueError
    | EmptyMatrix      // `list.remove('_id')` on a frame without columns
    | ShapeMismatch    // positional assignment of back-filled values of another length
    | NanCurrency      // `ccy + 'CHF=X'` on a NaN currency raises TypeError
    | NanTicker        // `ticker.replace('.US', '')` on a NaN ticker raises AttributeError

  /** A stored document without its `_id` and `date`: instrument column to
      value, NaN as `None`. */
  type Row = map<string, Option<real>>

  /** A stored matrix: the document of every stored date. */
  type Matrix = map<int, Row>

  /** `get_prices(symbols, start_date)`: a row per trading day from the
      start day on, keyed by the requested symbols. */
  type Provider = (seq<string>, int) -> Matrix

  // ---------------------------------------------------------------------------
  // Minimum and maximum
  // ---------------------------------------------------------------------------

  /** The set holds a day. */
  predicate Any(s: set<int>) {
    exists d :: d in s
  }

  /** The collection holds a document (`not data.empty`). */
  predicate Stored(m: Matrix) {
    exists d :: d in m
  }

  lemma HasMax(s: set<int>)
    requires Any(s)
    ensures exists x :: x in s && forall y :: y in s ==> y <= x
    decreases |s|
  {
    var x :| x in s;
    var rest := s - {x};
    if y :| y in rest {
      HasMax(rest);
      var m :| m in rest && forall y :: y in rest ==> y <= m;
      var top := if x <= m then m else x;
      forall y | y in s ensures y <= top { if y != x { assert y in rest; } }
      assert top in s;
    } else {
      forall y | y in s ensures y <= x { assert y == x || y in rest; }
    }
  }

  lemma HasMin(s: set<int>)
    requires Any(s)
    ensures exists x :: x in s && forall y :: y in s ==> x <= y
    decreases |s|
  {
    var x :| x in s;
    var rest := s - {x};
    if y :| y in rest {
      HasMin(rest);
      var m :| m in rest && forall y :: y in rest ==> m <= y;
      var bottom := if m <= x then m else x;
      forall y | y in s ensures bottom <= y { if y != x { assert y in rest; } }
      assert bottom in s;
    } else {
      forall y | y in s ensures x <= y { assert y == x || y in rest; }
    }
  }

  /** `max()` of a non-empty set of days. */
  function MaxKey(s: set<int>): (x: int)
    requires Any(s)
    ensures x in s && forall y :: y in s ==> y <= x
  {
    HasMax(s);
    var x :| x in s && forall y :: y in s ==> y <= x;
    x
  }

  /** `min()` of a non-empty set of days. */
  function MinKey(s: set<int>): (x: int)
    requires Any(s)
    ensures x in s && forall y :: y in s ==> x <= y
  {
    HasMin(s);
    var x :| x in s && forall y :: y in s ==> x <= y;
    x
  }

  // ---------------------------------------------------------------------------
  // __get_meta_data
  // ---------------------------------------------------------------------------

  function DaysOf(rows: seq<SourceRow>): (r: set<int>)
    ensures forall d :: d in r <==> exists i :: 0 <= i < |rows| && rows[i].day == d
  {
    set i | 0 <= i < |rows| :: rows[i].day
  }

  function TickersOf(rows: seq<SourceRow>): (r: seq<Option<string>>)
    ensures |r| == |rows|
    ensures forall i :: 0 <= i < |rows| ==> r[i] == rows[i].ticker
  {
    seq(|rows|, i requires 0 <= i < |rows| => rows[i].ticker)
  }

  /** The source ledgers' `(date, ticker)` columns concatenated: the window
      runs from the earliest to the latest date, and the needed instruments
      are the distinct tickers, a NaN one kept as `unique()` keeps it. */
  function GetMetaData(sources: seq<seq<SourceRow>>): (r: Result<Meta, MarketError>)
    ensures r.Success? <==> |Flatten(sources)| > 0
    ensures r.Success? ==> forall i :: 0 <= i < |Flatten(sources)| ==>
      r.value.start <= Flatten(sources)[i].day <= r.value.end
    ensures r.Success? ==> r.value.start in DaysOf(Flatten(sources)) && r.value.end in DaysOf(Flatten(sources))
    ensures r.Success? ==> Distinct(r.value.needed)
    ensures r.Success? ==> forall t :: t in r.value.needed <==> t in TickersOf(Flatten(sources))
  {
    var rows := Flatten(sources);
    if |rows| == 0 then Failure(NoSourceRows)
    else
      var days := DaysOf(rows);
      assert rows[0].day in days;
      assert Any(days);
      var tickers := TickersOf(rows);
      var needed := Unique(tickers);
      assert forall t :: t in needed ==> t in tickers;
      assert forall t :: t in tickers ==> t in needed;
      assert forall i :: 0 <= i < |rows| ==> rows[i].day in days;
      Success(Meta(MinKey(days), MaxKey(days), needed))
  }

  // ---------------------------------------------------------------------------
  // Dates to fetch
  // ---------------------------------------------------------------------------

  /** `update_fx_data` / `update_market_data`: the days of
      `date_range(first stored date, window end)` after the last stored date;
      the whole window when nothing is stored. */
  function DatesToFetch(m: Matrix, meta: Meta): (r: set<int>)
    ensures !Stored(m) ==> forall d :: d in r <==> meta.start <= d <= meta.end
    ensures Stored(m) ==> forall d :: d in r <==> MaxKey(m.Keys) < d <= meta.end
  {
    if !Stored(m) then Valuation.CalendarDays(meta.start, meta.end)
    else
      var first := MinKey(m.Keys);
      var last := MaxKey(m.Keys);
      set d | d in Valuation.CalendarDays(first, meta.end) && d > last
  }

  /** A matrix stored up to the window's end asks for nothing. */
  lemma UpToDateFetchesNothing(m: Matrix, meta: Meta)
    requires Stored(m) && meta.end in m
    ensures !Any(DatesToFetch(m, meta))
  {
    var r := DatesToFetch(m, meta);
    assert meta.end <= MaxKey(m.Keys);
    assert forall d :: d !in r;
  }

  // ---------------------------------------------------------------------------
  // Writing fetched rows
  // ---------------------------------------------------------------------------

  /** A column of a fetched row, NaN when the provider has none. */
  function Lookup(row: Row, sym: string): Option<real> {
    if sym in row then row[sym] else None
  }

  /** The stored column name of a provider symbol: `split('=X')[0]` for FX
      symbols, the ticker itself for securities. */
  function ColumnName(sym: string, fx: bool): string {
    if fx then BeforeSep(sym, "=X") else sym
  }

  /** A fetched row as a frame row: one column per requested symbol, NaN
      where the provider had no value; a later symbol of the same column
      name wins. */
  function Picked(row: Row, syms: seq<string>, fx: bool): (r: Row)
    ensures forall i :: 0 <= i < |syms| ==> ColumnName(syms[i], fx) in r
    ensures !fx ==> forall k :: k in r ==> r[k] == Lookup(row, k)
    decreases |syms|
  {
    if |syms| == 0 then map[]
    else
      var init := syms[..|syms| - 1];
      var last := syms[|syms| - 1];
      assert forall i :: 0 <= i < |init| ==> init[i] == syms[i];
      Picked(row, init, fx)[ColumnName(last, fx) := Lookup(row, last)]
  }

  /** `collection_writer(frame, '_id')` with the date as `_id`: a new date is
      inserted, a stored one has the written fields `$set`, keeping the rest. */
  function WriteRows(m: Matrix, rows: Matrix): (r: Matrix)
    ensures r.Keys == m.Keys + rows.Keys
    ensures forall d :: d in m && d !in rows ==> r[d] == m[d]
    ensures forall d, c :: d in rows && c in rows[d] ==> c in r[d] && r[d][c] == rows[d][c]
    ensures forall d, c :: d in m && c in m[d] && (d !in rows || c !in rows[d]) ==> c in r[d] && r[d][c] == m[d][c]
    ensures forall d, c :: d in r && c in r[d] ==> (d in rows && c in rows[d]) || (d in m && c in m[d])
  {
    map d | d in m.Keys + rows.Keys :: if d in rows then (if d in m then m[d] + rows[d] else rows[d]) else m[d]
  }

  /** The fetched frame as written: every fetched day with every requested
      column. */
  function Fetched(f: Matrix, syms: seq<string>, fx: bool): (r: Matrix)
    ensures r.Keys == f.Keys
  {
    map d | d in f :: Picked(f[d], syms, fx)
  }

  /** The column names of a matrix (`data.columns` without `_id` and `date`). */
  function Columns(m: Matrix): set<string> {
    set d, c | d in m && c in m[d] :: c
  }

  /** `list.remove(x)`: the list without its first `x`; ValueError without one. */
  function RemoveFirst(s: seq<string>, x: string): (r: Option<seq<string>>)
    ensures r.Some? <==> x in s
    ensures r.Some? ==> forall y :: y != x ==> (y in r.value <==> y in s)
    decreases |s|
  {
    if |s| == 0 then None
    else if s[0] == x then Some(s[1..])
    else
      match RemoveFirst(s[1..], x)
      case None => None
      case Some(t) => Some([s[0]] + t)
  }

  /** On a list without repetitions the removed element is gone. */
  lemma {:induction false} RemovedIsGone(s: seq<string>, x: string)
    requires Distinct(s) && x in s
    ensures x !in RemoveFirst(s, x).value
    decreases |s|
  {
    if s[0] != x {
      assert x in s[1..];
      RemovedIsGone(s[1..], x);
    }
  }

  // ---------------------------------------------------------------------------
  // ForexData
  // ---------------------------------------------------------------------------

  /** The needed currencies of `ForexData`: every GBX read as GBP. */
  function FxNeeded(tickers: seq<string>): (r: seq<string>)
    ensures |r| == |tickers|
    ensures "GBX" !in r
    ensures forall i :: 0 <= i < |tickers| && tickers[i] != "GBX" ==> r[i] == tickers[i]
    ensures "GBX" in tickers ==> "GBP" in r
  {
    var r := seq(|tickers|, i requires 0 <= i < |tickers| => if tickers[i] == "GBX" then "GBP" else tickers[i]);
    assert "GBX" in tickers ==> "GBP" in r by {
      if "GBX" in tickers {
        var i :| 0 <= i < |tickers| && tickers[i] == "GBX";
        assert r[i] == "GBP";
      }
    }
    r
  }

  /** The provider symbol of a currency against the franc. */
  function FxSymbols(ccys: seq<string>): (r: seq<string>)
    ensures |r| == |ccys|
    ensures forall i :: 0 <= i < |ccys| ==> r[i] == ccys[i] + "CHF=X"
  {
    seq(|ccys|, i requires 0 <= i < |ccys| => ccys[i] + "CHF=X")
  }

  const ChfColumn: string := "CHFCHF"

  /** `__add_missing_dates` of `ForexData`: nothing to fetch writes nothing;
      otherwise every needed currency but CHF is fetched from the first
      missing day on and written with a constant `CHFCHF` column of 1. */
  function AddMissingDatesFx(m: Matrix, needed: seq<string>, dates: set<int>, fetch: Provider): (r: Result<Matrix, MarketError>)
    ensures !Any(dates) ==> r == Success(m)
    ensures Any(dates) ==> (r.Success? <==> "CHF" in needed)
    ensures r.Success? && Any(dates) ==>
      var f := fetch(FxSymbols(RemoveFirst(needed, "CHF").value), MinKey(dates));
      && r.value.Keys == m.Keys + f.Keys
      && (forall d :: d in f ==> ChfColumn in r.value[d] && r.value[d][ChfColumn] == Some(1.0))
      && (forall d :: d in m && d !in f ==> r.value[d] == m[d])
  {
    if !Any(dates) then Success(m)
    else
      match RemoveFirst(needed, "CHF")
      case None => Failure(ChfNotListed)
      case Some(ccys) =>
        var f := fetch(FxSymbols(ccys), MinKey(dates));
        var rows := map d | d in f :: Picked(f[d], FxSymbols(ccys), true)[ChfColumn := Some(1.0)];
        Success(WriteRows(m, rows))
  }

  /** The currencies a stored FX matrix covers: its column names with every
      `CHF` removed (`ccy.replace('CHF', '')`). */
  function HeldCurrencies(m: Matrix): (r: set<string>)
    ensures forall c :: c in Columns(m) ==> ReplaceAll(c, "CHF", "") in r
    ensures forall n :: n in r ==> exists c :: c in Columns(m) && ReplaceAll(c, "CHF", "") == n
  {
    set c | c in Columns(m) :: ReplaceAll(c, "CHF", "")
  }

  /** The needed currencies the matrix does not cover, in order. */
  function MissingCurrencies(m: Matrix, needed: seq<string>): (r: seq<string>)
    ensures forall n :: n in r <==> n in needed && n !in HeldCurrencies(m)
    ensures IsSubseq(r, needed)
  {
    var held := HeldCurrencies(m);
    FilterSubseq(needed, n => n !in held);
    FilterMembers(needed, n => n !in held);
    Filter(needed, n => n !in held)
  }

  /** The currencies the currency fill asks the provider for: the missing
      ones without CHF, which is never fetched. */
  function Requested(m: Matrix, needed: seq<string>): (r: seq<string>)
    ensures "CHF" in MissingCurrencies(m, needed) ==> forall n :: n != "CHF" ==> (n in r <==> n in MissingCurrencies(m, needed))
  {
    match RemoveFirst(MissingCurrencies(m, needed), "CHF")
    case None => []
    case Some(rest) => rest
  }

  /** The fetched rates of `ccys` written over every stored day: every day
      keeps its columns and gains one column per fetched currency. */
  function Backfill(m: Matrix, got: Matrix, ccys: seq<string>): (r: Matrix)
    requires got.Keys == m.Keys
    ensures r.Keys == m.Keys
    ensures forall d, c :: d in m && c in m[d] ==> c in r[d]
    ensures forall d, n :: d in m && n in ccys ==> ColumnName(n + "CHF=X", true) in r[d]
  {
    FetchedFx(got, ccys);
    WriteRows(m, Fetched(got, FxSymbols(ccys), true))
  }

  /** Every fetched FX row carries a column for every requested currency. */
  lemma FetchedFx(got: Matrix, ccys: seq<string>)
    ensures forall d, n :: d in got && n in ccys ==> ColumnName(n + "CHF=X", true) in Fetched(got, FxSymbols(ccys), true)[d]
  {
    var syms := FxSymbols(ccys);
    forall d, n | d in got && n in ccys
      ensures ColumnName(n + "CHF=X", true) in Fetched(got, syms, true)[d]
    {
      var i :| 0 <= i < |ccys| && ccys[i] == n;
      assert syms[i] == n + "CHF=X";
    }
  }

  /** `__add_missing_currencies`: when more than CHF is missing, the other
      missing currencies are fetched from the window start, restricted to
      the stored dates and assigned to every stored row. */
  function AddMissingCurrencies(m: Matrix, needed: seq<string>, start: int, fetch: Provider): (r: Result<Matrix, MarketError>)
    ensures !Stored(m) ==> r == Failure(EmptyMatrix)
    ensures Stored(m) && MissingCurrencies(m, needed) == ["CHF"] ==> r == Success(m)
    ensures Stored(m) && "CHF" !in MissingCurrencies(m, needed) ==> r == Failure(ChfNotListed)
    ensures r.Success? ==> r.value.Keys == m.Keys
    ensures r.Success? ==> forall d, c :: d in m && c in m[d] ==> c in r.value[d]
    ensures r.Success? && MissingCurrencies(m, needed) != ["CHF"] ==>
      forall d, n :: d in m && n in Requested(m, needed) ==> ColumnName(n + "CHF=X", true) in r.value[d]
  {
    if !Stored(m) then Failure(EmptyMatrix)
    else
      var missing := MissingCurrencies(m, needed);
      if missing == ["CHF"] then Success(m)
      else
        match RemoveFirst(missing, "CHF")
        case None => Failure(ChfNotListed)
        case Some(rest) =>
          var f := fetch(FxSymbols(rest), start);
          var got := map d | d in f && d in m :: f[d];
          if got.Keys != m.Keys then Failure(ShapeMismatch)
          else Success(Backfill(m, got, rest))
  }

  /** `update_fx_data`: the missing dates first, then the missing currencies.
      A NaN currency always fails: `list.remove('CHF')` runs first and raises
      without a CHF, otherwise the NaN reaches `ccy + 'CHF=X'`. */
  function UpdateFx(m: Matrix, meta: Meta, fetch: Provider): (r: Result<Matrix, MarketError>)
    ensures None in meta.needed ==> r.Failure?
    ensures Any(DatesToFetch(m, meta)) && "CHF" !in FxNeeded(Present(meta.needed)) ==> r == Failure(ChfNotListed)
    ensures None in meta.needed && Any(DatesToFetch(m, meta)) && "CHF" in FxNeeded(Present(meta.needed)) ==>
      r == Failure(NanCurrency)
    ensures !Stored(m) && !Any(DatesToFetch(m, meta)) ==> r == Failure(EmptyMatrix)
    ensures r.Success? ==> m.Keys <= r.value.Keys
  {
    var needed := FxNeeded(Present(meta.needed));
    var dates := DatesToFetch(m, meta);
    if None in meta.needed then
      if Any(dates) then (if "CHF" in needed then Failure(NanCurrency) else Failure(ChfNotListed))
      else if !Stored(m) then Failure(EmptyMatrix)
      else if "CHF" in MissingCurrencies(m, needed) then Failure(NanCurrency)
      else Failure(ChfNotListed)
    else
      var m1 :- AddMissingDatesFx(m, needed, dates, fetch);
      AddMissingCurrencies(m1, needed, meta.start, fetch)
  }

  // ---------------------------------------------------------------------------
  // Currency codes and their columns
  // ---------------------------------------------------------------------------

  predicate IsCode(c: string) {
    |c| == 3 && forall i :: 0 <= i < 3 ==> 'A' <= c[i] <= 'Z'
  }

  /** `'CHFCHF'.replace('CHF', '')` is empty: CHF never counts as held. */
  lemma ChfColumnStripsToEmpty()
    ensures ReplaceAll(ChfColumn, "CHF", "") == ""
  {
    var s := ChfColumn;
    assert s[..3] == "CHF";
    assert s[3..] == "CHF";
    assert ReplaceAll(s[3..], "CHF", "") == "" by {
      assert s[3..][3..] == "";
    }
  }

  /** The column a code's symbol is stored under. */
  lemma CodeSymbolColumn(k: string)
    requires IsCode(k)
    ensures ColumnName(k + "CHF=X", true) == k + "CHF"
  {
    var s := k + "CHF";
    var u := s + "=X" + "";
    assert forall i :: 0 <= i < |s| ==> u[i] == s[i] && s[i] != '=' by {
      assert forall i :: 0 <= i < 3 ==> s[i] == k[i];
      assert s[3..] == "CHF";
    }
    forall j | OccursAt(u, "=X", j) ensures j >= |s| {
      assert u[j..j + 2][0] == '=';
    }
    BeforeSepOfSuffix(s, "=X", "");
    assert u == k + "CHF=X";
  }

  /** What a code's column strips back to. */
  lemma CodeStrips(k: string)
    requires |k| == 3
    ensures ReplaceAll(k + "CHF", "CHF", "") == if k == "CHF" then "" else k
  {
    if k == "CHF" {
      ChfColumnStripsToEmpty();
      assert k + "CHF" == ChfColumn;
    } else {
      assert k == [k[0], k[1], k[2]];
      StripThree(k[0], k[1], k[2]);
    }
  }

  lemma StripOne(x: char)
    ensures ReplaceAll([x] + "CHF", "CHF", "") == [x]
  {
    var s := [x] + "CHF";
    assert s[..3] != "CHF" by { assert s[2] == 'H'; }
    assert s[1..] == "CHF";
    assert ReplaceAll(s[1..], "CHF", "") == "" by {
      assert s[1..][3..] == "";
    }
  }

  lemma StripTwo(x: char, y: char)
    ensures ReplaceAll([x, y] + "CHF", "CHF", "") == [x, y]
  {
    var s := [x, y] + "CHF";
    assert s[..3] != "CHF" by { assert s[2] == 'C'; }
    assert s[1..] == [y] + "CHF";
    StripOne(y);
  }

  lemma StripThree(x: char, y: char, z: char)
    requires [x, y, z] != "CHF"
    ensures ReplaceAll([x, y, z] + "CHF", "CHF", "") == [x, y, z]
  {
    var s := [x, y, z] + "CHF";
    assert s[..3] == [x, y, z];
    assert s[1..] == [y, z] + "CHF";
    StripTwo(y, z);
  }

  /** Stored FX columns are `<code>CHF`; such a matrix never covers CHF, so a
      needed CHF is always missing. */
  lemma ChfAlwaysMissing(m: Matrix, needed: seq<string>)
    requires "CHF" in needed
    requires forall c :: c in Columns(m) ==> exists k :: IsCode(k) && c == k + "CHF"
    ensures "CHF" in MissingCurrencies(m, needed)
  {
    if "CHF" in HeldCurrencies(m) {
      var c :| c in Columns(m) && ReplaceAll(c, "CHF", "") == "CHF";
      var k :| IsCode(k) && c == k + "CHF";
      CodeStrips(k);
    }
  }

  /** The currency back-fill never asks the provider for CHF. */
  lemma ChfNeverBackfilled(m: Matrix, needed: seq<string>)
    requires Distinct(needed) && "CHF" in MissingCurrencies(m, needed)
    ensures "CHF" !in RemoveFirst(MissingCurrencies(m, needed), "CHF").value
  {
    var missing := MissingCurrencies(m, needed);
    DistinctSubseq(missing, needed);
    RemovedIsGone(missing, "CHF");
  }

  /** The matrix a successful update leaves covers every needed currency:
      the currency fill runs after the date fill, so whatever the date fill
      did not bring is back-filled. */
  lemma FxCompleteAfterUpdate(m: Matrix, meta: Meta, fetch: Provider)
    requires UpdateFx(m, meta, fetch).Success?
    requires forall n :: n in FxNeeded(Present(meta.needed)) ==> IsCode(n)
    ensures forall n :: n in FxNeeded(Present(meta.needed)) && n != "CHF" ==> n in HeldCurrencies(UpdateFx(m, meta, fetch).value)
  {
    assert None !in meta.needed;
    var needed := FxNeeded(Present(meta.needed));
    var m1 := AddMissingDatesFx(m, needed, DatesToFetch(m, meta), fetch).value;
    var r := AddMissingCurrencies(m1, needed, meta.start, fetch).value;
    assert r == UpdateFx(m, meta, fetch).value;
    forall n | n in needed && n != "CHF"
      ensures n in HeldCurrencies(r)
    {
      if n in HeldCurrencies(m1) {
        var c :| c in Columns(m1) && ReplaceAll(c, "CHF", "") == n;
        var d :| d in m1 && c in m1[d];
        assert c in r[d];
      } else {
        assert n in Requested(m1, needed);
        assert Stored(m1);
        var d :| d in m1;
        CodeSymbolColumn(n);
        CodeStrips(n);
        assert n + "CHF" in r[d];
      }
    }
  }

  // ---------------------------------------------------------------------------
  // SecuritiesData
  // ---------------------------------------------------------------------------

  /** Tickers the back-fill never asks for. */
  const DenyList: seq<string> := ["ATVI", "RADCQ", "TUI.L", "EVVAQ"]

  /** `ticker.replace('.US', '')` on every needed ticker. */
  function StripUs(tickers: seq<string>): (r: seq<string>)
    ensures |r| == |tickers|
    ensures forall i :: 0 <= i < |tickers| && !Contains(tickers[i], ".US") ==> r[i] == tickers[i]
  {
    seq(|tickers|, i requires 0 <= i < |tickers| => ReplaceAll(tickers[i], ".US", ""))
  }

  /** `__add_missing_dates` of `SecuritiesData`: every needed ticker (the
      deny list included) fetched from the first missing day on. */
  function AddMissingDatesSec(m: Matrix, needed: seq<string>, dates: set<int>, fetch: Provider): (r: Matrix)
    ensures !Any(dates) ==> r == m
    ensures Any(dates) ==>
      var f := fetch(needed, MinKey(dates));
      && r.Keys == m.Keys + f.Keys
      && (forall d, t :: d in f && t in needed ==> t in r[d] && r[d][t] == Lookup(f[d], t))
      && (forall d :: d in m && d !in f ==> r[d] == m[d])
  {
    if !Any(dates) then m
    else
      var f := fetch(needed, MinKey(dates));
      var rows := Fetched(f, needed, false);
      assert forall d, t :: d in f && t in needed ==> t in rows[d];
      WriteRows(m, rows)
  }

  /** The needed tickers the matrix has no column for, minus the deny list. */
  function WantedTickers(m: Matrix, needed: seq<string>): (r: seq<string>)
    ensures forall t :: t in r <==> t in needed && t !in Columns(m) && t !in DenyList
  {
    var held := Columns(m);
    var missing := Filter(needed, t => t !in held);
    FilterMembers(needed, t => t !in held);
    FilterMembers(missing, t => t !in DenyList);
    Filter(missing, t => t !in DenyList)
  }

  /** Column `t` of a matrix (the fetched quotes of ticker `t`) as a day
      series, NaN skipped. */
  function Quotes(got: Matrix, t: string): (r: Series)
    ensures forall d :: d in r <==> d in got && t in got[d] && got[d][t].Some?
  {
    map d | d in got && t in got[d] && got[d][t].Some? :: got[d][t].value
  }

  /** The left-merged, forward-filled value of `t` on stored day `d`: the
      last quote on a stored day at or before `d`, from the first stored day. */
  function Carried(got: Matrix, t: string, lo: int, d: int): (v: Option<real>)
    ensures v.Some? <==> LastKey(Quotes(got, t), lo, d).Some?
    ensures v.Some? ==> v.value == Quotes(got, t)[LastKey(Quotes(got, t), lo, d).value]
  {
    match LastKey(Quotes(got, t), lo, d)
    case None => None
    case Some(k) => Some(Quotes(got, t)[k])
  }

  /** `__add_missing_tickers`: the missing tickers not on the deny list are
      fetched from the window start, restricted to the stored dates,
      left-merged on the date and forward-filled. */
  function AddMissingTickers(m: Matrix, needed: seq<string>, start: int, fetch: Provider): (r: Result<Matrix, MarketError>)
    ensures r.Success? <==> Stored(m)
    ensures r.Success? ==> r.value.Keys == m.Keys
    ensures r.Success? ==> forall d, c :: d in m && c in m[d] ==> c in r.value[d] && r.value[d][c] == m[d][c]
    ensures r.Success? && WantedTickers(m, needed) == [] ==> r.value == m
    ensures r.Success? && WantedTickers(m, needed) != [] ==>
      var got := map d | d in fetch(WantedTickers(m, needed), start) && d in m :: fetch(WantedTickers(m, needed), start)[d];
      forall d, t :: d in m && t in WantedTickers(m, needed) ==>
        t in r.value[d] && r.value[d][t] == Carried(got, t, MinKey(m.Keys), d)
  {
    if !Stored(m) then Failure(EmptyMatrix)
    else
      var wanted := WantedTickers(m, needed);
      if wanted == [] then Success(m)
      else
        var f := fetch(wanted, start);
        var got := map d | d in f && d in m :: f[d];
        var lo := MinKey(m.Keys);
        var rows := map d | d in m :: (map t | t in wanted :: Carried(got, t, lo, d));
        Success(WriteRows(m, rows))
  }

  /** `update_market_data`: `.US` stripped, then the missing dates, then the
      missing tickers. A NaN ticker has no `replace` and fails the update. */
  function UpdateSecurities(m: Matrix, meta: Meta, fetch: Provider): (r: Result<Matrix, MarketError>)
    ensures None in meta.needed ==> r == Failure(NanTicker)
    ensures Stored(m) && None !in meta.needed ==> r.Success?
    ensures r.Success? ==> m.Keys <= r.value.Keys
  {
    if None in meta.needed then Failure(NanTicker)
    else
      var needed := StripUs(Present(meta.needed));
      var m1 := AddMissingDatesSec(m, needed, DatesToFetch(m, meta), fetch);
      AddMissingTickers(m1, needed, meta.start, fetch)
  }

  /** After a successful update every needed ticker off the deny list has a
      column. */
  lemma SecuritiesCompleteAfterUpdate(m: Matrix, meta: Meta, fetch: Provider)
    requires UpdateSecurities(m, meta, fetch).Success?
    ensures forall t :: t in StripUs(Present(meta.needed)) && t !in DenyList ==> t in Columns(UpdateSecurities(m, meta, fetch).value)
  {
    assert None !in meta.needed;
    var needed := StripUs(Present(meta.needed));
    var m1 := AddMissingDatesSec(m, needed, DatesToFetch(m, meta), fetch);
    var r := AddMissingTickers(m1, needed, meta.start, fetch).value;
    assert r == UpdateSecurities(m, meta, fetch).value;
    forall t | t in needed && t !in DenyList
      ensures t in Columns(r)
    {
      var d :| d in m1;
      if t in Columns(m1) {
        var e, c :| e in m1 && c in m1[e] && c == t;
        assert t in r[e];
      } else {
        assert t in WantedTickers(m1, needed);
        assert t in r[d];
      }
    }
  }

  /** The deny-listed tickers are never back-filled, nor is a held one. */
  lemma DenyListNeverBackfilled(m: Matrix, needed: seq<string>, t: string)
    requires t in DenyList || t in Columns(m)
    ensures t !in WantedTickers(m, needed)
  {
  }

  // ---------------------------------------------------------------------------
  // clean_fx_data / clean_data
  // ---------------------------------------------------------------------------

  /** `clean_data`: every column reindexed onto the days from the window
      start to today and forward-filled. */
  function CleanData(m: Matrix, start: int, today: int): (r: Valuation.Table)
    ensures r.Keys == Columns(m)
    ensures forall c, d :: c in r && d in r[c] ==> start <= d <= today
    ensures forall c, d :: c in r && start <= d <= today ==>
      (d in r[c] <==> LastKey(Quotes(m, c), start, d).Some?)
    ensures forall c, d :: c in r && start <= d <= today && d in r[c] ==>
      r[c][d] == Quotes(m, c)[LastKey(Quotes(m, c), start, d).value]
  {
    map c | c in Columns(m) :: FFill(Quotes(m, c), start, today)
  }

  /** `col[:3]`. */
  function Cut(c: string): (r: string)
    ensures |c| >= 3 ==> r == c[..3]
    ensures |c| < 3 ==> r == c
  {
    if |c| >= 3 then c[..3] else c
  }

  lemma HasLeast(s: set<string>)
    requires s != {}
    ensures exists x :: x in s && forall y :: y in s ==> StrLe(x, y)
    decreases |s|
  {
    assert |s| != 0;
    var x :| x in s;
    StrLeTotal(x, x);
    if s != {x} {
      HasLeast(s - {x});
      var m :| m in s - {x} && forall y :: y in s - {x} ==> StrLe(m, y);
      StrLeTotal(x, m);
      if StrLe(x, m) {
        forall y | y in s ensures StrLe(x, y) {
          if y != x { StrLeTrans(x, m, y); }
        }
      } else {
        LeastWithOneMore(s, x, m);
      }
    }
  }

  /** A least element of `s` without `x` that is below `x` is least in `s`. */
  lemma LeastWithOneMore(s: set<string>, x: string, m: string)
    requires x in s && StrLe(m, x)
    requires forall y :: y in s - {x} ==> StrLe(m, y)
    ensures forall y :: y in s ==> StrLe(m, y)
  {
    forall y | y in s ensures StrLe(m, y) {
      if y != x {
        assert y in s - {x};
      }
    }
  }

  /** The first of a set of column names in string order. */
  ghost function Least(s: set<string>): (x: string)
    requires exists c :: c in s
    ensures x in s && forall y :: y in s ==> StrLe(x, y)
  {
    HasLeast(s);
    var x :| x in s && forall y :: y in s ==> StrLe(x, y);
    x
  }

  /** `clean_fx_data`: `clean_data` with the columns cut to their first three
      letters (`EURCHF` becomes `EUR`). Columns sharing three letters, which
      pandas keeps side by side, are represented by the first in string order. */
  ghost function CleanFx(m: Matrix, start: int, today: int): (r: Valuation.Table)
    ensures forall k :: k in r <==> exists c :: c in Columns(m) && Cut(c) == k
  {
    var cuts := set c | c in Columns(m) :: Cut(c);
    map k | k in cuts :: SharingCut(m, k); FFill(Quotes(m, Least(Sharing(m, k))), start, today)
  }

  /** The columns cut to the same three letters `k`. */
  function Sharing(m: Matrix, k: string): set<string> {
    set c | c in Columns(m) && Cut(c) == k
  }

  /** A cut some column has is shared by that column. */
  lemma SharingCut(m: Matrix, k: string)
    requires exists c :: c in Columns(m) && Cut(c) == k
    ensures exists c :: c in Sharing(m, k)
  {
    var c :| c in Columns(m) && Cut(c) == k;
    assert c in Sharing(m, k);
  }

  /** A currency column alone in its three letters is the cleaned rate of
      that currency, forward-filled over the calendar. */
  lemma CleanFxColumn(m: Matrix, start: int, today: int, c: string)
    requires c in Columns(m)
    requires forall c' :: c' in Columns(m) && Cut(c') == Cut(c) ==> c' == c
    ensures Cut(c) in CleanFx(m, start, today)
    ensures CleanFx(m, start, today)[Cut(c)] == FFill(Quotes(m, c), start, today)
  {
    assert Sharing(m, Cut(c)) == {c};
  }
}
