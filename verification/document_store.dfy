/** The MongoDB side of the pipeline (`data/database_studio.py`): a
    collection is a map from `_id` to document, written row by row with
    "insert, or `$set` on duplicate key" and read back with equality filters. */
module DocumentStore {
  import opened Wrappers

  /** A field value as the pipeline stores it. `Null` is a pandas NaN/None. */
  datatype Value = Str(s: string) | Num(x: real) | Time(t: real) | Null

  /** A document, or a DataFrame row turned into one by `row.to_dict()`. */
  type Doc = map<string, Value>

  /** A collection: every document under its `_id`. */
  type Store = map<Value, Doc>

  const IdField: string := "_id"

  datatype StoreError =
    | MissingColumn(name: string)   // the `KeyError` of `fields[id_column_name]`
    | Declined(name: string)        // `SystemExit` of `creation_user_choice`

  // ---------------------------------------------------------------------------
  // Connecting
  // ---------------------------------------------------------------------------

  /** `creation_user_choice`: carries on only when the answer is exactly `True`. */
  function CreationUserChoice(answer: string): (r: Result<(), StoreError>)
    ensures r.Success? <==> answer == "True"
  {
    if answer == "True" then Success(()) else Failure(Declined("Provided name does not exist"))
  }

  /** `__database_connect` / `__collection_connect`: an existing name connects
      without asking; a new one is created only after a `True` answer. */
  function Connect(existing: set<string>, name: string, answer: string): (r: Result<string, StoreError>)
    ensures r.Success? <==> name in existing || answer == "True"
    ensures r.Success? ==> r.value == name
  {
    if name !in existing then
      var _ :- CreationUserChoice(answer);
      Success(name)
    else Success(name)
  }

  // ---------------------------------------------------------------------------
  // Writing
  // ---------------------------------------------------------------------------

  /** One `insert_one`, falling back on `DuplicateKeyError` to
      `update_one(..., {'$set': fields})`: fields of `doc` overwrite the
      stored ones, stored fields that `doc` lacks are kept. */
  function Upsert(s: Store, id: Value, doc: Doc): (r: Store)
    ensures r.Keys == s.Keys + {id}
    ensures forall k :: k in s && k != id ==> r[k] == s[k]
    ensures id !in s ==> r[id] == doc
    ensures id in s ==> r[id].Keys == s[id].Keys + doc.Keys
    ensures id in s ==> forall f :: f in r[id] ==> r[id][f] == if f in doc then doc[f] else s[id][f]
  {
    s[id := if id in s then s[id] + doc else doc]
  }

  /** The document written for `row`: the row with `_id` copied from the id column. */
  function Fields(row: Doc, idCol: string): Doc
    requires idCol in row
  {
    row[IdField := row[idCol]]
  }

  /** What `collection_writer` leaves behind: the store after the rows it
      managed to write, and the error that stopped it, if any. */
  datatype Outcome = Outcome(store: Store, error: Option<StoreError>)

  predicate HasColumn(rows: seq<Doc>, idCol: string) {
    forall i :: 0 <= i < |rows| ==> idCol in rows[i]
  }

  lemma HasColumnConcat(a: seq<Doc>, b: seq<Doc>, idCol: string)
    requires HasColumn(a, idCol) && HasColumn(b, idCol)
    ensures HasColumn(a + b, idCol)
  {
    forall i | 0 <= i < |a + b|
      ensures idCol in (a + b)[i]
    {
      if i >= |a| {
        assert (a + b)[i] == b[i - |a|];
      }
    }
  }

  /** `collection_writer(data, id_column_name=idCol)`, row by row in order.
      A row without the id column raises, after the rows before it were written. */
  function Write(s: Store, rows: seq<Doc>, idCol: string): (r: Outcome)
    ensures r.error.None? <==> HasColumn(rows, idCol)
    ensures r.error.Some? ==> r.error.value == MissingColumn(idCol)
    decreases |rows|
  {
    if |rows| == 0 then Outcome(s, None)
    else if idCol !in rows[0] then Outcome(s, Some(MissingColumn(idCol)))
    else
      var r := Write(Upsert(s, rows[0][idCol], Fields(rows[0], idCol)), rows[1..], idCol);
      assert HasColumn(rows, idCol) <==> HasColumn(rows[1..], idCol) by {
        if HasColumn(rows[1..], idCol) {
          forall i | 0 <= i < |rows| ensures idCol in rows[i] {
            if i > 0 { assert rows[i] == rows[1..][i - 1]; }
          }
        }
      }
      r
  }

  /** The ids a batch writes to. */
  function BatchIds(rows: seq<Doc>, idCol: string): (ids: set<Value>)
    requires HasColumn(rows, idCol)
    ensures forall i :: 0 <= i < |rows| ==> rows[i][idCol] in ids
    ensures forall k :: k in ids ==> exists i :: 0 <= i < |rows| && rows[i][idCol] == k
  {
    set i | 0 <= i < |rows| :: rows[i][idCol]
  }

  /** Reference definition: the fields the batch sets on document `k`, rows
      applied in order so that a later row's value wins. */
  function SetFields(rows: seq<Doc>, idCol: string, k: Value): Doc
    requires HasColumn(rows, idCol)
    decreases |rows|
  {
    if |rows| == 0 then map[]
    else
      var mine: Doc := if rows[0][idCol] == k then Fields(rows[0], idCol) else map[];
      mine + SetFields(rows[1..], idCol, k)
  }

  lemma BatchIdsCons(rows: seq<Doc>, idCol: string)
    requires HasColumn(rows, idCol) && |rows| > 0
    ensures HasColumn(rows[1..], idCol)
    ensures BatchIds(rows, idCol) == {rows[0][idCol]} + BatchIds(rows[1..], idCol)
  {
    assert HasColumn(rows[1..], idCol) by {
      forall i | 0 <= i < |rows[1..]| ensures idCol in rows[1..][i] {
        assert rows[1..][i] == rows[i + 1];
      }
    }
    forall v | v in BatchIds(rows, idCol)
      ensures v in {rows[0][idCol]} + BatchIds(rows[1..], idCol)
    {
      var i :| 0 <= i < |rows| && rows[i][idCol] == v;
      if i > 0 { assert rows[1..][i - 1] == rows[i]; }
    }
  }

  /** The document stored under `k`, or the empty one. */
  function Existing(s: Store, k: Value): Doc {
    if k in s then s[k] else map[]
  }

  lemma MergeAssoc(a: Doc, b: Doc, c: Doc)
    ensures a + b + c == a + (b + c)
  {
  }

  lemma MergeTwice(a: Doc)
    ensures a + a == a
  {
  }

  /** One step of `Write`, seen from document `k`. */
  lemma UpsertExisting(s: Store, id: Value, doc: Doc, k: Value)
    ensures Existing(Upsert(s, id, doc), k) == Existing(s, k) + (if k == id then doc else map[])
  {
    if k != id {
      var none: Doc := map[];
      assert Existing(s, k) + none == Existing(s, k);
    }
  }

  /** A batch creates exactly the documents it names that were not there. */
  lemma {:induction false} WriteKeys(s: Store, rows: seq<Doc>, idCol: string)
    requires HasColumn(rows, idCol)
    ensures Write(s, rows, idCol).store.Keys == s.Keys + BatchIds(rows, idCol)
    decreases |rows|
  {
    if |rows| > 0 {
      var s' := Upsert(s, rows[0][idCol], Fields(rows[0], idCol));
      BatchIdsCons(rows, idCol);
      assert Write(s, rows, idCol) == Write(s', rows[1..], idCol);
      WriteKeys(s', rows[1..], idCol);
    }
  }

  /** Per-document characterisation of `Write`: document `k` ends up as what
      was stored before (or nothing) overlaid with every field the batch sets
      on it. */
  lemma {:induction false} WriteDocument(s: Store, rows: seq<Doc>, idCol: string, k: Value)
    requires HasColumn(rows, idCol)
    ensures Existing(Write(s, rows, idCol).store, k) == Existing(s, k) + SetFields(rows, idCol, k)
    decreases |rows|
  {
    if |rows| > 0 {
      var id := rows[0][idCol];
      var doc := Fields(rows[0], idCol);
      var s' := Upsert(s, id, doc);
      BatchIdsCons(rows, idCol);
      assert Write(s, rows, idCol) == Write(s', rows[1..], idCol);
      WriteDocument(s', rows[1..], idCol, k);
      var later := SetFields(rows[1..], idCol, k);
      var mine: Doc := if k == id then doc else map[];
      UpsertExisting(s, id, doc, k);
      MergeAssoc(Existing(s, k), mine, later);
    }
  }

  /** Documents whose `_id` the batch does not name are untouched. */
  lemma WriteUntouched(s: Store, rows: seq<Doc>, idCol: string, k: Value)
    requires HasColumn(rows, idCol)
    requires k in s && k !in BatchIds(rows, idCol)
    ensures k in Write(s, rows, idCol).store && Write(s, rows, idCol).store[k] == s[k]
  {
    WriteKeys(s, rows, idCol);
    WriteDocument(s, rows, idCol, k);
    NotInBatchSetsNothing(rows, idCol, k);
    var none: Doc := map[];
    assert s[k] + none == s[k];
  }

  lemma {:induction false} NotInBatchSetsNothing(rows: seq<Doc>, idCol: string, k: Value)
    requires HasColumn(rows, idCol) && k !in BatchIds(rows, idCol)
    ensures SetFields(rows, idCol, k) == map[]
    decreases |rows|
  {
    if |rows| > 0 {
      assert HasColumn(rows[1..], idCol);
      assert forall i :: 0 <= i < |rows[1..]| ==> rows[1..][i] == rows[i + 1];
      NotInBatchSetsNothing(rows[1..], idCol, k);
    }
  }

  /** Each written document carries its row's id-column value as `_id`. */
  lemma {:induction false} WrittenIdField(s: Store, rows: seq<Doc>, idCol: string, i: int)
    requires HasColumn(rows, idCol) && 0 <= i < |rows|
    ensures var k := rows[i][idCol];
      k in Write(s, rows, idCol).store && IdField in Write(s, rows, idCol).store[k]
      && Write(s, rows, idCol).store[k][IdField] == k
  {
    var k := rows[i][idCol];
    WriteKeys(s, rows, idCol);
    WriteDocument(s, rows, idCol, k);
    SetFieldsOfRow(rows, idCol, i, IdField);
    SetFieldsId(rows, idCol, k);
  }

  lemma {:induction false} SetFieldsId(rows: seq<Doc>, idCol: string, k: Value)
    requires HasColumn(rows, idCol)
    ensures IdField in SetFields(rows, idCol, k) ==> SetFields(rows, idCol, k)[IdField] == k
    decreases |rows|
  {
    if |rows| > 0 {
      assert HasColumn(rows[1..], idCol);
      SetFieldsId(rows[1..], idCol, k);
    }
  }

  /** A field a row sets survives unless a later row of the same id sets it
      again: later rows win, field by field. */
  lemma {:induction false} SetFieldsOfRow(rows: seq<Doc>, idCol: string, i: int, f: string)
    requires HasColumn(rows, idCol) && 0 <= i < |rows|
    requires f in Fields(rows[i], idCol)
    ensures f in SetFields(rows, idCol, rows[i][idCol])
    ensures (forall j :: i < j < |rows| && rows[j][idCol] == rows[i][idCol] ==> f !in Fields(rows[j], idCol))
            ==> SetFields(rows, idCol, rows[i][idCol])[f] == Fields(rows[i], idCol)[f]
    decreases |rows|
  {
    var k := rows[i][idCol];
    assert HasColumn(rows[1..], idCol);
    if i == 0 {
      if forall j :: 0 < j < |rows| && rows[j][idCol] == k ==> f !in Fields(rows[j], idCol) {
        SetFieldsLacks(rows[1..], idCol, k, f);
      }
    } else {
      assert rows[1..][i - 1] == rows[i];
      SetFieldsOfRow(rows[1..], idCol, i - 1, f);
      forall j | i - 1 < j < |rows[1..]| ensures rows[1..][j] == rows[j + 1] {}
    }
  }

  lemma {:induction false} SetFieldsLacks(rows: seq<Doc>, idCol: string, k: Value, f: string)
    requires HasColumn(rows, idCol)
    requires forall j :: 0 <= j < |rows| && rows[j][idCol] == k ==> f !in Fields(rows[j], idCol)
    ensures f !in SetFields(rows, idCol, k)
    decreases |rows|
  {
    if |rows| > 0 {
      assert HasColumn(rows[1..], idCol);
      forall j | 0 <= j < |rows[1..]| ensures rows[1..][j] == rows[j + 1] {}
      SetFieldsLacks(rows[1..], idCol, k, f);
    }
  }

  /** Re-ingesting a batch changes nothing: writing it twice leaves the store
      as writing it once. */
  lemma WriteIdempotent(s: Store, rows: seq<Doc>, idCol: string)
    requires HasColumn(rows, idCol)
    ensures Write(Write(s, rows, idCol).store, rows, idCol) == Write(s, rows, idCol)
  {
    var once := Write(s, rows, idCol).store;
    var twice := Write(once, rows, idCol).store;
    WriteKeys(s, rows, idCol);
    WriteKeys(once, rows, idCol);
    forall k | k in twice
      ensures twice[k] == once[k]
    {
      WriteDocument(s, rows, idCol, k);
      WriteDocument(once, rows, idCol, k);
      var fields := SetFields(rows, idCol, k);
      MergeAssoc(Existing(s, k), fields, fields);
      MergeTwice(fields);
      assert Existing(twice, k) == Existing(once, k);
    }
    assert twice == once;
  }

  /** Writing two batches in turn is writing their concatenation. */
  lemma {:induction false} WriteConcat(s: Store, a: seq<Doc>, b: seq<Doc>, idCol: string)
    requires HasColumn(a, idCol)
    ensures Write(s, a + b, idCol) == Write(Write(s, a, idCol).store, b, idCol)
    decreases |a|
  {
    if |a| == 0 {
      assert a + b == b;
    } else {
      assert (a + b)[1..] == a[1..] + b;
      assert (a + b)[0] == a[0];
      assert HasColumn(a[1..], idCol);
      WriteConcat(Upsert(s, a[0][idCol], Fields(a[0], idCol)), a[1..], b, idCol);
    }
  }

  // ---------------------------------------------------------------------------
  // Reading
  // ---------------------------------------------------------------------------

  /** A document matches a filter when it holds every filtered field with
      exactly the filtered value. */
  predicate Matches(doc: Doc, filter: map<string, Value>) {
    forall f :: f in filter ==> f in doc && doc[f] == filter[f]
  }

  /** `document_query` with equality filters: the empty filter returns the
      whole collection, any other the documents that match it. */
  function Query(s: Store, filter: map<string, Value>): (r: Store)
    ensures forall k :: k in r <==> k in s && Matches(s[k], filter)
    ensures forall k :: k in r ==> r[k] == s[k]
  {
    if |filter| == 0 then s
    else map k | k in s && Matches(s[k], filter) :: s[k]
  }

  lemma QueryEmptyFilter(s: Store)
    ensures Query(s, map[]) == s
  {
  }
}
