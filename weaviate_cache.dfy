/**
 * A per-text cache of vectors kept in one collection of a vector database.
 * Each record is stored under an id derived from its text alone, so a text
 * is found again whatever batch it arrives in.
 *
 * The database is modelled by the set of collection names it holds and the
 * records of this cache's collection, as a map from record id to record.
 */
module WeaviateCaches {
  import opened Wrappers
  import opened Embeddings

  /** A record as inserted: its id, its vector and the text it was computed from. */
  datatype DataObject = DataObject(uuid: string, vector: Vector, text: Text)

  /** Why `save` raises. */
  datatype SaveError = LengthMismatch(textLen: nat, vectorLen: nat)

  /** The ids of a list of records, as a set. */
  function Ids(data: seq<DataObject>): set<string>
  {
    set o | o in data :: o.uuid
  }

  /**
   * `insert_many`: the records are written in order, and a record replaces an
   * earlier one with the same id. The collection then holds its earlier ids
   * and the ids of the new records.
   */
  function Upsert(records: map<string, DataObject>, data: seq<DataObject>): (r: map<string, DataObject>)
    ensures r.Keys == records.Keys + Ids(data)
    decreases |data|
  {
    if data == [] then records
    else
      var init, last := data[..|data| - 1], data[|data| - 1];
      assert data == init + [last];
      Upsert(records, init)[last.uuid := last]
  }

  /** A record whose id is not among the new ones is left as it was. */
  lemma {:induction false} UpsertOutside(records: map<string, DataObject>, data: seq<DataObject>, id: string)
    requires id !in Ids(data)
    ensures id in Upsert(records, data) <==> id in records
    ensures id in records ==> Upsert(records, data)[id] == records[id]
    decreases |data|
  {
    if data != [] {
      var init := data[..|data| - 1];
      assert Ids(init) <= Ids(data);
      UpsertOutside(records, init, id);
    }
  }

  /** A new record that no later record in the same batch replaces is what the collection holds under its id. */
  lemma {:induction false} UpsertLastWins(records: map<string, DataObject>, data: seq<DataObject>, i: nat)
    requires i < |data|
    requires forall j :: i < j < |data| ==> data[j].uuid != data[i].uuid
    ensures data[i].uuid in Upsert(records, data)
    ensures Upsert(records, data)[data[i].uuid] == data[i]
    decreases |data|
  {
    if i < |data| - 1 {
      var init := data[..|data| - 1];
      assert init[i] == data[i];
      UpsertLastWins(records, init, i);
    }
  }

  class WeaviateCache {
    const collectionName: string
    /** `generate_uuid5`: the record id derived from a text. */
    const uuid5: Text -> string
    /** The names of the collections in the database. */
    var collections: set<string>
    /** The records of this cache's collection, by id. */
    var records: map<string, DataObject>

    /**
     * Connect to a database in the given state (`serverRecords` are the records
     * of the collection, if it exists) and create the collection if it is
     * missing: an existing collection keeps its records, a new one starts empty.
     */
    constructor (collectionName: string, uuid5: Text -> string,
                 serverCollections: set<string>, serverRecords: map<string, DataObject>)
      ensures this.collectionName == collectionName && this.uuid5 == uuid5
      ensures collections == serverCollections + {collectionName}
      ensures records == if collectionName in serverCollections then serverRecords else map[]
    {
      this.collectionName := collectionName;
      this.uuid5 := uuid5;
      collections := serverCollections;
      records := serverRecords;
      new;
      CreateCollection();
    }

    /**
     * `_crate_collection`: creates the collection, empty, only when it is
     * missing; an existing one is left as it is. Either way it exists afterwards.
     */
    method CreateCollection()
      modifies this
      ensures collectionName in collections
      ensures old(collectionName in collections) ==> collections == old(collections) && records == old(records)
      ensures old(collectionName !in collections) ==> collections == old(collections) + {collectionName} && records == map[]
    {
      if collectionName in collections {
        return;
      }
      collections := collections + {collectionName};
      records := map[];
    }

    /** `_clear_cache`: deletes the collection together with all its records. */
    method ClearCache()
      modifies this
      ensures collections == old(collections) - {collectionName}
      ensures records == map[]
    {
      collections := collections - {collectionName};
      records := map[];
    }

    /** The records `save` builds: one per text, with the id of the text and the vector at the same position. */
    function DataObjects(texts: seq<Text>, vectors: seq<Vector>): (data: seq<DataObject>)
      requires |texts| == |vectors|
      ensures |data| == |texts|
      ensures Ids(data) == set t | t in texts :: uuid5(t)
    {
      var data := seq(|texts|, i requires 0 <= i < |texts| => DataObject(uuid5(texts[i]), vectors[i], texts[i]));
      DataObjectIds(texts, data);
      data
    }

    lemma DataObjectIds(texts: seq<Text>, data: seq<DataObject>)
      requires |data| == |texts| && forall i :: 0 <= i < |data| ==> data[i].uuid == uuid5(texts[i])
      ensures Ids(data) == set t | t in texts :: uuid5(t)
    {
      forall id | id in Ids(data) ensures id in set t | t in texts :: uuid5(t) {
        var o :| o in data && o.uuid == id;
        var i :| 0 <= i < |data| && data[i] == o;
        assert texts[i] in texts;
      }
      forall id | id in set t | t in texts :: uuid5(t) ensures id in Ids(data) {
        var t :| t in texts && uuid5(t) == id;
        var i :| 0 <= i < |texts| && texts[i] == t;
        assert data[i] in data;
      }
    }

    /** The database's batch insert: writes the records and reports the id of each one. */
    method InsertMany(data: seq<DataObject>) returns (uuids: seq<string>)
      requires collectionName in collections
      modifies this
      ensures records == Upsert(old(records), data)
      ensures collections == old(collections)
      ensures |uuids| == |data|
      ensures forall i :: 0 <= i < |data| ==> uuids[i] == data[i].uuid
    {
      records := Upsert(records, data);
      uuids := seq(|data|, i requires 0 <= i < |data| => data[i].uuid);
    }

    /**
     * `save`: raises when the numbers of texts and vectors differ; otherwise
     * inserts one record per text, and the number of inserted records is the
     * number of vectors.
     */
    method Save(texts: seq<Text>, vectors: seq<Vector>) returns (r: Result<(), SaveError>)
      requires collectionName in collections
      modifies this
      ensures collections == old(collections)
      ensures r.Failure? <==> |texts| != |vectors|
      ensures r.Failure? ==> r.error == LengthMismatch(|texts|, |vectors|) && records == old(records)
      ensures r.Success? ==> records == Upsert(old(records), DataObjects(texts, vectors))
    {
      if |texts| != |vectors| {
        return Failure(LengthMismatch(|texts|, |vectors|));
      }
      var data := DataObjects(texts, vectors);
      var uuids := InsertMany(data);
      assert |uuids| == |vectors|;
      r := Success(());
    }

    /** The vector stored for one text, or `None` when there is no record under its id. */
    function Fetch(text: Text): (r: Option<Vector>)
      reads this
      ensures r.None? <==> uuid5(text) !in records
      ensures r.Some? ==> r.value == records[uuid5(text)].vector
    {
      var id := uuid5(text);
      if id in records then Some(records[id].vector) else None
    }

    /**
     * `load`: one slot per text, in input order; a slot is `None` exactly when
     * no record exists under the text's id, and holds that record's vector otherwise.
     */
    function Load(texts: seq<Text>): (slots: seq<Option<Vector>>)
      reads this
      ensures |slots| == |texts|
      ensures forall i :: 0 <= i < |texts| ==> (slots[i].None? <==> uuid5(texts[i]) !in records)
      ensures forall i :: 0 <= i < |texts| && slots[i].Some? ==> slots[i].value == records[uuid5(texts[i])].vector
      decreases |texts|
    {
      if texts == [] then []
      else Load(texts[..|texts| - 1]) + [Fetch(texts[|texts| - 1])]
    }

    /**
     * After a successful `save` of texts with distinct ids, `load` of the same
     * texts gives back the saved vectors, position by position.
     */
    lemma LoadAfterSave(before: map<string, DataObject>, texts: seq<Text>, vectors: seq<Vector>)
      requires |texts| == |vectors|
      requires forall i, j :: 0 <= i < j < |texts| ==> uuid5(texts[i]) != uuid5(texts[j])
      requires records == Upsert(before, DataObjects(texts, vectors))
      ensures Load(texts) == seq(|texts|, i requires 0 <= i < |texts| => Some(vectors[i]))
    {
      var data := DataObjects(texts, vectors);
      forall i | 0 <= i < |texts| ensures Load(texts)[i] == Some(vectors[i]) {
        UpsertLastWins(before, data, i);
      }
    }

    /** A `save` leaves every record whose id is not among the saved texts' ids as it was. */
    lemma SaveKeepsOthers(before: map<string, DataObject>, texts: seq<Text>, vectors: seq<Vector>, text: Text)
      requires |texts| == |vectors|
      requires records == Upsert(before, DataObjects(texts, vectors))
      requires forall i :: 0 <= i < |texts| ==> uuid5(texts[i]) != uuid5(text)
      ensures uuid5(text) in records <==> uuid5(text) in before
      ensures uuid5(text) in before ==> records[uuid5(text)] == before[uuid5(text)]
    {
      var data := DataObjects(texts, vectors);
      UpsertOutside(before, data, uuid5(text));
    }
  }
}
