/** Applying CUDs as the program does: records of an update are filled and built in place, the updates are
    visited in an order that nothing fixes, and the rows are written when all of them are known. */
module CudApplyObject {
  import opened Options
  import opened Bytes
  import opened EventCodec
  import opened EventRoundTrip
  import opened EventCodecObject
  import opened CudApply

  /** The records of one workspace in the storage. */
  class RecordStorage {
    var records: Records

    constructor (records: Records)
      ensures this.records == records
    {
      this.records := records;
    }

    method Get(id: RecordId) returns (data: Option<Bytes>)
      ensures data == if id in records then Some(records[id]) else None
    {
      data := if id in records then Some(records[id]) else None;
    }

    method PutBatch(dyn: Dyn, rows: seq<Row>)
      modifies this
      ensures records == PutAll(dyn, old(records), rows)
    {
      hide StoreRecord;
      assert rows[0..] == rows;
      for i := 0 to |rows|
        invariant PutAll(dyn, records, rows[i..]) == PutAll(dyn, old(records), rows)
      {
        assert rows[i..][1..] == rows[i + 1..];
        records := records[rows[i].id := StoreRecord(dyn, rows[i])];
      }
    }

    /** The creates at the lowest trust level, by insertion. */
    method InsertEach(dyn: Dyn, creates: seq<Row>) returns (ok: bool)
      modifies this
      ensures (records, ok) == InsertAll(dyn, old(records), creates)
    {
      hide StoreRecord;
      assert creates[0..] == creates;
      for i := 0 to |creates|
        invariant InsertAll(dyn, records, creates[i..]) == InsertAll(dyn, old(records), creates)
      {
        assert creates[i..][1..] == creates[i + 1..];
        if creates[i].id in records { return false; }
        records := records[creates[i].id := StoreRecord(dyn, creates[i])];
      }
      ok := true;
    }
  }

  /** updateRecType. */
  class UpdateRec {
    var origin: Row
    var changes: Row
    var result: Row

    constructor (u: Update)
      ensures View() == u
    {
      origin, changes, result := u.origin, u.changes, u.result;
    }

    function View(): Update
      reads this
    {
      Update(origin, changes, result)
    }

    /** build: the changed fields are set one by one, then the emptied ones are dropped. */
    method Build() returns (err: Option<ApplyError>)
      modifies this
      ensures err == BuildRefusal(old(View()))
      ensures View() == old(View()).(result := Built(old(View())))
    {
      result := Copy(origin);
      if changes.qname == NULL_QNAME { return None; }
      if origin.id != changes.id { return Some(CannotUpdateId); }
      if changes.parent != 0 && changes.parent != origin.parent { return Some(CannotUpdateParent); }
      if changes.container != 0 && changes.container != origin.container { return Some(CannotUpdateContainer); }
      if changes.active != origin.active {
        result := result.(active := changes.active);
      }
      var fields := SetFields(result.fields, changes.fields);
      fields := DropFields(fields, changes.nils);
      result := result.(fields := fields);
      err := None;
    }

    /** The part of applyRecs for one update. */
    method CompleteFrom(sch: Schema, dyn: Dyn, storage: RecordStorage) returns (err: Option<ApplyError>)
      modifies this
      ensures match Complete(sch, dyn, storage.records, old(View())) {
        case Refused(e) => err == Some(e) && changes == old(changes)
        case Done(u) => err == None && View() == u
      }
    {
      hide LoadRecord, Built, BuildRefusal;
      if origin.fields != map[] { return None; }
      var data := storage.Get(origin.id);
      if data.None? { return Some(IdNotFound); }
      var loaded := LoadRecord(sch, dyn, data.value);
      if loaded.Failed? { return Some(BadRecord(loaded.error)); }
      origin := loaded.value;
      err := Build();
    }
  }

  method SetFields(fields: Fields, changes: Fields) returns (r: Fields)
    ensures r == fields + changes
  {
    r := fields;
    var todo := changes.Keys;
    while todo != {}
      invariant todo <= changes.Keys
      invariant r == fields + (changes - todo)
      decreases todo
    {
      var f :| f in todo;
      r := r[f := changes[f]];
      todo := todo - {f};
    }
    assert changes - {} == changes;
  }

  method DropFields(fields: Fields, nils: set<Field>) returns (r: Fields)
    ensures r == fields - nils
  {
    r := fields;
    var todo := nils;
    while todo != {}
      invariant todo <= nils
      invariant r == fields - (nils - todo)
      decreases todo
    {
      var f :| f in todo;
      r := r - {f};
      todo := todo - {f};
    }
    assert nils - {} == nils;
  }

  lemma {:induction false} ResultsSnoc(sch: Schema, dyn: Dyn, records: Records, updates: map<RecordId, Update>,
                                       order: seq<RecordId>, id: RecordId)
    requires (forall x | x in order :: x in updates) && id in updates
    ensures forall x | x in order + [id] :: x in updates
    ensures match ResultsOf(sch, dyn, records, updates, order) {
      case Refused(e) => ResultsOf(sch, dyn, records, updates, order + [id]) == Refused(e)
      case Done(rows) =>
        match Complete(sch, dyn, records, updates[id]) {
          case Refused(e) => ResultsOf(sch, dyn, records, updates, order + [id]) == Refused(e)
          case Done(u) => ResultsOf(sch, dyn, records, updates, order + [id]) == Done(rows + [u.result])
        }
    }
    decreases |order|
  {
    hide Complete;
    if order == [] {
      assert [] + [id] == [id] && [id][1..] == [];
      if Complete(sch, dyn, records, updates[id]).Done? {
        var row := Complete(sch, dyn, records, updates[id]).value.result;
        assert [] + [row] == [row] + [];
      }
    } else {
      ResultsSnoc(sch, dyn, records, updates, order[1..], id);
      assert (order + [id])[1..] == order[1..] + [id];
      var rest := ResultsOf(sch, dyn, records, updates, order[1..]);
      if rest.Done? && Complete(sch, dyn, records, updates[order[0]]).Done? && Complete(sch, dyn, records, updates[id]).Done? {
        var first := Complete(sch, dyn, records, updates[order[0]]).value.result;
        assert [first] + (rest.value + [Complete(sch, dyn, records, updates[id]).value.result])
          == ([first] + rest.value) + [Complete(sch, dyn, records, updates[id]).value.result];
      }
    }
  }

  /** However the updates that were not visited are ordered, the refusal stands. */
  lemma {:induction false} RefusedStays(sch: Schema, dyn: Dyn, records: Records, updates: map<RecordId, Update>,
                                        order: seq<RecordId>, todo: set<RecordId>) returns (all: seq<RecordId>)
    requires (forall x | x in order :: x in updates) && todo <= updates.Keys
    requires Enumerates(order, updates.Keys - todo)
    requires ResultsOf(sch, dyn, records, updates, order).Refused?
    ensures Enumerates(all, updates.Keys)
    ensures ResultsOf(sch, dyn, records, updates, all) == ResultsOf(sch, dyn, records, updates, order)
    decreases todo
  {
    hide ResultsOf;
    if todo == {} {
      all := order;
    } else {
      var id :| id in todo;
      ResultsSnoc(sch, dyn, records, updates, order, id);
      all := RefusedStays(sch, dyn, records, updates, order + [id], todo - {id});
    }
  }

  /** cudType. */
  class CudObject {
    var creates: seq<Row>
    var updates: map<RecordId, UpdateRec>

    constructor (creates: seq<Row>, updates: map<RecordId, UpdateRec>)
      ensures this.creates == creates && this.updates == updates
    {
      this.creates, this.updates := creates, updates;
    }

    ghost function Repr(): set<UpdateRec>
      reads this
    {
      set id | id in updates :: updates[id]
    }

    /** Each record has its own update. */
    ghost predicate Valid()
      reads this
    {
      forall i, j | i in updates && j in updates && i != j :: updates[i] != updates[j]
    }

    ghost function Updates(): (m: map<RecordId, Update>)
      reads this, Repr()
      ensures m.Keys == updates.Keys
    {
      map id | id in updates :: updates[id].View()
    }

    ghost function View(): Cud
      reads this, Repr()
    {
      Cud(creates, Updates())
    }

    /** applyRecs, collecting the rows to be written; `order` is the order in which updates were visited. */
    method ApplyRecs(sch: Schema, dyn: Dyn, storage: RecordStorage)
      returns (err: Option<ApplyError>, results: seq<Row>, ghost order: seq<RecordId>)
      requires Valid()
      modifies Repr()
      ensures Enumerates(order, updates.Keys)
      ensures match ResultsOf(sch, dyn, storage.records, old(Updates()), order) {
        case Refused(e) => err == Some(e)
        case Done(rows) => err == None && results == rows
      }
      ensures err == None ==> forall id | id in updates ::
        Complete(sch, dyn, storage.records, old(Updates())[id]) == Done(updates[id].View())
    {
      hide Complete, ResultsOf;
      ghost var before := Updates();
      err, results, order := None, [], [];
      NoResults(sch, dyn, storage.records, before);
      var todo := updates.Keys;
      while todo != {}
        invariant err == None && todo <= updates.Keys && Enumerates(order, updates.Keys - todo)
        invariant forall id | id in todo :: updates[id].View() == before[id]
        invariant forall id | id in updates && id !in todo ::
          Complete(sch, dyn, storage.records, before[id]) == Done(updates[id].View())
        invariant ResultsOf(sch, dyn, storage.records, before, order) == Done(results)
        decreases todo
      {
        var id :| id in todo;
        ResultsSnoc(sch, dyn, storage.records, before, order, id);
        err := updates[id].CompleteFrom(sch, dyn, storage);
        todo := todo - {id};
        order := order + [id];
        if err.Some? {
          order := RefusedStays(sch, dyn, storage.records, before, order, todo);
          return;
        }
        results := results + [updates[id].result];
      }
    }

    /** apply2 when records are written in one batch. */
    method Apply(sch: Schema, dyn: Dyn, storage: RecordStorage) returns (err: Option<ApplyError>, ghost order: seq<RecordId>)
      requires Valid()
      modifies Repr(), storage
      ensures Enumerates(order, updates.Keys)
      ensures match CudApply.Apply(sch, dyn, old(storage.records), old(View()), order) {
        case Refused(e) => err == Some(e) && storage.records == old(storage.records)
        case Done(records) => err == None && storage.records == records
      }
    {
      hide ResultsOf, PutAll;
      var results;
      err, results, order := ApplyRecs(sch, dyn, storage);
      if err.Some? { return; }
      storage.PutBatch(dyn, creates + results);
    }

    /** apply2 at the lowest trust level. */
    method ApplyStrictly(sch: Schema, dyn: Dyn, storage: RecordStorage) returns (err: Option<ApplyError>, ghost order: seq<RecordId>)
      requires Valid()
      modifies Repr(), storage
      ensures Enumerates(order, updates.Keys)
      ensures (storage.records, err) == CudApply.ApplyStrictly(sch, dyn, old(storage.records), old(View()), order)
    {
      hide ResultsOf, PutAll, InsertAll;
      var results;
      err, results, order := ApplyRecs(sch, dyn, storage);
      if err.Some? { return; }
      var ok := storage.InsertEach(dyn, creates);
      if !ok {
        err := Some(SequencesViolation);
        return;
      }
      storage.PutBatch(dyn, results);
    }
  }

  lemma NoResults(sch: Schema, dyn: Dyn, records: Records, updates: map<RecordId, Update>)
    ensures ResultsOf(sch, dyn, records, updates, []) == Done([])
  {
  }
}
