/** Applying the CUDs of an event to the records of its workspace (pkg/istructsmem: applyRecs,
    updateRecType.build, apply2 and putRecordsBatch), by an event in memory or one read from the log. */
module CudApply {
  import opened Options
  import opened Bytes
  import opened EventCodec
  import opened EventRoundTrip

  /** The records of one workspace, as the bytes that are stored. */
  type Records = map<RecordId, Bytes>

  datatype ApplyError = IdNotFound | BadRecord(error: Error) | CannotUpdateId | CannotUpdateParent
                      | CannotUpdateContainer | SequencesViolation | SingletonNotFound

  datatype Outcome<T> = Done(value: T) | Refused(error: ApplyError)

  /** updateRecType: the record as it was, the changes and the record as it becomes. */
  datatype Update = Update(origin: Row, changes: Row, result: Row)

  datatype Cud = Cud(creates: seq<Row>, updates: map<RecordId, Update>)

  /** storeToBytes of a record; emptied fields are not part of it. */
  function StoreRecord(dyn: Dyn, row: Row): Bytes {
    [CODEC_RDB_2] + EncRow(dyn, row)
  }

  /** loadFromBytes of a record. */
  function LoadRecord(sch: Schema, dyn: Dyn, bs: Bytes): Read<Row> {
    if bs == [] then Failed(UnexpectedEOF)
    else if bs[0] > CODEC_RDB_2 then Failed(UnknownCodec)
    else DecRow(sch, dyn, bs[0], bs[1..])
  }

  /* ---------- one update ---------- */

  /** copyFrom: everything but the emptied fields. */
  function Copy(row: Row): Row {
    row.(nils := {})
  }

  /** The changes may not name another identifier, parent or container. */
  function BuildRefusal(u: Update): Option<ApplyError> {
    if u.changes.qname == NULL_QNAME then None
    else if u.origin.id != u.changes.id then Some(CannotUpdateId)
    else if u.changes.parent != 0 && u.changes.parent != u.origin.parent then Some(CannotUpdateParent)
    else if u.changes.container != 0 && u.changes.container != u.origin.container then Some(CannotUpdateContainer)
    else None
  }

  function Changed(origin: Row, changes: Row): Row {
    Copy(origin).(active := changes.active, fields := (origin.fields + changes.fields) - changes.nils)
  }

  /** The result after build. */
  function Built(u: Update): Row {
    if u.changes.qname == NULL_QNAME || BuildRefusal(u).Some? then Copy(u.origin) else Changed(u.origin, u.changes)
  }

  /** newUpdateRec for a record in memory. */
  function NewUpdate(record: Row): Update {
    Update(Copy(record), NULL_ROW.(qname := record.qname, id := record.id, parent := record.parent,
                                   container := record.container, active := record.active), Copy(record))
  }

  /** An update as it is read from the log: only the type and identifier of its record are known. */
  function ReadUpdate(changes: Row): Update {
    Update(NULL_ROW.(qname := changes.qname, id := changes.id), changes, NULL_ROW)
  }

  function ReadCud(ev: Event): Cud {
    Cud(ev.creates, map id | id in ev.updates :: ReadUpdate(ev.updates[id]))
  }

  /** A record without user fields is taken for one that was not loaded yet. */
  predicate NotLoaded(u: Update) {
    u.origin.fields == map[]
  }

  function LoadOrigin(sch: Schema, dyn: Dyn, records: Records, id: RecordId): Outcome<Row> {
    if id !in records then Refused(IdNotFound)
    else match LoadRecord(sch, dyn, records[id]) case Failed(e) => Refused(BadRecord(e)) case Got(row, _) => Done(row)
  }

  /** The body of the loop over the updates. */
  function Complete(sch: Schema, dyn: Dyn, records: Records, u: Update): Outcome<Update> {
    if !NotLoaded(u) then Done(u)
    else
      match LoadOrigin(sch, dyn, records, u.origin.id)
      case Refused(e) => Refused(e)
      case Done(origin) =>
        var loaded := u.(origin := origin);
        if BuildRefusal(loaded).Some? then Refused(BuildRefusal(loaded).value) else Done(loaded.(result := Built(loaded)))
  }

  /* ---------- all of them ---------- */

  function ResultsOf(sch: Schema, dyn: Dyn, records: Records, updates: map<RecordId, Update>, order: seq<RecordId>): Outcome<seq<Row>>
    requires forall id | id in order :: id in updates
  {
    if order == [] then Done([])
    else
      match Complete(sch, dyn, records, updates[order[0]])
      case Refused(e) => Refused(e)
      case Done(u) =>
        match ResultsOf(sch, dyn, records, updates, order[1..])
        case Refused(e) => Refused(e)
        case Done(more) => Done([u.result] + more)
  }

  /** applyRecs: the rows to be written, creates first; `order` is the iteration order of the updates. */
  function RowsOf(sch: Schema, dyn: Dyn, records: Records, cud: Cud, order: seq<RecordId>): Outcome<seq<Row>>
    requires forall id | id in order :: id in cud.updates
  {
    match ResultsOf(sch, dyn, records, cud.updates, order)
    case Refused(e) => Refused(e)
    case Done(results) => Done(cud.creates + results)
  }

  /** PutBatch. */
  function PutAll(dyn: Dyn, records: Records, rows: seq<Row>): Records
    decreases |rows|
  {
    if rows == [] then records else PutAll(dyn, records[rows[0].id := StoreRecord(dyn, rows[0])], rows[1..])
  }

  /** Writing at the lowest trust level: a new record must not exist. */
  function InsertAll(dyn: Dyn, records: Records, creates: seq<Row>): (Records, bool)
    decreases |creates|
  {
    if creates == [] then (records, true)
    else if creates[0].id in records then (records, false)
    else InsertAll(dyn, records[creates[0].id := StoreRecord(dyn, creates[0])], creates[1..])
  }

  /** apply2: nothing is written when a row is refused. */
  function Apply(sch: Schema, dyn: Dyn, records: Records, cud: Cud, order: seq<RecordId>): Outcome<Records>
    requires forall id | id in order :: id in cud.updates
  {
    match RowsOf(sch, dyn, records, cud, order)
    case Refused(e) => Refused(e)
    case Done(rows) => Done(PutAll(dyn, records, rows))
  }

  /** apply2 at the lowest trust level: what is written, and whether all of it was. */
  function ApplyStrictly(sch: Schema, dyn: Dyn, records: Records, cud: Cud, order: seq<RecordId>): (Records, Option<ApplyError>)
    requires forall id | id in order :: id in cud.updates
  {
    match ResultsOf(sch, dyn, records, cud.updates, order)
    case Refused(e) => (records, Some(e))
    case Done(results) =>
      var (inserted, ok) := InsertAll(dyn, records, cud.creates);
      if ok then (PutAll(dyn, inserted, results), None) else (inserted, Some(SequencesViolation))
  }

  /* ---------- an event in memory ---------- */

  /** An update that was built without errors, and whose record can be stored. */
  ghost predicate ReadyUpdate(sch: Schema, dyn: Dyn, id: RecordId, u: Update) {
    && u.origin.id == id && u.changes.id == id
    && BuildRefusal(u) == None && u.result == Built(u)
    && ValidRow(sch, dyn, u.result)
  }

  ghost predicate Ready(sch: Schema, dyn: Dyn, cud: Cud) {
    forall id | id in cud.updates :: ReadyUpdate(sch, dyn, id, cud.updates[id])
  }

  ghost predicate Holds(sch: Schema, dyn: Dyn, records: Records, id: RecordId, row: Row) {
    id in records && LoadRecord(sch, dyn, records[id]).Got? && LoadRecord(sch, dyn, records[id]).value == row
  }

  /** The records still hold what the updates were made from. */
  ghost predicate HoldsOriginals(sch: Schema, dyn: Dyn, records: Records, cud: Cud) {
    forall id | id in cud.updates :: Holds(sch, dyn, records, id, cud.updates[id].origin)
  }

  predicate Created(creates: seq<Row>, id: RecordId) {
    exists i | 0 <= i < |creates| :: creates[i].id == id
  }

  /** Some of the records of the event were written, each as the event has it. */
  ghost predicate PartlyApplied(dyn: Dyn, cud: Cud, before: Records, now: Records) {
    && (forall id | id in cud.updates :: id in before && id in now
         && (now[id] == before[id] || now[id] == StoreRecord(dyn, cud.updates[id].result)))
    && (forall id | id !in cud.updates && !Created(cud.creates, id) ::
         && (id in now <==> id in before) && (id in before ==> now[id] == before[id]))
  }

  /** The rows of all updates in some order. */
  function Results(updates: map<RecordId, Update>, order: seq<RecordId>): seq<Row>
    requires forall id | id in order :: id in updates
  {
    seq(|order|, i requires 0 <= i < |order| => updates[order[i]].result)
  }

  /** What the event makes of the records. */
  function Applied(dyn: Dyn, cud: Cud, before: Records): Records {
    PutAll(dyn, before, cud.creates) + map id | id in cud.updates :: StoreRecord(dyn, cud.updates[id].result)
  }

  /* ---------- records read back ---------- */

  lemma RecordReadsBack(sch: Schema, dyn: Dyn, row: Row)
    requires ValidRow(sch, dyn, row)
    ensures LoadRecord(sch, dyn, StoreRecord(dyn, row)) == Got(Copy(row), [])
  {
    RowReadsBack(sch, dyn, row, []);
    hide EncRow, DecRow, ValidRow;
    var bs := EncRow(dyn, row);
    assert bs + [] == bs && ([CODEC_RDB_2] + bs)[1..] == bs;
  }

  /* ---------- building ---------- */

  /** Changing the activity, the fields and the emptied fields of a record is always built: these take their
      new values, an emptied field has none, and everything else stays. */
  lemma UpdateWritesItsFieldsOnly(record: Row, active: bool, fields: Fields, nils: set<Field>)
    requires record.qname != NULL_QNAME
    ensures
      var u := NewUpdate(record);
      var v := u.(changes := u.changes.(active := active, fields := fields, nils := nils));
      && Built(u) == Copy(record)
      && BuildRefusal(v) == None && Built(v).active == active
      && Built(v).(active := record.active, fields := record.fields, nils := record.nils) == record
      && (forall f | f in nils :: f !in Built(v).fields)
      && (forall f | f in fields && f !in nils :: f in Built(v).fields && Built(v).fields[f] == fields[f])
      && (forall f | f in record.fields && f !in nils && f !in fields ::
            f in Built(v).fields && Built(v).fields[f] == record.fields[f])
      && (forall f | f in Built(v).fields :: f in fields || f in record.fields)
  {
    assert (record.fields + map[]) - {} == record.fields;
  }

  /** Building the result once more changes nothing. */
  lemma BuildIsIdempotent(u: Update)
    requires BuildRefusal(u) == None
    ensures var again := u.(origin := Built(u)); BuildRefusal(again) == None && Built(again) == Built(u)
  {
    if u.changes.qname != NULL_QNAME {
      var once := (u.origin.fields + u.changes.fields) - u.changes.nils;
      assert (once + u.changes.fields) - u.changes.nils == once;
    }
  }

  /** Whether it was loaded before or not, and whether the record was already written or not, an update
      makes the same of it. */
  lemma CompleteAgain(sch: Schema, dyn: Dyn, records: Records, id: RecordId, u: Update, now: Update)
    requires ReadyUpdate(sch, dyn, id, u)
    requires Holds(sch, dyn, records, id, u.origin) || Holds(sch, dyn, records, id, u.result)
    requires now == u || now == ReadUpdate(u.changes)
    ensures Complete(sch, dyn, records, now).Done? && Complete(sch, dyn, records, now).value.result == u.result
  {
    hide LoadRecord, ValidRow;
    BuildIsIdempotent(u);
    if NotLoaded(now) {
      var origin := LoadRecord(sch, dyn, records[id]).value;
      assert LoadOrigin(sch, dyn, records, id) == Done(origin);
      assert now.origin.id == id && now.changes == u.changes;
      var loaded := now.(origin := origin);
      assert BuildRefusal(loaded) == BuildRefusal(u.(origin := origin)) && Built(loaded) == Built(u.(origin := origin));
      assert u.(origin := u.origin) == u;
    }
  }

  lemma {:induction false} ResultsAgain(sch: Schema, dyn: Dyn, records: Records, updates: map<RecordId, Update>,
                                        now: map<RecordId, Update>, order: seq<RecordId>)
    requires now.Keys == updates.Keys && forall id | id in order :: id in updates
    requires forall id | id in updates ::
      && Complete(sch, dyn, records, now[id]).Done?
      && Complete(sch, dyn, records, now[id]).value.result == updates[id].result
    ensures ResultsOf(sch, dyn, records, now, order) == Done(Results(updates, order))
  {
    hide Complete;
    if order == [] {
      assert Results(updates, order) == [];
    } else {
      assert order[0] in order && order[0] in now;
      ResultsAgain(sch, dyn, records, updates, now, order[1..]);
      assert Results(updates, order) == [updates[order[0]].result] + Results(updates, order[1..]);
    }
  }

  /* ---------- what is written ---------- */

  /** The last of the rows with this identifier. */
  function LastRow(rows: seq<Row>, id: RecordId): Option<Row> {
    if rows == [] then None
    else if LastRow(rows[1..], id).Some? then LastRow(rows[1..], id)
    else if rows[0].id == id then Some(rows[0]) else None
  }

  lemma {:induction false} PutAllAt(dyn: Dyn, records: Records, rows: seq<Row>, id: RecordId)
    ensures match LastRow(rows, id) {
      case Some(row) => id in PutAll(dyn, records, rows) && PutAll(dyn, records, rows)[id] == StoreRecord(dyn, row)
      case None => (id in PutAll(dyn, records, rows) <==> id in records)
                   && (id in records ==> PutAll(dyn, records, rows)[id] == records[id])
    }
    decreases |rows|
  {
    hide StoreRecord;
    if rows != [] {
      PutAllAt(dyn, records[rows[0].id := StoreRecord(dyn, rows[0])], rows[1..], id);
    }
  }

  lemma {:induction false} LastOfBoth(first: seq<Row>, second: seq<Row>, id: RecordId)
    ensures LastRow(first + second, id) == if LastRow(second, id).Some? then LastRow(second, id) else LastRow(first, id)
  {
    if first == [] {
      assert [] + second == second;
    } else {
      LastOfBoth(first[1..], second, id);
      assert (first + second)[1..] == first[1..] + second;
    }
  }

  lemma {:induction false} LastIsCreated(creates: seq<Row>, id: RecordId)
    ensures LastRow(creates, id).Some? <==> Created(creates, id)
  {
    if creates != [] {
      LastIsCreated(creates[1..], id);
      if Created(creates, id) {
        var i :| 0 <= i < |creates| && creates[i].id == id;
        assert i > 0 ==> creates[1..][i - 1].id == id;
      }
      if Created(creates[1..], id) {
        var i :| 0 <= i < |creates| - 1 && creates[1..][i].id == id;
        assert creates[i + 1].id == id;
      }
    }
  }

  lemma {:induction false} LastResult(updates: map<RecordId, Update>, order: seq<RecordId>, id: RecordId)
    requires forall x | x in order :: x in updates && updates[x].result.id == x
    ensures LastRow(Results(updates, order), id) == if id in order then Some(updates[id].result) else None
  {
    if order != [] {
      assert Results(updates, order)[1..] == Results(updates, order[1..]);
      assert order == [order[0]] + order[1..];
      LastResult(updates, order[1..], id);
    }
  }

  lemma ResultId(sch: Schema, dyn: Dyn, cud: Cud)
    requires Ready(sch, dyn, cud)
    ensures forall id | id in cud.updates :: cud.updates[id].result.id == id
  {
    forall id | id in cud.updates ensures cud.updates[id].result.id == id {
      assert ReadyUpdate(sch, dyn, id, cud.updates[id]);
    }
  }

  /** The rows of the event, written over records that may hold some of them already, in any order of the
      updates, give the same records. */
  lemma WrittenAt(sch: Schema, dyn: Dyn, cud: Cud, order: seq<RecordId>, before: Records, now: Records, id: RecordId)
    requires Ready(sch, dyn, cud) && Enumerates(order, cud.updates.Keys)
    requires PartlyApplied(dyn, cud, before, now)
    ensures var written := PutAll(dyn, now, cud.creates + Results(cud.updates, order));
      && (id in written <==> id in Applied(dyn, cud, before))
      && (id in written ==> written[id] == Applied(dyn, cud, before)[id])
  {
    hide StoreRecord, PutAll, Ready;
    ResultId(sch, dyn, cud);
    var results := Results(cud.updates, order);
    LastResult(cud.updates, order, id);
    LastOfBoth(cud.creates, results, id);
    LastIsCreated(cud.creates, id);
    PutAllAt(dyn, now, cud.creates + results, id);
    PutAllAt(dyn, before, cud.creates, id);
  }

  lemma MapsAgree(a: Records, b: Records)
    ensures (forall id :: (id in a <==> id in b) && (id in a ==> a[id] == b[id])) ==> a == b
  {
  }

  lemma Written(sch: Schema, dyn: Dyn, cud: Cud, order: seq<RecordId>, before: Records, now: Records)
    requires Ready(sch, dyn, cud) && Enumerates(order, cud.updates.Keys)
    requires PartlyApplied(dyn, cud, before, now)
    ensures PutAll(dyn, now, cud.creates + Results(cud.updates, order)) == Applied(dyn, cud, before)
  {
    assert forall id | id in order :: id in cud.updates;
    hide *;
    var rows := Results(cud.updates, order);
    var written := PutAll(dyn, now, cud.creates + rows);
    var applied := Applied(dyn, cud, before);
    forall id ensures (id in written <==> id in applied) && (id in written ==> written[id] == applied[id]) {
      WrittenAt(sch, dyn, cud, order, before, now, id);
    }
    MapsAgree(written, applied);
  }

  lemma UpdateHolds(sch: Schema, dyn: Dyn, cud: Cud, before: Records, now: Records, id: RecordId)
    requires Ready(sch, dyn, cud) && HoldsOriginals(sch, dyn, before, cud) && PartlyApplied(dyn, cud, before, now)
    requires id in cud.updates
    ensures ReadyUpdate(sch, dyn, id, cud.updates[id])
    ensures Holds(sch, dyn, now, id, cud.updates[id].origin) || Holds(sch, dyn, now, id, cud.updates[id].result)
  {
    hide LoadRecord, StoreRecord, ValidRow;
    var u := cud.updates[id];
    assert ReadyUpdate(sch, dyn, id, u) && Holds(sch, dyn, before, id, u.origin);
    RecordReadsBack(sch, dyn, u.result);
    assert Copy(u.result) == u.result;
  }

  /** The event in memory or as read from the log: every update is the one in memory or its changes alone. */
  ghost predicate SameChanges(cud: Cud, now: Cud) {
    && now.creates == cud.creates && now.updates.Keys == cud.updates.Keys
    && forall id | id in cud.updates ::
         now.updates[id] == cud.updates[id] || now.updates[id] == ReadUpdate(cud.updates[id].changes)
  }

  /** Applying it over records of which any part was already written gives what it makes of the records. */
  lemma AppliesAgain(sch: Schema, dyn: Dyn, cud: Cud, now: Cud, order: seq<RecordId>, before: Records, records: Records)
    requires Ready(sch, dyn, cud) && HoldsOriginals(sch, dyn, before, cud) && PartlyApplied(dyn, cud, before, records)
    requires SameChanges(cud, now) && Enumerates(order, cud.updates.Keys)
    ensures Apply(sch, dyn, records, now, order) == Done(Applied(dyn, cud, before))
    ensures RowsOf(sch, dyn, records, now, order) == Done(cud.creates + Results(cud.updates, order))
  {
    hide Complete, ReadyUpdate, Holds, PartlyApplied, Ready, HoldsOriginals, Applied, PutAll;
    forall id | id in cud.updates
      ensures Complete(sch, dyn, records, now.updates[id]).Done?
      ensures Complete(sch, dyn, records, now.updates[id]).value.result == cud.updates[id].result
    {
      UpdateHolds(sch, dyn, cud, before, records, id);
      CompleteAgain(sch, dyn, records, id, cud.updates[id], now.updates[id]);
    }
    ResultsAgain(sch, dyn, records, cud.updates, now.updates, order);
    Written(sch, dyn, cud, order, before, records);
  }

  lemma NothingApplied(sch: Schema, dyn: Dyn, cud: Cud, before: Records)
    requires HoldsOriginals(sch, dyn, before, cud)
    ensures PartlyApplied(dyn, cud, before, before)
  {
    forall id | id in cud.updates ensures id in before {
      assert Holds(sch, dyn, before, id, cud.updates[id].origin);
    }
    hide LoadRecord, StoreRecord;
  }

  /* ---------- interrupted writes ---------- */

  /** The rows of the event after the first `k` of them. */
  lemma PrefixRows(cud: Cud, order: seq<RecordId>, k: nat)
    requires forall id | id in order :: id in cud.updates
    requires k <= |cud.creates| + |order|
    ensures (forall id | id in Take(order, k - |cud.creates|) :: id in order)
    ensures (cud.creates + Results(cud.updates, order))[..k]
      == Take(cud.creates, k) + Results(cud.updates, Take(order, k - |cud.creates|))
  {
  }

  function Take<T>(s: seq<T>, k: int): seq<T> {
    if k <= 0 then [] else if k >= |s| then s else s[..k]
  }

  lemma CreatedBefore(creates: seq<Row>, k: nat, id: RecordId)
    requires Created(Take(creates, k), id)
    ensures Created(creates, id)
  {
    var i :| 0 <= i < |Take(creates, k)| && Take(creates, k)[i].id == id;
    assert creates[i].id == id;
  }

  lemma PrefixAt(sch: Schema, dyn: Dyn, cud: Cud, order: seq<RecordId>, before: Records, k: nat, id: RecordId)
    requires Ready(sch, dyn, cud) && Enumerates(order, cud.updates.Keys) && k <= |cud.creates| + |order|
    ensures var now := PutAll(dyn, before, (cud.creates + Results(cud.updates, order))[..k]);
      && (id in before ==> id in now)
      && (!Created(cud.creates, id) && id in now ==>
            || (id in before && now[id] == before[id])
            || (id in cud.updates && now[id] == StoreRecord(dyn, cud.updates[id].result)))
  {
    hide StoreRecord, PutAll, Ready, Take;
    ResultId(sch, dyn, cud);
    PrefixRows(cud, order, k);
    var done := Take(order, k - |cud.creates|);
    LastResult(cud.updates, done, id);
    LastOfBoth(Take(cud.creates, k), Results(cud.updates, done), id);
    LastIsCreated(Take(cud.creates, k), id);
    if Created(Take(cud.creates, k), id) {
      CreatedBefore(cud.creates, k, id);
    }
    PutAllAt(dyn, before, (cud.creates + Results(cud.updates, order))[..k], id);
  }

  /** Writing any number of the rows leaves the records partly applied, if no record is both created and
      updated. */
  lemma InterruptedIsPartlyApplied(sch: Schema, dyn: Dyn, cud: Cud, order: seq<RecordId>, before: Records, k: nat)
    requires Ready(sch, dyn, cud) && HoldsOriginals(sch, dyn, before, cud) && Enumerates(order, cud.updates.Keys)
    requires k <= |cud.creates| + |order| && forall id | id in cud.updates :: !Created(cud.creates, id)
    ensures PartlyApplied(dyn, cud, before, PutAll(dyn, before, (cud.creates + Results(cud.updates, order))[..k]))
  {
    assert |Results(cud.updates, order)| == |order|;
    hide StoreRecord, PutAll, Ready, LoadRecord, Results, Created;
    forall id | id in cud.updates ensures id in before {
      assert Holds(sch, dyn, before, id, cud.updates[id].origin);
    }
    var now := PutAll(dyn, before, (cud.creates + Results(cud.updates, order))[..k]);
    forall id
      ensures id in before ==> id in now
      ensures !Created(cud.creates, id) && id in now ==>
        || (id in before && now[id] == before[id])
        || (id in cud.updates && now[id] == StoreRecord(dyn, cud.updates[id].result))
    {
      PrefixAt(sch, dyn, cud, order, before, k, id);
    }
  }

  /** No create has the identifier of a record that exists or of an earlier create. */
  predicate Fresh(records: Records, creates: seq<Row>) {
    forall i | 0 <= i < |creates| :: creates[i].id !in records && forall j | 0 <= j < i :: creates[j].id != creates[i].id
  }

  /** At the lowest trust level no existing record is overwritten by a create, and all creates are written
      exactly if they are new. */
  lemma {:induction false} InsertsExactlyIfFresh(dyn: Dyn, records: Records, creates: seq<Row>)
    ensures InsertAll(dyn, records, creates).1 <==> Fresh(records, creates)
    ensures InsertAll(dyn, records, creates).1 ==> InsertAll(dyn, records, creates).0 == PutAll(dyn, records, creates)
    ensures forall id | id in records :: id in InsertAll(dyn, records, creates).0 && InsertAll(dyn, records, creates).0[id] == records[id]
    decreases |creates|
  {
    hide StoreRecord;
    if creates != [] && creates[0].id !in records {
      var next := records[creates[0].id := StoreRecord(dyn, creates[0])];
      InsertsExactlyIfFresh(dyn, next, creates[1..]);
      if Fresh(records, creates) {
        forall i | 0 <= i < |creates| - 1
          ensures creates[1..][i].id !in next && forall j | 0 <= j < i :: creates[1..][j].id != creates[1..][i].id
        {
          assert creates[1..][i] == creates[i + 1] && creates[0].id != creates[i + 1].id;
          assert forall j | 0 <= j < i :: creates[1..][j] == creates[j + 1];
        }
      }
      if Fresh(next, creates[1..]) {
        forall i | 0 <= i < |creates|
          ensures creates[i].id !in records && forall j | 0 <= j < i :: creates[j].id != creates[i].id
        {
          if i > 0 {
            assert creates[1..][i - 1].id !in next;
            forall j | 1 <= j < i ensures creates[j].id != creates[i].id {
              assert creates[1..][j - 1].id != creates[1..][i - 1].id;
            }
          }
        }
      }
    } else if creates != [] {
      assert !Fresh(records, creates);
    }
  }

  /* ---------- main results ---------- */

  /** The CUDs in memory of the event `ev`. */
  ghost predicate CudOf(ev: Event, cud: Cud) {
    && cud.creates == ev.creates && cud.updates.Keys == ev.updates.Keys
    && forall id | id in ev.updates :: cud.updates[id].changes == ev.updates[id]
  }

  lemma ReadIsSame(sch: Schema, ev: Event, cud: Cud)
    ensures IsValid(ev) && CudOf(ev, cud) ==> SameChanges(cud, ReadCud(StoredEvent(sch, ev)))
  {
    hide StoredObj, StoredParams, ReadUpdate;
  }

  /** The event as it is read from its own bytes leaves exactly the records that the event in memory leaves,
      even if the records of the event were partly written before, and in any order of the updates. */
  lemma RecoveryGivesSameRecords(sch: Schema, dyn: Dyn, ev: Event, ord: Orders, rest: Bytes, cud: Cud,
                                 order: seq<RecordId>, order': seq<RecordId>, before: Records, now: Records)
    requires ValidEvent(sch, dyn, ev) && IsValid(ev) && OrdersOf(ev, ord) && CudOf(ev, cud)
    requires Ready(sch, dyn, cud) && HoldsOriginals(sch, dyn, before, cud) && PartlyApplied(dyn, cud, before, now)
    requires Enumerates(order, cud.updates.Keys) && Enumerates(order', cud.updates.Keys)
    ensures
      var loaded := DecEvent(sch, dyn, EncEvent(sch, dyn, ev, ord) + rest);
      && loaded.Got? && loaded.value.updates.Keys == cud.updates.Keys
      && Apply(sch, dyn, now, ReadCud(loaded.value), order') == Apply(sch, dyn, before, cud, order)
      && Apply(sch, dyn, before, cud, order) == Done(Applied(dyn, cud, before))
  {
    EventReadsBack(sch, dyn, ev, ord, rest);
    ReadIsSame(sch, ev, cud);
    NothingApplied(sch, dyn, cud, before);
    assert SameChanges(cud, cud);
    AppliesAgain(sch, dyn, cud, cud, order, before, before);
    AppliesAgain(sch, dyn, cud, ReadCud(StoredEvent(sch, ev)), order', before, now);
    hide *;
  }

  /** Whatever number of rows was written before a crash, applying the event from its bytes completes it. */
  lemma CrashedApplyIsCompleted(sch: Schema, dyn: Dyn, ev: Event, ord: Orders, rest: Bytes, cud: Cud,
                                order: seq<RecordId>, order': seq<RecordId>, before: Records, k: nat)
    requires ValidEvent(sch, dyn, ev) && IsValid(ev) && OrdersOf(ev, ord) && CudOf(ev, cud)
    requires Ready(sch, dyn, cud) && HoldsOriginals(sch, dyn, before, cud)
    requires forall id | id in cud.updates :: !Created(cud.creates, id)
    requires Enumerates(order, cud.updates.Keys) && Enumerates(order', cud.updates.Keys)
    requires RowsOf(sch, dyn, before, cud, order).Done? && k <= |RowsOf(sch, dyn, before, cud, order).value|
    ensures
      var crashed := PutAll(dyn, before, RowsOf(sch, dyn, before, cud, order).value[..k]);
      var loaded := DecEvent(sch, dyn, EncEvent(sch, dyn, ev, ord) + rest);
      && loaded.Got? && loaded.value.updates.Keys == cud.updates.Keys
      && Apply(sch, dyn, crashed, ReadCud(loaded.value), order') == Apply(sch, dyn, before, cud, order)
  {
    assert SameChanges(cud, cud);
    NothingApplied(sch, dyn, cud, before);
    AppliesAgain(sch, dyn, cud, cud, order, before, before);
    var crashed := PutAll(dyn, before, RowsOf(sch, dyn, before, cud, order).value[..k]);
    assert |Results(cud.updates, order)| == |order|;
    hide *;
    InterruptedIsPartlyApplied(sch, dyn, cud, order, before, k);
    RecoveryGivesSameRecords(sch, dyn, ev, ord, rest, cud, order, order', before, crashed);
  }

  /** The records may even have changed since: an update makes the same of a record as of its original
      exactly if they agree in everything but the fields that it writes. */
  lemma SameResultExactlyIf(changes: Row, origin: Row, other: Row)
    requires changes.qname != NULL_QNAME && BuildRefusal(Update(origin, changes, NULL_ROW)) == None
    ensures
      (BuildRefusal(Update(other, changes, NULL_ROW)) == None && Built(Update(other, changes, NULL_ROW)) == Built(Update(origin, changes, NULL_ROW)))
      <==> (other.qname == origin.qname && other.id == origin.id && other.parent == origin.parent && other.container == origin.container
            && forall f :: f !in changes.fields && f !in changes.nils ==>
                 (f in other.fields <==> f in origin.fields) && (f in other.fields ==> other.fields[f] == origin.fields[f]))
  {
    var a := (other.fields + changes.fields) - changes.nils;
    var b := (origin.fields + changes.fields) - changes.nils;
    if a == b {
      forall f | f !in changes.fields && f !in changes.nils
        ensures (f in other.fields <==> f in origin.fields) && (f in other.fields ==> other.fields[f] == origin.fields[f])
      {
        assert f in a <==> f in other.fields;
        assert f in b <==> f in origin.fields;
      }
    }
  }
}
