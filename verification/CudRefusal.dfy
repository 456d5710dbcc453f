/** Which updates are refused, and with which error. */
module CudRefusal {
  import opened Options
  import opened Bytes
  import opened EventCodec
  import opened EventRoundTrip
  import opened CudApply

  /** The record is where the changes say that it is; null changes say nothing. */
  predicate Obeys(record: Row, changes: Row) {
    && record.id == changes.id
    && (changes.parent == 0 || record.parent == changes.parent)
    && (changes.container == 0 || record.container == changes.container)
  }

  /** Building an update of a known type is accepted exactly if its result obeys the changes; a refused one
      leaves the record as it was.  The error names the first of identifier, parent and container that differs. */
  lemma AcceptedExactlyIfObeyed(u: Update)
    ensures BuildRefusal(u) == None <==> u.changes.qname == NULL_QNAME || Obeys(Built(u), u.changes)
    ensures BuildRefusal(u) != None ==> Built(u) == u.origin.(nils := {})
    ensures u.changes.qname != NULL_QNAME ==>
      && (BuildRefusal(u) == Some(CannotUpdateId) <==> u.changes.id != u.origin.id)
      && (BuildRefusal(u) == Some(CannotUpdateParent) <==>
            u.changes.id == u.origin.id && u.changes.parent != 0 && u.changes.parent != u.origin.parent)
      && (BuildRefusal(u) == Some(CannotUpdateContainer) <==>
            && u.changes.id == u.origin.id && (u.changes.parent == 0 || u.changes.parent == u.origin.parent)
            && u.changes.container != 0 && u.changes.container != u.origin.container)
  {
  }

  /** What an accepted update makes of a record: each field is emptied, or has its change, or is as it was. */
  lemma AcceptedUpdateIs(u: Update, f: Field)
    requires u.changes.qname != NULL_QNAME && BuildRefusal(u) == None
    ensures
      var r := Built(u);
      && r.qname == u.origin.qname && r.id == u.origin.id && r.parent == u.origin.parent && r.container == u.origin.container
      && r.active == u.changes.active
      && (f in r.fields <==> f !in u.changes.nils && (f in u.changes.fields || f in u.origin.fields))
      && (f in r.fields ==> r.fields[f] == if f in u.changes.fields then u.changes.fields[f] else u.origin.fields[f])
  {
  }

  /* ---------- at the application ---------- */

  /** The record of the update is found and, if it has to be loaded, obeys the changes. */
  ghost predicate Acceptable(sch: Schema, dyn: Dyn, records: Records, u: Update) {
    || u.origin.fields != map[]
    || (&& u.origin.id in records
        && LoadRecord(sch, dyn, records[u.origin.id]).Got?
        && (u.changes.qname == NULL_QNAME || Obeys(LoadRecord(sch, dyn, records[u.origin.id]).value, u.changes)))
  }

  /** The error of an update that is not: of the record, or of the first field that differs. */
  ghost function ErrorOf(sch: Schema, dyn: Dyn, records: Records, u: Update): ApplyError {
    if u.origin.id !in records then IdNotFound
    else
      match LoadRecord(sch, dyn, records[u.origin.id])
      case Failed(e) => BadRecord(e)
      case Got(row, _) =>
        if row.id != u.changes.id then CannotUpdateId
        else if u.changes.parent != 0 && row.parent != u.changes.parent then CannotUpdateParent
        else CannotUpdateContainer
  }

  lemma CompletedExactlyIf(sch: Schema, dyn: Dyn, records: Records, u: Update)
    ensures Complete(sch, dyn, records, u).Done? <==> Acceptable(sch, dyn, records, u)
    ensures !Acceptable(sch, dyn, records, u) ==> Complete(sch, dyn, records, u) == Refused(ErrorOf(sch, dyn, records, u))
  {
    if LoadOrigin(sch, dyn, records, u.origin.id).Done? {
      AcceptedExactlyIfObeyed(u.(origin := LoadOrigin(sch, dyn, records, u.origin.id).value));
    }
    hide LoadRecord;
  }

  /** The first update in the order that is not acceptable. */
  ghost predicate FirstRefused(sch: Schema, dyn: Dyn, records: Records, updates: map<RecordId, Update>, order: seq<RecordId>, i: nat)
    requires forall id | id in order :: id in updates
  {
    && i < |order| && !Acceptable(sch, dyn, records, updates[order[i]])
    && forall j | 0 <= j < i :: Acceptable(sch, dyn, records, updates[order[j]])
  }

  ghost predicate AllAcceptable(sch: Schema, dyn: Dyn, records: Records, updates: map<RecordId, Update>, order: seq<RecordId>)
    requires forall id | id in order :: id in updates
  {
    forall i | 0 <= i < |order| :: Acceptable(sch, dyn, records, updates[order[i]])
  }

  lemma {:induction false} ResultsDoneExactlyIf(sch: Schema, dyn: Dyn, records: Records, updates: map<RecordId, Update>, order: seq<RecordId>)
    returns (i: nat)
    requires forall id | id in order :: id in updates
    ensures ResultsOf(sch, dyn, records, updates, order).Done? <==> AllAcceptable(sch, dyn, records, updates, order)
    ensures !AllAcceptable(sch, dyn, records, updates, order) ==>
      && FirstRefused(sch, dyn, records, updates, order, i)
      && ResultsOf(sch, dyn, records, updates, order) == Refused(ErrorOf(sch, dyn, records, updates[order[i]]))
  {
    hide Acceptable, ErrorOf, Complete;
    i := 0;
    if order != [] {
      CompletedExactlyIf(sch, dyn, records, updates[order[0]]);
      var k := ResultsDoneExactlyIf(sch, dyn, records, updates, order[1..]);
      if Acceptable(sch, dyn, records, updates[order[0]]) {
        i := k + 1;
        assert forall j | 1 <= j < |order| :: order[j] == order[1..][j - 1];
      }
    }
  }

  /** An event is applied exactly if all its updates are acceptable.  Otherwise the error is that of the first
      one, in the order of iteration, that is not, and no record is written, at any trust level. */
  lemma AppliedExactlyIf(sch: Schema, dyn: Dyn, records: Records, cud: Cud, order: seq<RecordId>) returns (i: nat)
    requires forall id | id in order :: id in cud.updates
    ensures Apply(sch, dyn, records, cud, order).Done? <==> AllAcceptable(sch, dyn, records, cud.updates, order)
    ensures !AllAcceptable(sch, dyn, records, cud.updates, order) ==>
      && FirstRefused(sch, dyn, records, cud.updates, order, i)
      && Apply(sch, dyn, records, cud, order) == Refused(ErrorOf(sch, dyn, records, cud.updates[order[i]]))
      && ApplyStrictly(sch, dyn, records, cud, order) == (records, Some(ErrorOf(sch, dyn, records, cud.updates[order[i]])))
  {
    i := ResultsDoneExactlyIf(sch, dyn, records, cud.updates, order);
    hide Acceptable, ErrorOf, Complete, ResultsOf;
  }

  /** For an event that was read from the log every update is checked against the stored record: the event is
      applied exactly if each record exists, loads and is where the changes of known type say. */
  lemma LoggedEventIsAppliedExactlyIf(sch: Schema, dyn: Dyn, records: Records, ev: Event, order: seq<RecordId>)
    requires Enumerates(order, ev.updates.Keys) && forall id | id in ev.updates :: ev.updates[id].id == id
    ensures forall id | id in order :: id in ReadCud(ev).updates
    ensures Apply(sch, dyn, records, ReadCud(ev), order).Done? <==>
      forall id | id in ev.updates ::
        && id in records && LoadRecord(sch, dyn, records[id]).Got?
        && (ev.updates[id].qname == NULL_QNAME || Obeys(LoadRecord(sch, dyn, records[id]).value, ev.updates[id]))
  {
    var updates := ReadCud(ev).updates;
    var i := AppliedExactlyIf(sch, dyn, records, ReadCud(ev), order);
    hide LoadRecord, Obeys, Apply;
    assert forall k | 0 <= k < |order| :: order[k] in order && order[k] in ev.updates;
    assert forall id | id in ev.updates :: id in order && updates[id] == ReadUpdate(ev.updates[id]);
  }

  /* ---------- a create that exists already ---------- */

  /** The first create that is not new. */
  predicate FirstExisting(records: Records, creates: seq<Row>, i: nat) {
    i < |creates| && Fresh(records, creates[..i]) && !Fresh(records, creates[..i + 1])
  }

  lemma {:induction false} InsertedUpTo(dyn: Dyn, records: Records, creates: seq<Row>) returns (i: nat)
    requires !InsertAll(dyn, records, creates).1
    ensures FirstExisting(records, creates, i) && InsertAll(dyn, records, creates).0 == PutAll(dyn, records, creates[..i])
    decreases |creates|
  {
    hide StoreRecord;
    if creates[0].id in records {
      i := 0;
      assert creates[..1][0] == creates[0];
    } else {
      var next := records[creates[0].id := StoreRecord(dyn, creates[0])];
      var k := InsertedUpTo(dyn, next, creates[1..]);
      i := k + 1;
      assert creates[..i][1..] == creates[1..][..k] && creates[..i + 1][1..] == creates[1..][..k + 1];
      FreshCons(dyn, records, creates[..i]);
      FreshCons(dyn, records, creates[..i + 1]);
    }
  }

  lemma FreshCons(dyn: Dyn, records: Records, creates: seq<Row>)
    requires creates != [] && creates[0].id !in records
    ensures Fresh(records, creates) <==> Fresh(records[creates[0].id := StoreRecord(dyn, creates[0])], creates[1..])
  {
    InsertsExactlyIfFresh(dyn, records, creates);
    InsertsExactlyIfFresh(dyn, records[creates[0].id := StoreRecord(dyn, creates[0])], creates[1..]);
    hide StoreRecord, Fresh;
  }

  /** At the lowest trust level an event whose updates are acceptable is written whole exactly if its creates are
      new.  Otherwise the creates before the first one that is not stay written, and no update is. */
  lemma StrictlyAppliedExactlyIf(sch: Schema, dyn: Dyn, records: Records, cud: Cud, order: seq<RecordId>) returns (i: nat)
    requires forall id | id in order :: id in cud.updates
    requires AllAcceptable(sch, dyn, records, cud.updates, order)
    ensures Fresh(records, cud.creates) ==>
      && Apply(sch, dyn, records, cud, order).Done?
      && ApplyStrictly(sch, dyn, records, cud, order) == (Apply(sch, dyn, records, cud, order).value, None)
    ensures !Fresh(records, cud.creates) ==>
      && FirstExisting(records, cud.creates, i)
      && ApplyStrictly(sch, dyn, records, cud, order) == (PutAll(dyn, records, cud.creates[..i]), Some(SequencesViolation))
  {
    var k := AppliedExactlyIf(sch, dyn, records, cud, order);
    InsertsExactlyIfFresh(dyn, records, cud.creates);
    i := 0;
    if Fresh(records, cud.creates) {
      var results := ResultsOf(sch, dyn, records, cud.updates, order).value;
      PutJoined(dyn, records, cud.creates, results);
    } else {
      i := InsertedUpTo(dyn, records, cud.creates);
    }
    hide Acceptable, ErrorOf, Complete, ResultsOf, InsertAll, PutAll, Fresh;
  }

  lemma {:induction false} PutJoined(dyn: Dyn, records: Records, a: seq<Row>, b: seq<Row>)
    ensures PutAll(dyn, records, a + b) == PutAll(dyn, PutAll(dyn, records, a), b)
    decreases |a|
  {
    hide StoreRecord;
    if a == [] {
      assert a + b == b;
    } else {
      PutJoined(dyn, records[a[0].id := StoreRecord(dyn, a[0])], a[1..], b);
      assert (a + b)[1..] == a[1..] + b;
    }
  }
}
