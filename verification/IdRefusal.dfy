/** Which events are refused when their identifiers are replaced, and what singletons get. */
module IdRefusal {
  import opened Bytes
  import opened EventCodec
  import opened CudApply
  import opened CudRefusal
  import opened IdRegeneration
  import opened IdRegenerationTheorems

  /** The update with the identifiers of its changes replaced. */
  function WithNewIds(sch: Schema, newIds: map<RecordId, RecordId>, u: Update): Update {
    u.(changes := Renamed(sch, newIds, true, u.changes))
  }

  /** A touched update still says of its record what is so. */
  ghost predicate StillObeyed(sch: Schema, newIds: map<RecordId, RecordId>, u: Update) {
    Touched(sch, newIds, u.changes) && u.changes.qname != NULL_QNAME ==> Obeys(u.origin, Renamed(sch, newIds, true, u.changes))
  }

  lemma UpdateRefusedExactlyIf(sch: Schema, newIds: map<RecordId, RecordId>, u: Update)
    ensures RenamedUpdate(sch, newIds, u).Done? <==> StillObeyed(sch, newIds, u)
    ensures !StillObeyed(sch, newIds, u) ==>
      BuildRefusal(WithNewIds(sch, newIds, u)).Some?
      && RenamedUpdate(sch, newIds, u) == Refused(BuildRefusal(WithNewIds(sch, newIds, u)).value)
  {
    AcceptedExactlyIfObeyed(WithNewIds(sch, newIds, u));
    hide Touched, IsRef, Target;
  }

  ghost predicate AllObeyed(sch: Schema, newIds: map<RecordId, RecordId>, updates: map<RecordId, Update>, order: seq<RecordId>)
    requires forall id | id in order :: id in updates
  {
    forall i | 0 <= i < |order| :: StillObeyed(sch, newIds, updates[order[i]])
  }

  ghost predicate FirstDisobeyed(sch: Schema, newIds: map<RecordId, RecordId>, updates: map<RecordId, Update>, order: seq<RecordId>, i: nat)
    requires forall id | id in order :: id in updates
  {
    i < |order| && !StillObeyed(sch, newIds, updates[order[i]]) && forall j | 0 <= j < i :: StillObeyed(sch, newIds, updates[order[j]])
  }

  predicate Distinct(order: seq<RecordId>) {
    forall i, j | 0 <= i < j < |order| :: order[i] != order[j]
  }

  lemma {:induction false} UpdatesDoneExactlyIf(sch: Schema, newIds: map<RecordId, RecordId>, updates: map<RecordId, Update>,
                                                order: seq<RecordId>) returns (i: nat)
    requires Distinct(order) && forall id | id in order :: id in updates
    ensures RenamedUpdates(sch, newIds, updates, order).Done? <==> AllObeyed(sch, newIds, updates, order)
    ensures !AllObeyed(sch, newIds, updates, order) ==>
      && FirstDisobeyed(sch, newIds, updates, order, i)
      && BuildRefusal(WithNewIds(sch, newIds, updates[order[i]])).Some?
      && RenamedUpdates(sch, newIds, updates, order) == Refused(BuildRefusal(WithNewIds(sch, newIds, updates[order[i]])).value)
    decreases |order|
  {
    hide StillObeyed, RenamedUpdate, WithNewIds, BuildRefusal;
    i := 0;
    if order != [] {
      var u := updates[order[0]];
      UpdateRefusedExactlyIf(sch, newIds, u);
      if StillObeyed(sch, newIds, u) {
        var rest := order[1..];
        var next := updates[order[0] := RenamedUpdate(sch, newIds, u).value];
        assert forall k | 0 <= k < |rest| :: rest[k] == order[k + 1] && rest[k] in next && next[rest[k]] == updates[order[k + 1]];
        var k := UpdatesDoneExactlyIf(sch, newIds, next, rest);
        i := k + 1;
        assert forall j | 1 <= j < |order| :: order[j] == rest[j - 1] && next[rest[j - 1]] == updates[order[j]];
      }
    }
  }

  /** Regeneration succeeds exactly if the singletons among the creates are known and no update whose changes are
      touched gives its record another identifier, parent or container.  Otherwise the error is that of the
      unknown singleton, or else of the first such update in the order of iteration. */
  lemma RegeneratedExactlyIf(sch: Schema, rule: Rule, next: nat, cud: Cud, order: seq<RecordId>) returns (i: nat)
    requires Enumerates(order, cud.updates.Keys)
    ensures forall id | id in order :: id in cud.updates
    ensures
      var newIds := PlanOf(rule, next, cud.creates).newIds;
      var r := RegenerateCud(sch, rule, next, cud, order);
      && (r.Done? <==> SingletonsKnown(rule, cud.creates) && AllObeyed(sch, newIds, cud.updates, order))
      && (!SingletonsKnown(rule, cud.creates) ==> r == Refused(SingletonNotFound))
      && (SingletonsKnown(rule, cud.creates) && !r.Done? ==>
            && FirstDisobeyed(sch, newIds, cud.updates, order, i)
            && BuildRefusal(WithNewIds(sch, newIds, cud.updates[order[i]])).Some?
            && r == Refused(BuildRefusal(WithNewIds(sch, newIds, cud.updates[order[i]])).value))
  {
    i := UpdatesDoneExactlyIf(sch, PlanOf(rule, next, cud.creates).newIds, cud.updates, order);
    hide AllObeyed, FirstDisobeyed, RenamedUpdates, WithNewIds, BuildRefusal, SingletonsKnown, PlanOf;
  }

  /** A regenerated create with a storage identifier keeps it, a singleton gets the identifier that is registered
      for its type, and any other create one that the generator had not given before. */
  lemma CreateIdIs(sch: Schema, rule: Rule, next: nat, cud: Cud, order: seq<RecordId>, i: nat)
    requires ValidRule(rule) && next >= FIRST_USER_RECORD_ID && DistinctIds(cud.creates) && i < |cud.creates|
    requires Enumerates(order, cud.updates.Keys)
    ensures forall id | id in order :: id in cud.updates
    ensures
      var r := RegenerateCud(sch, rule, next, cud, order);
      var row := cud.creates[i];
      r.Done? ==>
        && i < |r.value.cud.creates|
        && (!IsRaw(row.id) ==> r.value.cud.creates[i].id == row.id)
        && (IsRaw(row.id) && rule.ForCuds? && row.qname in rule.singletons ==>
              row.qname in rule.registered && r.value.cud.creates[i].id == rule.registered[row.qname])
        && (IsRaw(row.id) && (rule.ForObject? || row.qname !in rule.singletons) ==> r.value.cud.creates[i].id >= next)
  {
    var r := RegenerateCud(sch, rule, next, cud, order);
    if r.Done? {
      PlanLength(rule, Plan(next, [], map[]), cud.creates);
      CreateIsRenamed(sch, rule, next, cud.creates, i);
      PlanGives(rule, next, cud.creates, i);
      NextGrows(rule, next, cud.creates, i, i);
    }
    hide RenamedUpdates, ExtendAll, Renamed, DistinctIds;
  }
}
