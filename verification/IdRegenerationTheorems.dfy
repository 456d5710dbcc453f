/** Main results about the replacement of raw identifiers: it is one injective renaming, what is left raw or
    null by it, and when the new identifiers are distinct. */
module IdRegenerationTheorems {
  import opened Options
  import opened Bytes
  import opened EventCodec
  import opened CudApply
  import opened IdRegeneration

  /* ---------- one row ---------- */

  /** Images of raw identifiers are not raw. */
  predicate NoRawImages(newIds: map<RecordId, RecordId>) {
    forall id | id in newIds :: !IsRaw(newIds[id])
  }

  predicate HasRaw(sch: Schema, row: Row) {
    exists id | 1 <= id <= MAX_RAW_ID :: Mentions(sch, row, id)
  }

  /** Every raw identifier that the row mentions has a new one. */
  predicate Resolves(sch: Schema, newIds: map<RecordId, RecordId>, row: Row) {
    forall id | 1 <= id <= MAX_RAW_ID :: Mentions(sch, row, id) ==> id in newIds
  }

  /** The renamed row mentions exactly the images of what the row mentions. */
  lemma MentionsImages(sch: Schema, newIds: map<RecordId, RecordId>, keep: bool, row: Row, image: RecordId)
    ensures Mentions(sch, Renamed(sch, newIds, keep, row), image)
      <==> exists id :: Mentions(sch, row, id) && image == Target(newIds, keep, id)
  {
    hide Target, IsRef;
    var r := Renamed(sch, newIds, keep, row);
    if Mentions(sch, r, image) {
      if r.id == image {
        assert Mentions(sch, row, row.id);
      } else if r.parent == image {
        assert Mentions(sch, row, row.parent);
      } else {
        var f :| f in r.fields && IsRef(sch, r.qname, f) && r.fields[f] == image;
        assert Mentions(sch, row, row.fields[f]);
      }
    }
    if id :| Mentions(sch, row, id) && image == Target(newIds, keep, id) {
      if row.id != id && row.parent != id {
        var f :| f in row.fields && IsRef(sch, row.qname, f) && row.fields[f] == id;
        assert r.fields[f] == image;
      }
    }
  }

  lemma RawRemainsExactlyIf(sch: Schema, newIds: map<RecordId, RecordId>, row: Row)
    requires NoRawImages(newIds)
    ensures HasRaw(sch, Renamed(sch, newIds, true, row)) <==> !Resolves(sch, newIds, row)
    ensures !HasRaw(sch, Renamed(sch, newIds, false, row))
  {
    hide Mentions, Renamed;
    forall image, keep ensures Mentions(sch, Renamed(sch, newIds, keep, row), image)
      <==> exists id :: Mentions(sch, row, id) && image == Target(newIds, keep, id)
    {
      MentionsImages(sch, newIds, keep, row, image);
    }
    if id :| 1 <= id <= MAX_RAW_ID && Mentions(sch, row, id) && id !in newIds {
      assert Target(newIds, true, id) == id;
      assert Mentions(sch, Renamed(sch, newIds, true, row), id);
    }
  }

  lemma UntouchedStays(sch: Schema, newIds: map<RecordId, RecordId>, row: Row)
    requires !Touched(sch, newIds, row)
    ensures Renamed(sch, newIds, true, row) == row
  {
    hide IsRef;
    var r := Renamed(sch, newIds, true, row);
    assert Mentions(sch, row, row.id) && Mentions(sch, row, row.parent);
    forall f | f in row.fields ensures r.fields[f] == row.fields[f] {
      if IsRef(sch, row.qname, f) {
        assert Mentions(sch, row, row.fields[f]);
      }
    }
    assert r.fields == row.fields;
  }

  /* ---------- the plan ---------- */

  lemma GivenIdIsNotRaw(rule: Rule, next: nat, row: Row)
    ensures ValidRule(rule) && next > MAX_RAW_ID ==> !IsRaw(GivenId(rule, next, row))
  {
  }

  /** Distinct raw identifiers get distinct ones, and none of these is raw. */
  lemma RenamingIsInjective(rule: Rule, next: nat, rows: seq<Row>)
    requires ValidRule(rule) && next >= FIRST_USER_RECORD_ID && SingletonsKnown(rule, rows)
    requires DistinctIds(rows) && OneOfEachSingleton(rule, rows)
    ensures var newIds := PlanOf(rule, next, rows).newIds;
      && (forall id :: id in newIds <==> IsRaw(id) && exists i | 0 <= i < |rows| :: rows[i].id == id)
      && NoRawImages(newIds)
      && (forall a, b | a in newIds && b in newIds && a != b :: newIds[a] != newIds[b])
  {
    hide ExtendAll, GivenId, NextAfter;
    var newIds := PlanOf(rule, next, rows).newIds;
    PrefixOfAll(rows);
    forall id ensures id in newIds <==> IsRaw(id) && exists i | 0 <= i < |rows| :: rows[i].id == id {
      PlanKeys(rule, next, rows, |rows|, id);
    }
    forall id | id in newIds ensures !IsRaw(newIds[id]) {
      var i :| 0 <= i < |rows| && rows[i].id == id;
      PlanGives(rule, next, rows, i);
      GivenIdIsNotRaw(rule, NextBefore(rule, next, rows, i), rows[i]);
    }
    forall a, b | a in newIds && b in newIds && a != b ensures newIds[a] != newIds[b] {
      var i :| 0 <= i < |rows| && rows[i].id == a;
      var j :| 0 <= j < |rows| && rows[j].id == b;
      PlanGives(rule, next, rows, i);
      PlanGives(rule, next, rows, j);
      if i < j {
        GivenAreDistinct(rule, next, rows, i, j);
      } else {
        GivenAreDistinct(rule, next, rows, j, i);
      }
    }
  }

  lemma GivenAreDistinct(rule: Rule, next: nat, rows: seq<Row>, i: nat, j: nat)
    requires ValidRule(rule) && next >= FIRST_USER_RECORD_ID && SingletonsKnown(rule, rows)
    requires OneOfEachSingleton(rule, rows) && i < j < |rows| && IsRaw(rows[i].id) && IsRaw(rows[j].id)
    ensures GivenId(rule, NextBefore(rule, next, rows, i), rows[i]) != GivenId(rule, NextBefore(rule, next, rows, j), rows[j])
  {
    hide ExtendAll;
    NextGrows(rule, next, rows, i, i);
    NextGrows(rule, next, rows, i + 1, j);
    PlanStep(rule, next, rows, i);
  }

  /* ---------- creates ---------- */

  /** Each create becomes its image under the one renaming: its own identifier, its parent and its references. */
  lemma CreateIsRenamed(sch: Schema, rule: Rule, next: nat, creates: seq<Row>, i: nat)
    requires ValidRule(rule) && next >= FIRST_USER_RECORD_ID && DistinctIds(creates) && i < |creates|
    ensures var plan := PlanOf(rule, next, creates);
      && |plan.ids| == |creates|
      && RenamedCreates(sch, plan, creates)[i] == Renamed(sch, plan.newIds, true, creates[i])
      && RenamedCreates(sch, plan, creates)[i].id == plan.ids[i]
  {
    hide ExtendAll, GivenId, IsRef;
    PlanGives(rule, next, creates, i);
    GivenIdIsNotRaw(rule, NextBefore(rule, next, creates, i), creates[i]);
  }

  /* ---------- updates ---------- */

  /** An update that was built, of a record that has storage identifiers only. */
  predicate BuiltUpdate(u: Update) {
    BuildRefusal(u) == None && u.result == Built(u) && !IsRaw(u.origin.id) && !IsRaw(u.origin.parent)
  }

  function ImageOfUpdate(sch: Schema, newIds: map<RecordId, RecordId>, u: Update): Update {
    var v := u.(changes := Renamed(sch, newIds, true, u.changes));
    v.(result := Built(v))
  }

  /** Renaming never refuses such an update, and builds it from its renamed changes. */
  lemma UpdateIsRenamed(sch: Schema, newIds: map<RecordId, RecordId>, u: Update)
    requires BuiltUpdate(u)
    ensures RenamedUpdate(sch, newIds, u) == Done(ImageOfUpdate(sch, newIds, u))
  {
    hide Touched, IsRef;
    if !Touched(sch, newIds, u.changes) {
      UntouchedStays(sch, newIds, u.changes);
      assert u.(changes := u.changes) == u;
    }
  }

  lemma {:induction false} UpdatesAreRenamed(sch: Schema, newIds: map<RecordId, RecordId>, updates: map<RecordId, Update>, order: seq<RecordId>)
    requires forall id | id in order :: id in updates && BuiltUpdate(updates[id])
    requires forall i, j | 0 <= i < j < |order| :: order[i] != order[j]
    ensures RenamedUpdates(sch, newIds, updates, order).Done?
    ensures var r := RenamedUpdates(sch, newIds, updates, order).value;
      r.Keys == updates.Keys
      && forall id | id in updates :: r[id] == if id in order then ImageOfUpdate(sch, newIds, updates[id]) else updates[id]
    decreases |order|
  {
    hide RenamedUpdate, ImageOfUpdate, BuiltUpdate;
    if order != [] {
      UpdateIsRenamed(sch, newIds, updates[order[0]]);
      assert order == [order[0]] + order[1..];
      UpdatesAreRenamed(sch, newIds, updates[order[0] := ImageOfUpdate(sch, newIds, updates[order[0]])], order[1..]);
    }
  }

  /* ---------- CUDs ---------- */

  ghost predicate ValidCuds(rule: Rule, cud: Cud) {
    && DistinctIds(cud.creates) && OneOfEachSingleton(rule, cud.creates)
    && forall id | id in cud.updates :: BuiltUpdate(cud.updates[id])
  }

  /** In any order of the updates, regeneration fails only for an unknown singleton; otherwise all creates and
      all changes go through the one renaming of the plan, and updates are built from their new changes. */
  lemma CudIsRenamed(sch: Schema, rule: Rule, next: nat, cud: Cud, order: seq<RecordId>)
    requires ValidRule(rule) && next >= FIRST_USER_RECORD_ID && ValidCuds(rule, cud) && Enumerates(order, cud.updates.Keys)
    ensures RegenerateCud(sch, rule, next, cud, order).Done? <==> SingletonsKnown(rule, cud.creates)
    ensures SingletonsKnown(rule, cud.creates) ==>
      var newIds := PlanOf(rule, next, cud.creates).newIds;
      var r := RegenerateCud(sch, rule, next, cud, order).value;
      && r.next == PlanOf(rule, next, cud.creates).next
      && |r.cud.creates| == |cud.creates|
      && (forall i | 0 <= i < |cud.creates| :: r.cud.creates[i] == Renamed(sch, newIds, true, cud.creates[i]))
      && r.cud.updates.Keys == cud.updates.Keys
      && (forall id | id in cud.updates :: r.cud.updates[id] == ImageOfUpdate(sch, newIds, cud.updates[id]))
  {
    var plan := PlanOf(rule, next, cud.creates);
    PlanLength(rule, Plan(next, [], map[]), cud.creates);
    UpdatesAreRenamed(sch, plan.newIds, cud.updates, order);
    var creates := RenamedCreates(sch, plan, cud.creates);
    hide Renamed, ImageOfUpdate, PlanOf, BuiltUpdate, DistinctIds, OneOfEachSingleton, ValidRule, SingletonsKnown, RenamedUpdates;
    forall i | 0 <= i < |cud.creates| ensures creates[i] == Renamed(sch, plan.newIds, true, cud.creates[i]) {
      CreateIsRenamed(sch, rule, next, cud.creates, i);
    }
  }

  /** A create or an update of the event mentions the identifier. */
  ghost predicate CudMentions(sch: Schema, cud: Cud, id: RecordId) {
    || (exists i | 0 <= i < |cud.creates| :: Mentions(sch, cud.creates[i], id))
    || (exists x | x in cud.updates :: Mentions(sch, cud.updates[x].changes, id))
  }

  /** No raw identifier remains exactly if each one that is mentioned is that of a create of the same event. */
  lemma NoRawRemainsExactlyIf(sch: Schema, rule: Rule, next: nat, cud: Cud, order: seq<RecordId>)
    requires ValidRule(rule) && next >= FIRST_USER_RECORD_ID && ValidCuds(rule, cud) && Enumerates(order, cud.updates.Keys)
    requires SingletonsKnown(rule, cud.creates)
    ensures RegenerateCud(sch, rule, next, cud, order).Done?
    ensures (forall id | IsRaw(id) :: !CudMentions(sch, RegenerateCud(sch, rule, next, cud, order).value.cud, id))
      <==> (forall id | IsRaw(id) :: CudMentions(sch, cud, id) ==> exists i | 0 <= i < |cud.creates| :: cud.creates[i].id == id)
  {
    CudIsRenamed(sch, rule, next, cud, order);
    RenamingIsInjective(rule, next, cud.creates);
    var newIds := PlanOf(rule, next, cud.creates).newIds;
    var r := RegenerateCud(sch, rule, next, cud, order).value.cud;
    hide PlanOf, RegenerateCud, Mentions, Renamed, BuildRefusal, Built, ValidRule, ValidCuds, SingletonsKnown;
    forall i | 0 <= i < |cud.creates|
      ensures HasRaw(sch, r.creates[i]) <==> !Resolves(sch, newIds, cud.creates[i])
    {
      RawRemainsExactlyIf(sch, newIds, cud.creates[i]);
    }
    forall x | x in cud.updates
      ensures HasRaw(sch, r.updates[x].changes) <==> !Resolves(sch, newIds, cud.updates[x].changes)
    {
      RawRemainsExactlyIf(sch, newIds, cud.updates[x].changes);
    }
    RawExactlyIfSomeRow(sch, r);
    RawResolvesExactlyIfAll(sch, newIds, cud);
  }

  lemma RawExactlyIfSomeRow(sch: Schema, cud: Cud)
    ensures (forall id | IsRaw(id) :: !CudMentions(sch, cud, id))
      <==> (forall i | 0 <= i < |cud.creates| :: !HasRaw(sch, cud.creates[i]))
           && (forall x | x in cud.updates :: !HasRaw(sch, cud.updates[x].changes))
  {
    hide Mentions;
    if forall id | IsRaw(id) :: !CudMentions(sch, cud, id) {
      forall i | 0 <= i < |cud.creates| ensures !HasRaw(sch, cud.creates[i]) {
        forall id | 1 <= id <= MAX_RAW_ID ensures !Mentions(sch, cud.creates[i], id) {
          assert !CudMentions(sch, cud, id);
        }
      }
      forall x | x in cud.updates ensures !HasRaw(sch, cud.updates[x].changes) {
        forall id | 1 <= id <= MAX_RAW_ID ensures !Mentions(sch, cud.updates[x].changes, id) {
          assert !CudMentions(sch, cud, id);
        }
      }
    }
  }

  lemma RawResolvesExactlyIfAll(sch: Schema, newIds: map<RecordId, RecordId>, cud: Cud)
    ensures (forall id | IsRaw(id) :: CudMentions(sch, cud, id) ==> id in newIds)
      <==> (forall i | 0 <= i < |cud.creates| :: Resolves(sch, newIds, cud.creates[i]))
           && (forall x | x in cud.updates :: Resolves(sch, newIds, cud.updates[x].changes))
  {
    hide Mentions;
    if forall id | IsRaw(id) :: CudMentions(sch, cud, id) ==> id in newIds {
      forall i | 0 <= i < |cud.creates| ensures Resolves(sch, newIds, cud.creates[i]) {
        forall id | 1 <= id <= MAX_RAW_ID && Mentions(sch, cud.creates[i], id) ensures id in newIds {
          assert CudMentions(sch, cud, id);
        }
      }
      forall x | x in cud.updates ensures Resolves(sch, newIds, cud.updates[x].changes) {
        forall id | 1 <= id <= MAX_RAW_ID && Mentions(sch, cud.updates[x].changes, id) ensures id in newIds {
          assert CudMentions(sch, cud, id);
        }
      }
    }
  }

  /* ---------- distinct identifiers ---------- */

  /** The new identifiers of the creates are distinct exactly if no two creates clash. */
  lemma IdsAreDistinctExactlyIf(sch: Schema, rule: Rule, next: nat, creates: seq<Row>)
    requires rule.ForCuds? && ValidRule(rule) && next >= FIRST_USER_RECORD_ID && SingletonsKnown(rule, creates)
    requires DistinctIds(creates)
    ensures var plan := PlanOf(rule, next, creates);
      && |plan.ids| == |creates|
      && ((forall i, j | 0 <= i < j < |creates| :: RenamedCreates(sch, plan, creates)[i].id != RenamedCreates(sch, plan, creates)[j].id)
          <==> (forall i, j | 0 <= i < j < |creates| :: !Clash(rule, next, creates, i, j)))
  {
    var plan := PlanOf(rule, next, creates);
    PlanLength(rule, Plan(next, [], map[]), creates);
    var renamed := RenamedCreates(sch, plan, creates);
    hide PlanOf, RenamedCreates, GivenId, Clash, Renamed, ValidRule, SingletonsKnown, DistinctIds;
    forall i, j | 0 <= i < j < |creates| ensures renamed[i].id != renamed[j].id <==> !Clash(rule, next, creates, i, j) {
      CreateIsRenamed(sch, rule, next, creates, i);
      CreateIsRenamed(sch, rule, next, creates, j);
      PlanGives(rule, next, creates, i);
      PlanGives(rule, next, creates, j);
      SameIdExactlyIf(rule, next, creates, i, j);
    }
  }

  /** A create with storage identifiers below the generator never clashes with a generated one. */
  lemma SyncIdsBelowAreSafe(rule: Rule, next: nat, rows: seq<Row>, i: nat, j: nat)
    requires i < j < |rows| && Generated(rule, rows[i]) && (IsRaw(rows[j].id) || rows[j].id < next)
    ensures !Clash(rule, next, rows, i, j)
  {
    NextGrows(rule, next, rows, i, i);
    hide ExtendAll;
  }

  /** An event that creates a record under a raw identifier and then one under the storage identifier that
      the generator gives next: both get the same identifier. */
  lemma NextIdMayRepeatSyncId(sch: Schema)
    ensures
      var rule := ForCuds({}, map[]);
      var creates := [NULL_ROW.(qname := 5, id := 1), NULL_ROW.(qname := 5, id := FIRST_USER_RECORD_ID)];
      var plan := PlanOf(rule, FIRST_USER_RECORD_ID, creates);
      && DistinctIds(creates) && |plan.ids| == 2
      && RenamedCreates(sch, plan, creates)[0].id == RenamedCreates(sch, plan, creates)[1].id
  {
    var rule := ForCuds({}, map[]);
    var creates := [NULL_ROW.(qname := 5, id := 1), NULL_ROW.(qname := 5, id := FIRST_USER_RECORD_ID)];
    PlanGives(rule, FIRST_USER_RECORD_ID, creates, 0);
    PlanGives(rule, FIRST_USER_RECORD_ID, creates, 1);
    hide IsRef;
  }

  /** After an event the generator is beyond all identifiers of its creates. */
  lemma GeneratorIsAhead(rule: Rule, next: nat, rows: seq<Row>, i: nat)
    requires rule.ForCuds? && ValidRule(rule) && next >= FIRST_USER_RECORD_ID && i < |rows|
    ensures |PlanOf(rule, next, rows).ids| == |rows| && PlanOf(rule, next, rows).ids[i] < PlanOf(rule, next, rows).next
  {
    PrefixOfAll(rows);
    PlanIds(rule, next, rows, |rows|, i);
    PlanStep(rule, next, rows, i);
    NextGrows(rule, next, rows, i + 1, |rows|);
    NextGrows(rule, next, rows, i, i + 1);
    hide ExtendAll;
  }
}
