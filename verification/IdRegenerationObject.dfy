/** Identifier regeneration as the program does it: the generator and the records are changed in place, by
    loops over the creates, over the fields of a record, and by walks over the argument object. */
module IdRegenerationObject {
  import opened Options
  import opened Bytes
  import opened EventCodec
  import EventCodecObject
  import opened CudApply
  import opened CudApplyObject
  import opened IdRegeneration
  import opened IdRegenerationTheorems
  import opened IdRegenerationTree

  /** implIIDGenerator. */
  class IdGenerator {
    var next: nat

    constructor ()
      ensures next == FIRST_USER_RECORD_ID
    {
      next := FIRST_USER_RECORD_ID;
    }

    method NextId() returns (id: RecordId)
      modifies this
      ensures id == old(next) && next == old(next) + 1
    {
      id := next;
      next := next + 1;
    }

    method UpdateOnSync(id: RecordId)
      modifies this
      ensures next == if id >= old(next) then id + 1 else old(next)
    {
      if id >= next {
        next := id + 1;
      }
    }
  }

  /** A record of the event. */
  class RecordObject {
    var row: Row

    constructor (row: Row)
      ensures this.row == row
    {
      this.row := row;
    }
  }

  ghost predicate Distinct(records: seq<RecordObject>) {
    forall i, j | 0 <= i < j < |records| :: records[i] != records[j]
  }

  ghost function Rows(records: seq<RecordObject>): (rows: seq<Row>)
    reads records
    ensures |rows| == |records| && forall i | 0 <= i < |records| :: rows[i] == records[i].row
  {
    if records == [] then [] else Rows(records[..|records| - 1]) + [records[|records| - 1].row]
  }

  /** regenerateIDsPlan: the identifiers of the creates are replaced one after the other. */
  method RegeneratePlan(rule: Rule, gen: IdGenerator, creates: seq<RecordObject>)
    returns (err: Option<ApplyError>, newIds: map<RecordId, RecordId>)
    requires rule.ForCuds? && Distinct(creates)
    modifies gen, creates
    ensures err == if SingletonsKnown(rule, old(Rows(creates))) then None else Some(SingletonNotFound)
    ensures err == None ==>
      var plan := PlanOf(rule, old(gen.next), old(Rows(creates)));
      && newIds == plan.newIds && gen.next == plan.next && |plan.ids| == |creates|
      && forall i | 0 <= i < |creates| :: creates[i].row == old(creates[i].row).(id := plan.ids[i])
  {
    hide ExtendAll;
    ghost var rows := Rows(creates);
    err, newIds := None, map[];
    NoPlan(rule, gen.next, rows);
    for k := 0 to |creates|
      invariant err == None && SingletonsKnown(rule, rows[..k])
      invariant var plan := PlanOf(rule, old(gen.next), rows[..k]);
        && newIds == plan.newIds && gen.next == plan.next && |plan.ids| == k
        && forall i | 0 <= i < k :: creates[i].row == rows[i].(id := plan.ids[i])
      invariant forall i | k <= i < |creates| :: creates[i].row == rows[i]
    {
      PlanStep(rule, old(gen.next), rows, k);
      var rec := creates[k];
      var id := rec.row.id;
      assert rows[..k + 1] == rows[..k] + [rows[k]];
      if !IsRaw(id) {
        gen.UpdateOnSync(id);
        assert rec.row == rec.row.(id := id);
        continue;
      }
      var storeId;
      if rec.row.qname in rule.singletons {
        if rec.row.qname !in rule.registered {
          assert !SingletonsKnown(rule, rows);
          return Some(SingletonNotFound), newIds;
        }
        storeId := rule.registered[rec.row.qname];
      } else {
        storeId := gen.NextId();
      }
      rec.row := rec.row.(id := storeId);
      newIds := newIds[id := storeId];
    }
    assert rows[..|creates|] == rows;
  }

  lemma NoPlan(rule: Rule, next: nat, rows: seq<Row>)
    ensures PlanOf(rule, next, rows[..0]) == Plan(next, [], map[])
    ensures SingletonsKnown(rule, rows[..0])
  {
  }

  /* ---------- the fields of one row ---------- */

  /** The references among the first `k` fields replaced. */
  ghost function RenamedUpTo(fields: seq<FieldDef>, k: nat, newIds: map<RecordId, RecordId>, keep: bool, values: Fields): Fields
    requires k <= |fields|
  {
    map f | f in values ::
      if exists i | 0 <= i < k :: fields[i].name == f && fields[i].kind.RecordIdKind?
      then Target(newIds, keep, values[f]) else values[f]
  }

  lemma RenameOneMore(fields: seq<FieldDef>, k: nat, newIds: map<RecordId, RecordId>, keep: bool, values: Fields)
    requires k < |fields|
    ensures
      var f := fields[k].name;
      var before := RenamedUpTo(fields, k, newIds, keep, values);
      var after := RenamedUpTo(fields, k + 1, newIds, keep, values);
      && before.Keys == values.Keys
      && after == (if fields[k].kind.RecordIdKind? && f in values then before[f := Target(newIds, keep, values[f])] else before)
      && (f in values ==> before[f] == values[f] || before[f] == Target(newIds, keep, values[f]))
  {
    hide Target;
  }

  lemma RenamedNone(fields: seq<FieldDef>, newIds: map<RecordId, RecordId>, keep: bool, values: Fields)
    ensures RenamedUpTo(fields, 0, newIds, keep, values) == values
  {
  }

  /** The loop over the fields of a row that hold identifiers: raw ones are replaced. */
  method RenameFields(fields: seq<FieldDef>, newIds: map<RecordId, RecordId>, keep: bool, values: Fields)
    returns (result: Fields, changed: bool)
    requires NoRawImages(newIds)
    ensures result == RenamedUpTo(fields, |fields|, newIds, keep, values)
    ensures changed <==> exists i | 0 <= i < |fields| ::
      fields[i].kind.RecordIdKind? && fields[i].name in values && IsRaw(values[fields[i].name]) && (!keep || values[fields[i].name] in newIds)
  {
    result, changed := values, false;
    hide RenamedUpTo;
    RenamedNone(fields, newIds, keep, values);
    for k := 0 to |fields|
      invariant result == RenamedUpTo(fields, k, newIds, keep, values)
      invariant !changed ==> result == values
      invariant changed <==> exists i | 0 <= i < k ::
        fields[i].kind.RecordIdKind? && fields[i].name in values && IsRaw(values[fields[i].name]) && (!keep || values[fields[i].name] in newIds)
    {
      RenameOneMore(fields, k, newIds, keep, values);
      var f := fields[k].name;
      if fields[k].kind.RecordIdKind? && f in result && IsRaw(result[f]) {
        if result[f] in newIds {
          result, changed := result[f := newIds[result[f]]], true;
        } else if !keep {
          result, changed := result[f := 0], true;
        }
      }
    }
  }

  /** The result of the loop is the renaming of the row. */
  lemma FieldsAreRenamed(sch: Schema, newIds: map<RecordId, RecordId>, keep: bool, row: Row)
    ensures var fields := UserFields(sch, row.qname);
      Renamed(sch, newIds, keep, row) == row.(id := Target(newIds, keep, row.id), parent := Target(newIds, keep, row.parent),
                                              fields := RenamedUpTo(fields, |fields|, newIds, keep, row.fields))
  {
    hide Target;
    var fields := UserFields(sch, row.qname);
    assert Renamed(sch, newIds, keep, row).fields == RenamedUpTo(fields, |fields|, newIds, keep, row.fields);
  }

  /** What makes a row touched. */
  lemma TouchedIs(sch: Schema, newIds: map<RecordId, RecordId>, row: Row)
    ensures var fields := UserFields(sch, row.qname);
      Touched(sch, newIds, row) <==>
        || (IsRaw(row.id) && row.id in newIds)
        || (IsRaw(row.parent) && row.parent in newIds)
        || (exists i | 0 <= i < |fields| ::
              fields[i].kind.RecordIdKind? && fields[i].name in row.fields
              && IsRaw(row.fields[fields[i].name]) && row.fields[fields[i].name] in newIds)
  {
    var fields := UserFields(sch, row.qname);
    if i :| 0 <= i < |fields| && fields[i].kind.RecordIdKind? && fields[i].name in row.fields
            && IsRaw(row.fields[fields[i].name]) && row.fields[fields[i].name] in newIds {
      assert IsRef(sch, row.qname, fields[i].name);
      assert Mentions(sch, row, row.fields[fields[i].name]);
    }
    assert Mentions(sch, row, row.id) && Mentions(sch, row, row.parent);
    hide UserFields;
  }

  /** RecordIDs with the replacement of one row: its own identifier, its parent, its references. */
  method RenameRow(sch: Schema, newIds: map<RecordId, RecordId>, keep: bool, row: Row) returns (result: Row, changed: bool)
    requires NoRawImages(newIds)
    ensures result == Renamed(sch, newIds, keep, row)
    ensures keep ==> (changed <==> Touched(sch, newIds, row))
  {
    FieldsAreRenamed(sch, newIds, keep, row);
    TouchedIs(sch, newIds, row);
    hide RenamedUpTo, Renamed, Touched, UserFields;
    var fields;
    fields, changed := RenameFields(UserFields(sch, row.qname), newIds, keep, row.fields);
    result := row.(fields := fields);
    if IsRaw(row.id) && (row.id in newIds || !keep) {
      result, changed := result.(id := if row.id in newIds then newIds[row.id] else 0), true;
    }
    if IsRaw(row.parent) && (row.parent in newIds || !keep) {
      result, changed := result.(parent := if row.parent in newIds then newIds[row.parent] else 0), true;
    }
  }

  /* ---------- CUDs ---------- */

  /** regenerateIDsInRecord for each create, and the second walk over an object. */
  method RenameRecords(sch: Schema, newIds: map<RecordId, RecordId>, keep: bool, records: seq<RecordObject>)
    requires Distinct(records) && NoRawImages(newIds)
    modifies records
    ensures forall i | 0 <= i < |records| :: records[i].row == Renamed(sch, newIds, keep, old(records[i].row))
  {
    hide Renamed, Touched, NoRawImages;
    for k := 0 to |records|
      invariant forall i | 0 <= i < k :: records[i].row == Renamed(sch, newIds, keep, old(records[i].row))
      invariant forall i | k <= i < |records| :: records[i].row == old(records[i].row)
    {
      var row, _ := RenameRow(sch, newIds, keep, records[k].row);
      records[k].row := row;
    }
  }

  /** The creates: the plan, then their references. */
  method RegenerateCreates(sch: Schema, rule: Rule, gen: IdGenerator, creates: seq<RecordObject>)
    returns (err: Option<ApplyError>, newIds: map<RecordId, RecordId>)
    requires rule.ForCuds? && Distinct(creates)
    requires NoRawImages(PlanOf(rule, gen.next, Rows(creates)).newIds)
    modifies gen, creates
    ensures err == if SingletonsKnown(rule, old(Rows(creates))) then None else Some(SingletonNotFound)
    ensures err == None ==>
      var plan := PlanOf(rule, old(gen.next), old(Rows(creates)));
      && newIds == plan.newIds && gen.next == plan.next && |plan.ids| == |creates|
      && Rows(creates) == RenamedCreates(sch, plan, old(Rows(creates)))
  {
    hide PlanOf, Renamed, NoRawImages, SingletonsKnown;
    err, newIds := RegeneratePlan(rule, gen, creates);
    if err.Some? { return; }
    RenameRecords(sch, newIds, true, creates);
    assert Rows(creates) == RenamedCreates(sch, PlanOf(rule, old(gen.next), old(Rows(creates))), old(Rows(creates)));
  }

  /** regenerateIDsInUpdateRecord. */
  method RenameUpdate(sch: Schema, newIds: map<RecordId, RecordId>, u: UpdateRec) returns (err: Option<ApplyError>)
    requires NoRawImages(newIds)
    modifies u
    ensures match RenamedUpdate(sch, newIds, old(u.View())) {
      case Refused(e) => err == Some(e)
      case Done(v) => err == None && u.View() == v
    }
  {
    hide Touched, NoRawImages, Built, BuildRefusal;
    var changes, changed := RenameRow(sch, newIds, true, u.changes);
    if !changed {
      UntouchedStays(sch, newIds, u.changes);
      return None;
    }
    u.changes := changes;
    err := u.Build();
  }

  ghost function Objects(updates: map<RecordId, UpdateRec>): set<UpdateRec> {
    set id | id in updates :: updates[id]
  }

  /** Every update is an object of its own. */
  ghost predicate Separate(updates: map<RecordId, UpdateRec>) {
    forall i, j | i in updates && j in updates && i != j :: updates[i] != updates[j]
  }

  ghost function Views(updates: map<RecordId, UpdateRec>): (m: map<RecordId, Update>)
    reads Objects(updates)
    ensures m.Keys == updates.Keys && forall id | id in updates :: m[id] == updates[id].View()
  {
    map id | id in updates :: updates[id].View()
  }

  method RenameOne(sch: Schema, newIds: map<RecordId, RecordId>, updates: map<RecordId, UpdateRec>, id: RecordId)
    returns (err: Option<ApplyError>)
    requires Separate(updates) && NoRawImages(newIds) && id in updates
    modifies Objects(updates)
    ensures match RenamedUpdate(sch, newIds, old(Views(updates))[id]) {
      case Refused(e) => err == Some(e)
      case Done(u) => err == None && Views(updates) == old(Views(updates))[id := u]
    }
    ensures forall x | x in updates && x != id :: Views(updates)[x] == old(Views(updates))[x]
  {
    hide RenamedUpdate, NoRawImages;
    err := RenameUpdate(sch, newIds, updates[id]);
  }

  /** The updates of the CUDs, in any order. */
  method RenameUpdates(sch: Schema, newIds: map<RecordId, RecordId>, updates: map<RecordId, UpdateRec>)
    returns (err: Option<ApplyError>, ghost order: seq<RecordId>)
    requires Separate(updates) && NoRawImages(newIds)
    modifies Objects(updates)
    ensures Enumerates(order, updates.Keys)
    ensures match RenamedUpdates(sch, newIds, old(Views(updates)), order) {
      case Refused(e) => err == Some(e)
      case Done(m) => err == None && Views(updates) == m
    }
  {
    ghost var before := Views(updates);
    hide *;
    err, order := None, [];
    NoneRenamed(sch, newIds, before);
    NoneVisited(updates.Keys);
    var todo := updates.Keys;
    while todo != {}
      invariant err == None && todo <= updates.Keys && Enumerates(order, updates.Keys - todo)
      invariant forall x | x in order :: x in updates
      invariant forall id | id in todo :: Views(updates)[id] == before[id]
      invariant RenamedUpdates(sch, newIds, before, order) == Done(Views(updates))
      decreases todo
    {
      var id :| id in todo;
      VisitOne(order, updates.Keys, todo, id);
      RenamedSnoc(sch, newIds, before, order, id);
      err := RenameOne(sch, newIds, updates, id);
      todo := todo - {id};
      order := order + [id];
      if err.Some? {
        order := RefusedRenamingStays(sch, newIds, before, order, todo);
        return;
      }
    }
    NoneLeft(updates.Keys);
  }

  /** cudType. */
  class CudRecords {
    var creates: seq<RecordObject>
    var updates: map<RecordId, UpdateRec>

    constructor (creates: seq<RecordObject>, updates: map<RecordId, UpdateRec>)
      ensures this.creates == creates && this.updates == updates
    {
      this.creates, this.updates := creates, updates;
    }

    /** Every record is an object of its own. */
    ghost predicate Valid()
      reads this
    {
      Distinct(creates) && Separate(updates)
    }

    ghost function View(): Cud
      reads this, creates, Objects(updates)
    {
      Cud(Rows(creates), Views(updates))
    }

    /** regenerateIDs. */
    method RegenerateIds(sch: Schema, rule: Rule, gen: IdGenerator) returns (err: Option<ApplyError>, ghost order: seq<RecordId>)
      requires Valid() && rule.ForCuds? && ValidRule(rule) && gen.next >= FIRST_USER_RECORD_ID && DistinctIds(Rows(creates))
      modifies gen, creates, Objects(updates)
      ensures Enumerates(order, updates.Keys)
      ensures match RegenerateCud(sch, rule, old(gen.next), old(View()), order) {
        case Refused(e) => err == Some(e)
        case Done(r) => err == None && gen.next == r.next && View() == r.cud
      }
    {
      err, order := RegenerateBoth(sch, rule, gen, creates, updates);
    }
  }

  method RegenerateBoth(sch: Schema, rule: Rule, gen: IdGenerator, creates: seq<RecordObject>, updates: map<RecordId, UpdateRec>)
    returns (err: Option<ApplyError>, ghost order: seq<RecordId>)
    requires Distinct(creates) && Separate(updates)
    requires rule.ForCuds? && ValidRule(rule) && gen.next >= FIRST_USER_RECORD_ID && DistinctIds(Rows(creates))
    modifies gen, creates, Objects(updates)
    ensures Enumerates(order, updates.Keys)
    ensures match RegenerateCud(sch, rule, old(gen.next), Cud(old(Rows(creates)), old(Views(updates))), order) {
      case Refused(e) => err == Some(e)
      case Done(r) => err == None && gen.next == r.next && Cud(Rows(creates), Views(updates)) == r.cud
    }
  {
    hide PlanOf, ExtendAll, Rows, RegenerateCud, RenamedCreates, RenamedUpdates, SingletonsKnown, NoRawImages, DistinctIds, ValidRule, Enumerates, Distinct, Separate, Views;
    ghost var cud := Cud(Rows(creates), Views(updates));
    ImagesAreNotRaw(rule, gen.next, Rows(creates));
    var newIds;
    err, newIds := RegenerateCreates(sch, rule, gen, creates);
    if err.Some? {
      order := EventCodecObject.SomeOrder(updates.Keys);
    } else {
      err, order := RenameUpdates(sch, newIds, updates);
    }
    OrderIsKnown(order, updates.Keys);
    RegeneratedCudIs(sch, rule, old(gen.next), cud, order);
  }

  lemma NoneLeft(ids: set<RecordId>)
    ensures ids - {} == ids
  {
  }

  lemma NoneVisited(ids: set<RecordId>)
    ensures Enumerates([], ids - ids)
  {
  }

  lemma VisitOne(order: seq<RecordId>, ids: set<RecordId>, todo: set<RecordId>, id: RecordId)
    requires todo <= ids && id in todo && Enumerates(order, ids - todo)
    ensures Enumerates(order + [id], ids - (todo - {id}))
    ensures id !in order && forall x | x in order :: x in ids
  {
  }

  lemma OrderIsKnown(order: seq<RecordId>, ids: set<RecordId>)
    ensures Enumerates(order, ids) ==> forall x | x in order :: x in ids
  {
  }

  lemma RegeneratedCudIs(sch: Schema, rule: Rule, next: nat, cud: Cud, order: seq<RecordId>)
    requires forall id | id in order :: id in cud.updates
    ensures var plan := PlanOf(rule, next, cud.creates);
      var r := RegenerateCud(sch, rule, next, cud, order);
      && |plan.ids| == |cud.creates|
      && if !SingletonsKnown(rule, cud.creates) then r == Refused(SingletonNotFound)
         else
           match RenamedUpdates(sch, plan.newIds, cud.updates, order) {
             case Refused(e) => r == Refused(e)
             case Done(updates) => r == Done(Regenerated(plan.next, Cud(RenamedCreates(sch, plan, cud.creates), updates)))
           }
  {
    PlanLength(rule, Plan(next, [], map[]), cud.creates);
  }

  lemma ImagesAreNotRaw(rule: Rule, next: nat, rows: seq<Row>)
    requires ValidRule(rule) && next >= FIRST_USER_RECORD_ID && DistinctIds(rows)
    ensures NoRawImages(PlanOf(rule, next, rows).newIds)
  {
    hide ExtendAll, GivenId, NextAfter;
    var newIds := PlanOf(rule, next, rows).newIds;
    PrefixOfAll(rows);
    forall id | id in newIds ensures !IsRaw(newIds[id]) {
      PlanKeys(rule, next, rows, |rows|, id);
      var i :| 0 <= i < |rows| && rows[i].id == id;
      PlanGives(rule, next, rows, i);
      GivenIdIsNotRaw(rule, NextBefore(rule, next, rows, i), rows[i]);
    }
  }

  lemma NoneRenamed(sch: Schema, newIds: map<RecordId, RecordId>, updates: map<RecordId, Update>)
    ensures RenamedUpdates(sch, newIds, updates, []) == Done(updates)
  {
  }

  lemma {:induction false} RenamedSnoc(sch: Schema, newIds: map<RecordId, RecordId>, updates: map<RecordId, Update>,
                                       order: seq<RecordId>, id: RecordId)
    requires (forall x | x in order :: x in updates) && id in updates && id !in order
    ensures forall x | x in order + [id] :: x in updates
    ensures match RenamedUpdates(sch, newIds, updates, order) {
      case Refused(e) => RenamedUpdates(sch, newIds, updates, order + [id]) == Refused(e)
      case Done(m) =>
        match RenamedUpdate(sch, newIds, updates[id]) {
          case Refused(e) => RenamedUpdates(sch, newIds, updates, order + [id]) == Refused(e)
          case Done(u) => RenamedUpdates(sch, newIds, updates, order + [id]) == Done(m[id := u])
        }
    }
    decreases |order|
  {
    hide RenamedUpdate;
    if order == [] {
      assert [] + [id] == [id] && [id][1..] == [];
    } else {
      assert (order + [id])[1..] == order[1..] + [id] && order[0] in order;
      if RenamedUpdate(sch, newIds, updates[order[0]]).Done? {
        RenamedSnoc(sch, newIds, updates[order[0] := RenamedUpdate(sch, newIds, updates[order[0]]).value], order[1..], id);
      }
    }
  }

  /** However the updates that were not visited are ordered, the refusal stands. */
  lemma {:induction false} RefusedRenamingStays(sch: Schema, newIds: map<RecordId, RecordId>, updates: map<RecordId, Update>,
                                                order: seq<RecordId>, todo: set<RecordId>) returns (all: seq<RecordId>)
    requires (forall x | x in order :: x in updates) && todo <= updates.Keys
    requires Enumerates(order, updates.Keys - todo)
    requires RenamedUpdates(sch, newIds, updates, order).Refused?
    ensures Enumerates(all, updates.Keys)
    ensures RenamedUpdates(sch, newIds, updates, all) == RenamedUpdates(sch, newIds, updates, order)
    decreases todo
  {
    hide RenamedUpdates;
    if todo == {} {
      all := order;
    } else {
      var id :| id in todo;
      RenamedSnoc(sch, newIds, updates, order, id);
      all := RefusedRenamingStays(sch, newIds, updates, order + [id], todo - {id});
    }
  }

  /* ---------- the argument object ---------- */

  /** An object: its record changes, its children stay the same objects. */
  datatype Tree = Tree(rec: RecordObject, children: seq<Tree>)

  /** forEach: the records in the order in which they are visited. */
  function Visited(t: Tree): seq<RecordObject>
    decreases t, 1
  {
    [t.rec] + VisitedAll(t, t.children)
  }

  function VisitedAll(t: Tree, children: seq<Tree>): seq<RecordObject>
    requires forall i | 0 <= i < |children| :: children[i] in t.children
    decreases t, 0, |children|
  {
    if children == [] then []
    else
      assert children[0] in t.children;
      Visited(children[0]) + VisitedAll(t, children[1..])
  }

  /** The object with these rows in preorder. */
  function Fill(t: Tree, rows: seq<Row>): Obj
    requires |rows| == |Visited(t)|
    decreases t, 1
  {
    Obj(rows[0], FillAll(t, t.children, rows[1..]))
  }

  function FillAll(t: Tree, children: seq<Tree>, rows: seq<Row>): (objects: seq<Obj>)
    requires forall i | 0 <= i < |children| :: children[i] in t.children
    requires |rows| == |VisitedAll(t, children)|
    ensures |objects| == |children|
    decreases t, 0, |children|
  {
    if children == [] then []
    else
      var n := |Visited(children[0])|;
      [Fill(children[0], rows[..n])] + FillAll(t, children[1..], rows[n..])
  }

  ghost function View(t: Tree): Obj
    reads Visited(t)
  {
    Fill(t, Rows(Visited(t)))
  }

  lemma {:induction false} FilledRows(t: Tree, rows: seq<Row>)
    requires |rows| == |Visited(t)|
    ensures Preorder(Fill(t, rows)) == rows
    decreases t, 1
  {
    FilledAllRows(t, t.children, rows[1..], Fill(t, rows));
  }

  lemma {:induction false} FilledAllRows(t: Tree, children: seq<Tree>, rows: seq<Row>, o: Obj)
    requires forall i | 0 <= i < |children| :: children[i] in t.children
    requires |rows| == |VisitedAll(t, children)|
    requires forall v | v in FillAll(t, children, rows) :: v in o.children
    ensures PreorderAll(o, FillAll(t, children, rows)) == rows
    decreases t, 0, |children|
  {
    if children != [] {
      var n := |Visited(children[0])|;
      var first, more := Fill(children[0], rows[..n]), FillAll(t, children[1..], rows[n..]);
      assert FillAll(t, children, rows) == [first] + more;
      assert forall v | v in more :: v in [first] + more;
      FilledRows(children[0], rows[..n]);
      FilledAllRows(t, children[1..], rows[n..], o);
      PreorderOfMore(o, first, more);
    }
  }

  lemma {:induction false} FilledShape(t: Tree, a: seq<Row>, b: seq<Row>)
    requires |a| == |b| == |Visited(t)|
    ensures SameShape(Fill(t, a), Fill(t, b))
    decreases t, 1
  {
    FilledAllShape(t, t.children, a[1..], b[1..]);
  }

  lemma {:induction false} FilledAllShape(t: Tree, children: seq<Tree>, a: seq<Row>, b: seq<Row>)
    requires forall i | 0 <= i < |children| :: children[i] in t.children
    requires |a| == |b| == |VisitedAll(t, children)|
    ensures forall i | 0 <= i < |children| :: SameShape(FillAll(t, children, a)[i], FillAll(t, children, b)[i])
    decreases t, 0, |children|
  {
    if children != [] {
      var n := |Visited(children[0])|;
      FilledShape(children[0], a[..n], b[..n]);
      FilledAllShape(t, children[1..], a[n..], b[n..]);
      hide Fill, Visited, SameShape;
    }
  }

  /** Objects of one shape with the same rows are the same. */
  lemma {:induction false} ShapeAndRows(a: Obj, b: Obj, more: seq<Row>, more': seq<Row>)
    requires SameShape(a, b) && Preorder(a) + more == Preorder(b) + more'
    ensures a == b && more == more'
    decreases a, 1
  {
    assert (Preorder(a) + more)[0] == a.row && (Preorder(b) + more')[0] == b.row;
    assert (Preorder(a) + more)[1..] == PreorderAll(a, a.children) + more;
    assert (Preorder(b) + more')[1..] == PreorderAll(b, b.children) + more';
    ShapeAndAllRows(a, a.children, b, b.children, more, more');
  }

  lemma {:induction false} ShapeAndAllRows(a: Obj, xs: seq<Obj>, b: Obj, ys: seq<Obj>, more: seq<Row>, more': seq<Row>)
    requires (forall i | 0 <= i < |xs| :: xs[i] in a.children) && (forall i | 0 <= i < |ys| :: ys[i] in b.children)
    requires |xs| == |ys| && forall i | 0 <= i < |xs| :: SameShape(xs[i], ys[i])
    requires PreorderAll(a, xs) + more == PreorderAll(b, ys) + more'
    ensures xs == ys && more == more'
    decreases a, 0, |xs|
  {
    if xs == [] {
      assert [] + more == more && [] + more' == more';
    } else {
      var restA, restB := PreorderAll(a, xs[1..]) + more, PreorderAll(b, ys[1..]) + more';
      assert PreorderAll(a, xs) + more == Preorder(xs[0]) + restA;
      assert PreorderAll(b, ys) + more' == Preorder(ys[0]) + restB;
      ShapeAndRows(xs[0], ys[0], restA, restB);
      ShapeAndAllRows(a, xs[1..], b, ys[1..], more, more');
    }
  }

  /** The first walk. */
  method IdentifyRecords(gen: IdGenerator, records: seq<RecordObject>) returns (newIds: map<RecordId, RecordId>)
    requires Distinct(records)
    modifies gen, records
    ensures
      var plan := PlanOf(ForObject, old(gen.next), old(Rows(records)));
      && newIds == plan.newIds && gen.next == plan.next && |plan.ids| == |records|
      && forall i | 0 <= i < |records| :: records[i].row == old(records[i].row).(id := plan.ids[i])
  {
    hide ExtendAll;
    ghost var rows := Rows(records);
    newIds := map[];
    NoPlan(ForObject, gen.next, rows);
    for k := 0 to |records|
      invariant var plan := PlanOf(ForObject, old(gen.next), rows[..k]);
        && newIds == plan.newIds && gen.next == plan.next && |plan.ids| == k
        && forall i | 0 <= i < k :: records[i].row == rows[i].(id := plan.ids[i])
      invariant forall i | k <= i < |records| :: records[i].row == rows[i]
    {
      PlanStep(ForObject, old(gen.next), rows, k);
      var rec := records[k];
      var id := rec.row.id;
      if IsRaw(id) {
        var storeId := gen.NextId();
        rec.row := rec.row.(id := storeId);
        newIds := newIds[id := storeId];
      } else {
        assert rec.row == rec.row.(id := id);
      }
    }
    assert rows[..|records|] == rows;
  }

  /** Both walks over the records of an object. */
  method RegenerateRecords(sch: Schema, gen: IdGenerator, records: seq<RecordObject>)
    requires Distinct(records) && NoRawImages(PlanOf(ForObject, gen.next, Rows(records)).newIds)
    modifies gen, records
    ensures
      var plan := PlanOf(ForObject, old(gen.next), old(Rows(records)));
      && gen.next == plan.next && |plan.ids| == |records|
      && forall i | 0 <= i < |records| :: Rows(records)[i] == Renamed(sch, plan.newIds, false, old(Rows(records))[i].(id := plan.ids[i]))
  {
    hide *;
    var newIds := IdentifyRecords(gen, records);
    RenameRecords(sch, newIds, false, records);
  }

  /** objectType.regenerateIDs. */
  method RegenerateTree(sch: Schema, gen: IdGenerator, t: Tree)
    requires Distinct(Visited(t)) && gen.next > MAX_RAW_ID && DistinctIds(Preorder(View(t)))
    modifies gen, Visited(t)
    ensures (gen.next, View(t)) == RegenerateObject(sch, old(gen.next), old(View(t)))
  {
    var records := Visited(t);
    ghost var rows := Rows(records);
    FilledRows(t, rows);
    ObjectImagesAreNotRaw(gen.next, rows);
    hide Visited, Fill, PlanOf, NoRawImages, DistinctIds, Renamed, RegenerateObject, Distinct, Rows;
    RegenerateRecords(sch, gen, records);
    RegeneratedIs(sch, old(gen.next), t, rows, Rows(records));
  }

  lemma RegeneratedIs(sch: Schema, next: nat, t: Tree, rows: seq<Row>, rows': seq<Row>)
    requires |rows| == |rows'| == |Visited(t)|
    requires
      var plan := PlanOf(ForObject, next, rows);
      && |plan.ids| == |rows|
      && forall i | 0 <= i < |rows| :: rows'[i] == Renamed(sch, plan.newIds, false, rows[i].(id := plan.ids[i]))
    ensures (PlanOf(ForObject, next, rows).next, Fill(t, rows')) == RegenerateObject(sch, next, Fill(t, rows))
  {
    var o := Fill(t, rows);
    var plan := PlanOf(ForObject, next, rows);
    FilledRows(t, rows);
    FilledRows(t, rows');
    FilledShape(t, rows, rows');
    ObjectPlan(next, o);
    WalkIs(Plan(next, [], map[]), o);
    var identified := Identified(Plan(next, [], map[]), o).1;
    ReferredIs(sch, plan.newIds, identified);
    var o' := Referred(sch, plan.newIds, identified);
    assert RegenerateObject(sch, next, o) == (plan.next, o');
    SameShapeTrans(o, identified, o');
    hide PlanOf, Fill, Visited, Preorder, Identified, Referred, SameShape, Renamed;
    assert Preorder(o') == rows';
    SameShapeSym(o, o');
    SameShapeTrans(o', o, Fill(t, rows'));
    ShapeAndRows(o', Fill(t, rows'), [], []);
  }

  lemma {:induction false} SameShapeSym(a: Obj, b: Obj)
    requires SameShape(a, b)
    ensures SameShape(b, a)
    decreases a
  {
    forall i | 0 <= i < |a.children| ensures SameShape(b.children[i], a.children[i]) {
      SameShapeSym(a.children[i], b.children[i]);
    }
  }
}
