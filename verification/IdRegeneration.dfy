/** Replacing the raw identifiers of an event by storage identifiers (pkg/istructsmem: the generator, the
    plan over creates, the references of creates and updates, and the walk over the argument object). */
module IdRegeneration {
  import opened Options
  import opened Bytes
  import opened EventCodec
  import opened CudApply

  const MAX_RAW_ID: RecordId := 0xFFFF
  const FIRST_SINGLETON_ID: RecordId := 0x1_0000
  const MAX_SINGLETON_ID: RecordId := 0x1_01FF
  const FIRST_USER_RECORD_ID: RecordId := 200001

  predicate IsRaw(id: RecordId) {
    1 <= id <= MAX_RAW_ID
  }

  /** How a row gets its identifier: in CUDs singletons have fixed ones and storage identifiers are told to
      the generator; in an argument object neither. */
  datatype Rule = ForCuds(singletons: set<QNameId>, registered: map<QNameId, RecordId>) | ForObject

  /** Each singleton has an identifier of its own. */
  predicate ValidRule(rule: Rule) {
    rule.ForCuds? ==>
      && (forall q | q in rule.registered :: FIRST_SINGLETON_ID <= rule.registered[q] <= MAX_SINGLETON_ID)
      && (forall p, q | p in rule.registered && q in rule.registered && p != q :: rule.registered[p] != rule.registered[q])
  }

  predicate IsSingleton(rule: Rule, row: Row) {
    rule.ForCuds? && row.qname in rule.singletons
  }

  /** The singleton registry knows the types of these creates. */
  predicate SingletonsKnown(rule: Rule, rows: seq<Row>) {
    forall i | 0 <= i < |rows| :: IsRaw(rows[i].id) && IsSingleton(rule, rows[i]) ==> rows[i].qname in rule.registered
  }

  /** The identifier comes from NextID. */
  predicate Generated(rule: Rule, row: Row) {
    IsRaw(row.id) && !IsSingleton(rule, row)
  }

  /* ---------- the plan ---------- */

  /** The generator, the identifiers of the rows so far, and the storage identifier of each raw one. */
  datatype Plan = Plan(next: nat, ids: seq<RecordId>, newIds: map<RecordId, RecordId>)

  function GivenId(rule: Rule, next: nat, row: Row): RecordId {
    if !IsRaw(row.id) then row.id
    else if !IsSingleton(rule, row) then next
    else if row.qname in rule.registered then rule.registered[row.qname] else 0
  }

  /** NextID and UpdateOnSync. */
  function NextAfter(rule: Rule, next: nat, row: Row): nat {
    if Generated(rule, row) then next + 1
    else if rule.ForCuds? && !IsRaw(row.id) && row.id >= next then row.id + 1
    else next
  }

  function Extend(rule: Rule, plan: Plan, row: Row): Plan {
    var id := GivenId(rule, plan.next, row);
    Plan(NextAfter(rule, plan.next, row), plan.ids + [id],
         if IsRaw(row.id) then plan.newIds[row.id := id] else plan.newIds)
  }

  function ExtendAll(rule: Rule, plan: Plan, rows: seq<Row>): Plan {
    if rows == [] then plan
    else Extend(rule, ExtendAll(rule, plan, rows[..|rows| - 1]), rows[|rows| - 1])
  }

  function PlanOf(rule: Rule, next: nat, rows: seq<Row>): Plan {
    ExtendAll(rule, Plan(next, [], map[]), rows)
  }

  /* ---------- references ---------- */

  predicate IsRef(sch: Schema, qname: QNameId, f: Field) {
    var fields := UserFields(sch, qname);
    exists i | 0 <= i < |fields| :: fields[i].name == f && fields[i].kind.RecordIdKind?
  }

  /** What a raw identifier becomes; one that nothing has either stays or becomes null. */
  function Target(newIds: map<RecordId, RecordId>, keep: bool, id: RecordId): RecordId {
    if !IsRaw(id) then id
    else if id in newIds then newIds[id]
    else if keep then id else 0
  }

  /** All identifiers of the row replaced: its own, its parent and its references. */
  function Renamed(sch: Schema, newIds: map<RecordId, RecordId>, keep: bool, row: Row): Row {
    row.(id := Target(newIds, keep, row.id), parent := Target(newIds, keep, row.parent),
         fields := map f | f in row.fields ::
           if IsRef(sch, row.qname, f) then Target(newIds, keep, row.fields[f]) else row.fields[f])
  }

  predicate Mentions(sch: Schema, row: Row, id: RecordId) {
    || row.id == id || row.parent == id
    || exists f | f in row.fields :: IsRef(sch, row.qname, f) && row.fields[f] == id
  }

  predicate Touched(sch: Schema, newIds: map<RecordId, RecordId>, row: Row) {
    exists id | id in newIds :: IsRaw(id) && Mentions(sch, row, id)
  }

  /* ---------- CUDs ---------- */

  /** regenerateIDsInUpdateRecord: a changed update is built again. */
  function RenamedUpdate(sch: Schema, newIds: map<RecordId, RecordId>, u: Update): Outcome<Update> {
    var renamed := u.(changes := Renamed(sch, newIds, true, u.changes));
    if !Touched(sch, newIds, u.changes) then Done(u)
    else if BuildRefusal(renamed).Some? then Refused(BuildRefusal(renamed).value)
    else Done(renamed.(result := Built(renamed)))
  }

  function RenamedUpdates(sch: Schema, newIds: map<RecordId, RecordId>, updates: map<RecordId, Update>, order: seq<RecordId>): Outcome<map<RecordId, Update>>
    requires forall id | id in order :: id in updates
    decreases |order|
  {
    if order == [] then Done(updates)
    else
      match RenamedUpdate(sch, newIds, updates[order[0]])
      case Refused(e) => Refused(e)
      case Done(u) => RenamedUpdates(sch, newIds, updates[order[0] := u], order[1..])
  }

  function RenamedCreates(sch: Schema, plan: Plan, creates: seq<Row>): seq<Row>
    requires |plan.ids| == |creates|
  {
    seq(|creates|, i requires 0 <= i < |creates| => Renamed(sch, plan.newIds, true, creates[i].(id := plan.ids[i])))
  }

  lemma {:induction false} PlanLength(rule: Rule, plan: Plan, rows: seq<Row>)
    ensures |ExtendAll(rule, plan, rows).ids| == |plan.ids| + |rows|
  {
    if rows != [] {
      PlanLength(rule, plan, rows[..|rows| - 1]);
    }
  }

  datatype Regenerated = Regenerated(next: nat, cud: Cud)

  /** cudType.regenerateIDs. */
  function RegenerateCud(sch: Schema, rule: Rule, next: nat, cud: Cud, order: seq<RecordId>): Outcome<Regenerated>
    requires forall id | id in order :: id in cud.updates
  {
    if !SingletonsKnown(rule, cud.creates) then Refused(SingletonNotFound)
    else
      var plan := PlanOf(rule, next, cud.creates);
      PlanLength(rule, Plan(next, [], map[]), cud.creates);
      match RenamedUpdates(sch, plan.newIds, cud.updates, order)
      case Refused(e) => Refused(e)
      case Done(updates) => Done(Regenerated(plan.next, Cud(RenamedCreates(sch, plan, cud.creates), updates)))
  }

  /* ---------- the argument object ---------- */

  /** The rows in the order of the walk. */
  function Preorder(o: Obj): seq<Row>
    decreases o, 1
  {
    [o.row] + PreorderAll(o, o.children)
  }

  function PreorderAll(o: Obj, children: seq<Obj>): seq<Row>
    requires forall i | 0 <= i < |children| :: children[i] in o.children
    decreases o, 0, |children|
  {
    if children == [] then []
    else
      assert children[0] in o.children;
      Preorder(children[0]) + PreorderAll(o, children[1..])
  }

  /** The first walk: every raw identifier is replaced. */
  function Identified(plan: Plan, o: Obj): (Plan, Obj)
    decreases o, 1
  {
    var (rest, children) := IdentifiedAll(Extend(ForObject, plan, o.row), o, o.children);
    (rest, Obj(o.row.(id := GivenId(ForObject, plan.next, o.row)), children))
  }

  function IdentifiedAll(plan: Plan, o: Obj, children: seq<Obj>): (Plan, seq<Obj>)
    requires forall i | 0 <= i < |children| :: children[i] in o.children
    decreases o, 0, |children|
  {
    if children == [] then (plan, [])
    else
      assert children[0] in o.children;
      var (mid, first) := Identified(plan, children[0]);
      var (rest, more) := IdentifiedAll(mid, o, children[1..]);
      (rest, [first] + more)
  }

  /** The second walk: parents and references are replaced. */
  function Referred(sch: Schema, newIds: map<RecordId, RecordId>, o: Obj): Obj
    decreases o
  {
    Obj(Renamed(sch, newIds, false, o.row),
        seq(|o.children|, i requires 0 <= i < |o.children| => Referred(sch, newIds, o.children[i])))
  }

  /** objectType.regenerateIDs. */
  function RegenerateObject(sch: Schema, next: nat, o: Obj): (nat, Obj) {
    var (plan, identified) := Identified(Plan(next, [], map[]), o);
    (plan.next, Referred(sch, plan.newIds, identified))
  }

  ghost predicate SameShape(a: Obj, b: Obj)
    decreases a
  {
    |a.children| == |b.children| && forall i | 0 <= i < |a.children| :: SameShape(a.children[i], b.children[i])
  }

  /** eventType.regenerateIDs: the argument first, if it is a document. */
  function RegenerateEvent(sch: Schema, rule: Rule, next: nat, isDocument: bool, arg: Obj, cud: Cud, order: seq<RecordId>): Outcome<(Obj, Regenerated)>
    requires forall id | id in order :: id in cud.updates
  {
    var (next', arg') := if isDocument then RegenerateObject(sch, next, arg) else (next, arg);
    match RegenerateCud(sch, rule, next', cud, order)
    case Refused(e) => Refused(e)
    case Done(r) => Done((arg', r))
  }

  /* ---------- facts about plans ---------- */

  /** Identifiers are distinct, except null ones. */
  predicate DistinctIds(rows: seq<Row>) {
    forall i, j | 0 <= i < j < |rows| :: rows[i].id == rows[j].id ==> rows[i].id == 0
  }

  predicate OneOfEachSingleton(rule: Rule, rows: seq<Row>) {
    forall i, j | 0 <= i < j < |rows| ::
      IsRaw(rows[i].id) && IsRaw(rows[j].id) && IsSingleton(rule, rows[i]) && IsSingleton(rule, rows[j]) ==> rows[i].qname != rows[j].qname
  }

  /** The generator before row `i`. */
  function NextBefore(rule: Rule, next: nat, rows: seq<Row>, i: nat): nat
    requires i <= |rows|
  {
    PlanOf(rule, next, rows[..i]).next
  }

  lemma PlanStep(rule: Rule, next: nat, rows: seq<Row>, k: nat)
    requires k < |rows|
    ensures PlanOf(rule, next, rows[..k + 1]) == Extend(rule, PlanOf(rule, next, rows[..k]), rows[k])
  {
    assert rows[..k + 1][..k] == rows[..k];
  }

  lemma {:induction false} PlanIds(rule: Rule, next: nat, rows: seq<Row>, k: nat, i: nat)
    requires i < k <= |rows|
    ensures |PlanOf(rule, next, rows[..k]).ids| == k
    ensures PlanOf(rule, next, rows[..k]).ids[i] == GivenId(rule, NextBefore(rule, next, rows, i), rows[i])
    decreases k
  {
    hide GivenId, NextAfter;
    PlanStep(rule, next, rows, k - 1);
    PlanLength(rule, Plan(next, [], map[]), rows[..k - 1]);
    if i < k - 1 {
      PlanIds(rule, next, rows, k - 1, i);
    }
  }

  lemma {:induction false} NextGrows(rule: Rule, next: nat, rows: seq<Row>, i: nat, j: nat)
    requires i <= j <= |rows|
    ensures next <= NextBefore(rule, next, rows, i) <= NextBefore(rule, next, rows, j)
    decreases j, i
  {
    if j > 0 {
      PlanStep(rule, next, rows, j - 1);
      if i < j {
        NextGrows(rule, next, rows, i, j - 1);
      } else {
        NextGrows(rule, next, rows, j - 1, j - 1);
      }
    }
  }

  lemma PrefixOfAll<T>(s: seq<T>)
    ensures s[..|s|] == s
  {
  }

  /** Exactly the raw identifiers of the rows have a new one. */
  lemma {:induction false} PlanKeys(rule: Rule, next: nat, rows: seq<Row>, k: nat, id: RecordId)
    requires k <= |rows|
    ensures id in PlanOf(rule, next, rows[..k]).newIds <==> IsRaw(id) && exists i | 0 <= i < k :: rows[i].id == id
    decreases k
  {
    hide GivenId, NextAfter;
    if k > 0 {
      PlanStep(rule, next, rows, k - 1);
      PlanKeys(rule, next, rows, k - 1, id);
    }
  }

  /** With distinct identifiers the new one is that of the row. */
  lemma {:induction false} PlanMaps(rule: Rule, next: nat, rows: seq<Row>, k: nat, i: nat)
    requires i < k <= |rows| && DistinctIds(rows) && IsRaw(rows[i].id)
    ensures rows[i].id in PlanOf(rule, next, rows[..k]).newIds
    ensures PlanOf(rule, next, rows[..k]).newIds[rows[i].id] == GivenId(rule, NextBefore(rule, next, rows, i), rows[i])
    decreases k
  {
    hide GivenId, NextAfter;
    PlanStep(rule, next, rows, k - 1);
    if i < k - 1 {
      PlanMaps(rule, next, rows, k - 1, i);
    }
  }

  /** What a plan gives to row `i`, as one fact. */
  lemma PlanGives(rule: Rule, next: nat, rows: seq<Row>, i: nat)
    requires i < |rows| && DistinctIds(rows)
    ensures var plan := PlanOf(rule, next, rows);
      && |plan.ids| == |rows| && plan.ids[i] == GivenId(rule, NextBefore(rule, next, rows, i), rows[i])
      && (IsRaw(rows[i].id) ==> rows[i].id in plan.newIds && plan.newIds[rows[i].id] == plan.ids[i])
      && (!IsRaw(rows[i].id) ==> plan.ids[i] == rows[i].id)
      && next <= NextBefore(rule, next, rows, i) <= plan.next
  {
    hide ExtendAll, DistinctIds;
    PrefixOfAll(rows);
    PlanIds(rule, next, rows, |rows|, i);
    NextGrows(rule, next, rows, i, |rows|);
    if IsRaw(rows[i].id) {
      PlanMaps(rule, next, rows, |rows|, i);
    }
  }

  /** Two rows never get the same identifier, unless both have fixed ones, or a storage identifier comes
      after a raw one that was already given the same. */
  predicate Clash(rule: Rule, next: nat, rows: seq<Row>, i: nat, j: nat)
    requires i < j < |rows|
  {
    if Generated(rule, rows[i]) then !IsRaw(rows[j].id) && rows[j].id == NextBefore(rule, next, rows, i)
    else !Generated(rule, rows[j]) && GivenId(rule, 0, rows[i]) == GivenId(rule, 0, rows[j])
  }

  lemma SameIdExactlyIf(rule: Rule, next: nat, rows: seq<Row>, i: nat, j: nat)
    requires i < j < |rows| && rule.ForCuds? && ValidRule(rule) && SingletonsKnown(rule, rows)
    requires next >= FIRST_USER_RECORD_ID
    ensures GivenId(rule, NextBefore(rule, next, rows, i), rows[i]) == GivenId(rule, NextBefore(rule, next, rows, j), rows[j])
      <==> Clash(rule, next, rows, i, j)
  {
    hide ExtendAll;
    NextGrows(rule, next, rows, i, i);
    NextGrows(rule, next, rows, i + 1, j);
    PlanStep(rule, next, rows, i);
  }
}
