/** Main results about the identifiers of an argument object, and of the argument and the CUDs together. */
module IdRegenerationTree {
  import opened Bytes
  import opened EventCodec
  import opened CudApply
  import opened IdRegeneration
  import opened IdRegenerationTheorems

  /* ---------- the walk is a pass over the rows in preorder ---------- */

  lemma {:induction false} ExtendBoth(rule: Rule, plan: Plan, a: seq<Row>, b: seq<Row>)
    ensures ExtendAll(rule, plan, a + b) == ExtendAll(rule, ExtendAll(rule, plan, a), b)
    decreases |b|
  {
    hide Extend;
    if b == [] {
      assert a + b == a;
    } else {
      assert (a + b)[..|a + b| - 1] == a + b[..|b| - 1];
      ExtendBoth(rule, plan, a, b[..|b| - 1]);
    }
  }

  lemma {:induction false} IdsStay(rule: Rule, plan: Plan, rows: seq<Row>)
    ensures |ExtendAll(rule, plan, rows).ids| == |plan.ids| + |rows|
    ensures ExtendAll(rule, plan, rows).ids[..|plan.ids|] == plan.ids
  {
    hide GivenId, NextAfter;
    if rows != [] {
      IdsStay(rule, plan, rows[..|rows| - 1]);
    }
  }

  function WithIds(rows: seq<Row>, ids: seq<RecordId>): seq<Row>
    requires |rows| == |ids|
  {
    seq(|rows|, i requires 0 <= i < |rows| => rows[i].(id := ids[i]))
  }

  /** The identifiers given to these rows. */
  function NewOnes(plan: Plan, rows: seq<Row>): (ids: seq<RecordId>)
    ensures |ids| == |rows|
  {
    IdsStay(ForObject, plan, rows);
    ExtendAll(ForObject, plan, rows).ids[|plan.ids|..]
  }

  lemma NewOnesOfBoth(plan: Plan, a: seq<Row>, b: seq<Row>)
    ensures NewOnes(plan, a + b) == NewOnes(plan, a) + NewOnes(ExtendAll(ForObject, plan, a), b)
    ensures WithIds(a + b, NewOnes(plan, a + b)) == WithIds(a, NewOnes(plan, a)) + WithIds(b, NewOnes(ExtendAll(ForObject, plan, a), b))
  {
    ExtendBoth(ForObject, plan, a, b);
    IdsStay(ForObject, plan, a);
    var mid := ExtendAll(ForObject, plan, a);
    IdsStay(ForObject, mid, b);
    var all := ExtendAll(ForObject, mid, b);
    hide ExtendAll;
    assert all.ids[|plan.ids|..] == mid.ids[|plan.ids|..] + all.ids[|mid.ids|..];
  }

  lemma NewOneIs(plan: Plan, row: Row)
    ensures ExtendAll(ForObject, plan, [row]) == Extend(ForObject, plan, row)
    ensures WithIds([row], NewOnes(plan, [row])) == [row.(id := GivenId(ForObject, plan.next, row))]
  {
    assert [row][..0] == [];
    assert ExtendAll(ForObject, plan, [row]) == Extend(ForObject, plan, row);
    hide GivenId, NextAfter;
  }

  /** The first walk gives the rows in preorder their identifiers and keeps the rest of the object. */
  lemma {:induction false} WalkIs(plan: Plan, o: Obj)
    ensures Identified(plan, o).0 == ExtendAll(ForObject, plan, Preorder(o))
    ensures Preorder(Identified(plan, o).1) == WithIds(Preorder(o), NewOnes(plan, Preorder(o)))
    ensures SameShape(o, Identified(plan, o).1)
    decreases o, 1
  {
    var mid := Extend(ForObject, plan, o.row);
    var o' := Identified(plan, o).1;
    WalkAllIs(mid, o, o.children, o');
    var rest := PreorderAll(o, o.children);
    NewOneIs(plan, o.row);
    NewOnesOfBoth(plan, [o.row], rest);
    ExtendBoth(ForObject, plan, [o.row], rest);
    hide ExtendAll, Extend, NewOnes, WithIds, GivenId, PreorderAll, IdentifiedAll;
    assert o'.children == IdentifiedAll(mid, o, o.children).1;
    assert Preorder(o') == [o'.row] + PreorderAll(o', o'.children);
  }

  lemma {:induction false} WalkAllIs(plan: Plan, o: Obj, children: seq<Obj>, p: Obj)
    requires forall i | 0 <= i < |children| :: children[i] in o.children
    requires forall c | c in IdentifiedAll(plan, o, children).1 :: c in p.children
    ensures var (rest, more) := IdentifiedAll(plan, o, children);
      && rest == ExtendAll(ForObject, plan, PreorderAll(o, children))
      && PreorderAll(p, more) == WithIds(PreorderAll(o, children), NewOnes(plan, PreorderAll(o, children)))
      && |more| == |children|
      && forall i | 0 <= i < |children| :: SameShape(children[i], more[i])
    decreases o, 0, |children|
  {
    if children == [] {
    } else {
      var (mid, first) := Identified(plan, children[0]);
      var (rest, more) := IdentifiedAll(mid, o, children[1..]);
      assert IdentifiedAll(plan, o, children) == (rest, [first] + more);
      assert forall c | c in more :: c in [first] + more;
      WalkIs(plan, children[0]);
      WalkAllIs(mid, o, children[1..], p);
      NewOnesOfBoth(plan, Preorder(children[0]), PreorderAll(o, children[1..]));
      ExtendBoth(ForObject, plan, Preorder(children[0]), PreorderAll(o, children[1..]));
      PreorderOfMore(p, first, more);
      hide ExtendAll, NewOnes, WithIds, Preorder, Identified, SameShape;
      assert forall i | 1 <= i < |children| :: children[i] == children[1..][i - 1];
    }
  }

  lemma PreorderOfMore(p: Obj, first: Obj, more: seq<Obj>)
    requires forall c | c in [first] + more :: c in p.children
    ensures (forall c | c in more :: c in p.children) && first in p.children
    ensures PreorderAll(p, [first] + more) == Preorder(first) + PreorderAll(p, more)
  {
    assert forall c | c in more :: c in [first] + more;
    assert first in [first] + more;
    assert ([first] + more)[1..] == more;
  }

  /* ---------- the second walk ---------- */

  function RenamedRows(sch: Schema, newIds: map<RecordId, RecordId>, rows: seq<Row>): seq<Row> {
    seq(|rows|, i requires 0 <= i < |rows| => Renamed(sch, newIds, false, rows[i]))
  }

  function ReferredAll(sch: Schema, newIds: map<RecordId, RecordId>, children: seq<Obj>): seq<Obj> {
    seq(|children|, i requires 0 <= i < |children| => Referred(sch, newIds, children[i]))
  }

  lemma {:induction false} ReferredIs(sch: Schema, newIds: map<RecordId, RecordId>, o: Obj)
    ensures Preorder(Referred(sch, newIds, o)) == RenamedRows(sch, newIds, Preorder(o))
    ensures SameShape(o, Referred(sch, newIds, o))
    decreases o, 1
  {
    hide Renamed;
    var o' := Referred(sch, newIds, o);
    assert o'.children == ReferredAll(sch, newIds, o.children);
    ReferredAllIs(sch, newIds, o, o.children, o');
  }

  lemma ReferredStep(sch: Schema, newIds: map<RecordId, RecordId>, o: Obj, children: seq<Obj>)
    requires children != [] && forall i | 0 <= i < |children| :: children[i] in o.children
    ensures ReferredAll(sch, newIds, children) == [Referred(sch, newIds, children[0])] + ReferredAll(sch, newIds, children[1..])
    ensures children[0] < o
    ensures RenamedRows(sch, newIds, PreorderAll(o, children))
      == RenamedRows(sch, newIds, Preorder(children[0])) + RenamedRows(sch, newIds, PreorderAll(o, children[1..]))
  {
    assert children[0] in o.children;
    hide Renamed, Preorder, Referred;
  }

  lemma {:induction false} ReferredAllIs(sch: Schema, newIds: map<RecordId, RecordId>, o: Obj, children: seq<Obj>, p: Obj)
    requires forall i | 0 <= i < |children| :: children[i] in o.children
    requires forall c | c in ReferredAll(sch, newIds, children) :: c in p.children
    ensures PreorderAll(p, ReferredAll(sch, newIds, children)) == RenamedRows(sch, newIds, PreorderAll(o, children))
    ensures forall i | 0 <= i < |children| :: SameShape(children[i], Referred(sch, newIds, children[i]))
    decreases o, 0, |children|
  {
    if children == [] {
      NoneReferred(sch, newIds, o, p);
    } else {
      hide *;
      ReferredStep(sch, newIds, o, children);
      var first := Referred(sch, newIds, children[0]);
      var more := ReferredAll(sch, newIds, children[1..]);
      PreorderOfMore(p, first, more);
      ReferredIs(sch, newIds, children[0]);
      ReferredAllIs(sch, newIds, o, children[1..], p);
      assert forall i | 1 <= i < |children| :: children[i] == children[1..][i - 1];
    }
  }

  lemma NoneReferred(sch: Schema, newIds: map<RecordId, RecordId>, o: Obj, p: Obj)
    ensures PreorderAll(p, ReferredAll(sch, newIds, [])) == RenamedRows(sch, newIds, PreorderAll(o, []))
  {
    assert ReferredAll(sch, newIds, []) == [];
  }

  lemma {:induction false} SameShapeTrans(a: Obj, b: Obj, c: Obj)
    requires SameShape(a, b) && SameShape(b, c)
    ensures SameShape(a, c)
    decreases a
  {
    forall i | 0 <= i < |a.children| ensures SameShape(a.children[i], c.children[i]) {
      SameShapeTrans(a.children[i], b.children[i], c.children[i]);
    }
  }

  /* ---------- main results ---------- */

  lemma ObjectPlan(next: nat, o: Obj)
    ensures Identified(Plan(next, [], map[]), o).0 == PlanOf(ForObject, next, Preorder(o))
    ensures NewOnes(Plan(next, [], map[]), Preorder(o)) == PlanOf(ForObject, next, Preorder(o)).ids
  {
    WalkIs(Plan(next, [], map[]), o);
    hide ExtendAll, Preorder, Identified;
    var ids := PlanOf(ForObject, next, Preorder(o)).ids;
    assert ids[0..] == ids;
  }

  /** A row with its identifier replaced first is renamed as the row itself. */
  lemma RenamedWithId(sch: Schema, newIds: map<RecordId, RecordId>, keep: bool, row: Row, id: RecordId)
    requires !IsRaw(id) && id == Target(newIds, keep, row.id)
    ensures Renamed(sch, newIds, keep, row.(id := id)) == Renamed(sch, newIds, keep, row)
  {
    hide IsRef;
  }

  /** The object keeps its shape, and each of its rows becomes its image under the one renaming, in which what
      nothing in the object has is null.  No raw identifier remains. */
  lemma ObjectIsRenamed(sch: Schema, next: nat, o: Obj)
    requires next > MAX_RAW_ID && DistinctIds(Preorder(o))
    ensures
      var (next', o') := RegenerateObject(sch, next, o);
      var plan := PlanOf(ForObject, next, Preorder(o));
      && next' == plan.next && SameShape(o, o')
      && |Preorder(o')| == |Preorder(o)|
      && (forall i | 0 <= i < |Preorder(o)| ::
            && Preorder(o')[i] == Renamed(sch, plan.newIds, false, Preorder(o)[i])
            && !HasRaw(sch, Preorder(o')[i]))
  {
    var rows := Preorder(o);
    var plan := PlanOf(ForObject, next, rows);
    ObjectPlan(next, o);
    WalkIs(Plan(next, [], map[]), o);
    var identified := Identified(Plan(next, [], map[]), o).1;
    ReferredIs(sch, plan.newIds, identified);
    var o' := Referred(sch, plan.newIds, identified);
    SameShapeTrans(o, identified, o');
    ObjectImagesAreNotRaw(next, rows);
    hide PlanOf, Preorder, Identified, Referred, Renamed, HasRaw, NoRawImages, DistinctIds, SameShape, Target;
    forall i | 0 <= i < |rows| ensures Preorder(o')[i] == Renamed(sch, plan.newIds, false, rows[i]) && !HasRaw(sch, Preorder(o')[i]) {
      ObjectIdIsTarget(next, rows, i);
      RenamedWithId(sch, plan.newIds, false, rows[i], plan.ids[i]);
      RawRemainsExactlyIf(sch, plan.newIds, rows[i]);
      assert Preorder(identified)[i] == rows[i].(id := plan.ids[i]);
    }
  }

  lemma ObjectIdIsTarget(next: nat, rows: seq<Row>, i: nat)
    requires next > MAX_RAW_ID && DistinctIds(rows) && i < |rows|
    ensures var plan := PlanOf(ForObject, next, rows);
      |plan.ids| == |rows| && !IsRaw(plan.ids[i]) && plan.ids[i] == Target(plan.newIds, false, rows[i].id)
  {
    hide ExtendAll;
    PlanGives(ForObject, next, rows, i);
  }

  lemma ObjectImagesAreNotRaw(next: nat, rows: seq<Row>)
    requires next > MAX_RAW_ID && DistinctIds(rows)
    ensures NoRawImages(PlanOf(ForObject, next, rows).newIds)
  {
    hide ExtendAll;
    var newIds := PlanOf(ForObject, next, rows).newIds;
    PrefixOfAll(rows);
    forall id | id in newIds ensures !IsRaw(newIds[id]) {
      PlanKeys(ForObject, next, rows, |rows|, id);
      var i :| 0 <= i < |rows| && rows[i].id == id;
      PlanGives(ForObject, next, rows, i);
    }
  }

  /** The generated identifiers of an object follow each other from the generator on, so the identifiers of
      its rows are distinct exactly if no row has a storage identifier among them. */
  lemma ObjectIdsAreDistinctExactlyIf(next: nat, o: Obj)
    requires next > MAX_RAW_ID && DistinctIds(Preorder(o))
    ensures
      var rows := Preorder(o);
      var plan := PlanOf(ForObject, next, rows);
      && |plan.ids| == |rows|
      && ((forall i, j | 0 <= i < j < |rows| :: plan.ids[i] == plan.ids[j] ==> rows[i].id == 0)
          <==> (forall j | 0 <= j < |rows| :: !(next <= rows[j].id < plan.next)))
  {
    var rows := Preorder(o);
    var plan := PlanOf(ForObject, next, rows);
    PlanLength(ForObject, Plan(next, [], map[]), rows);
    PrefixOfAll(rows);
    hide ExtendAll, Preorder;
    if j :| 0 <= j < |rows| && next <= rows[j].id < plan.next {
      var i := GivenTo(next, rows, |rows|, rows[j].id);
      PlanGives(ForObject, next, rows, i);
      PlanGives(ForObject, next, rows, j);
    } else {
      forall i, j | 0 <= i < j < |rows| && rows[i].id != 0 ensures plan.ids[i] != plan.ids[j] {
        PlanGives(ForObject, next, rows, i);
        PlanGives(ForObject, next, rows, j);
        NextGrows(ForObject, next, rows, i + 1, j);
        NextGrows(ForObject, next, rows, i + 1, |rows|);
        NextGrows(ForObject, next, rows, j + 1, |rows|);
        PlanStep(ForObject, next, rows, i);
        PlanStep(ForObject, next, rows, j);
      }
    }
  }

  /** Every identifier between the generator before and after was given to a raw row. */
  lemma {:induction false} GivenTo(next: nat, rows: seq<Row>, k: nat, id: RecordId) returns (i: nat)
    requires k <= |rows| && next <= id < NextBefore(ForObject, next, rows, k)
    ensures i < k && IsRaw(rows[i].id) && NextBefore(ForObject, next, rows, i) == id
    decreases k
  {
    NoneGiven(next, rows);
    PlanStep(ForObject, next, rows, k - 1);
    if id < NextBefore(ForObject, next, rows, k - 1) {
      i := GivenTo(next, rows, k - 1, id);
    } else {
      i := k - 1;
    }
  }

  lemma NoneGiven(next: nat, rows: seq<Row>)
    ensures NextBefore(ForObject, next, rows, 0) == next
  {
  }

  /* ---------- argument and CUDs ---------- */

  /** The renaming of an argument object is not that of the CUDs: a create that refers to a row of the argument
      keeps its raw reference, although the raw identifier is one of the event. */
  lemma ArgumentReferenceStaysRaw()
    ensures
      var sch := Schema(map[], map[5 := TypeDef([FieldDef(7, RecordIdKind)], 0)], {});
      var arg := Obj(NULL_ROW.(qname := 4, id := 1), []);
      var create := NULL_ROW.(qname := 5, id := 2, fields := map[7 := 1]);
      var r := RegenerateEvent(sch, ForCuds({}, map[]), FIRST_USER_RECORD_ID, true, arg, Cud([create], map[]), []);
      && r.Done? && r.value.0.row.id == FIRST_USER_RECORD_ID
      && |r.value.1.cud.creates| == 1
      && var row := r.value.1.cud.creates[0];
      && row.id == FIRST_USER_RECORD_ID + 1 && HasRaw(sch, row)
      && 7 in row.fields && row.fields[7] == arg.row.id
  {
    var sch := Schema(map[], map[5 := TypeDef([FieldDef(7, RecordIdKind)], 0)], {});
    var arg := Obj(NULL_ROW.(qname := 4, id := 1), []);
    var create := NULL_ROW.(qname := 5, id := 2, fields := map[7 := 1]);
    var rule := ForCuds({}, map[]);
    assert IsRef(sch, 5, 7) by {
      var fields := UserFields(sch, 5);
      assert fields[0].name == 7 && fields[0].kind.RecordIdKind?;
    }
    var none := Plan(FIRST_USER_RECORD_ID + 1, [], map[]);
    assert [create][..0] == [] && ExtendAll(rule, none, []) == none;
    var plan := PlanOf(rule, FIRST_USER_RECORD_ID + 1, [create]);
    assert plan == Extend(rule, none, create);
    assert RegenerateObject(sch, FIRST_USER_RECORD_ID, arg).0 == FIRST_USER_RECORD_ID + 1;
    var row := RenamedCreates(sch, plan, [create])[0];
    assert row.fields[7] == 1;
    assert Mentions(sch, row, 1);
    hide IsRef;
  }
}
