/** Main results about the identifiers of whole events, argument and CUDs together, and of runs of events. */
module IdRegenerationEvents {
  import opened Bytes
  import opened EventCodec
  import opened CudApply
  import opened IdRegeneration
  import opened IdRegenerationTheorems
  import opened IdRegenerationTree

  /** An event before regeneration; only the identifiers of a document are regenerated. */
  datatype RawEvent = RawEvent(isDocument: bool, arg: Obj, cud: Cud)

  function ArgumentRows(e: RawEvent): seq<Row> {
    if e.isDocument then Preorder(e.arg) else []
  }

  /** The generator between the argument and the creates. */
  function NextBetween(next: nat, e: RawEvent): nat {
    PlanOf(ForObject, next, ArgumentRows(e)).next
  }

  function NextAfterEvent(rule: Rule, next: nat, e: RawEvent): nat {
    PlanOf(rule, NextBetween(next, e), e.cud.creates).next
  }

  /** The rows of the event that have identifiers: those of the argument, then the creates. */
  function RowsOfEvent(e: RawEvent): seq<Row> {
    ArgumentRows(e) + e.cud.creates
  }

  /** What each of them gets. */
  function NewId(rule: Rule, next: nat, e: RawEvent, i: nat): RecordId
    requires i < |RowsOfEvent(e)|
  {
    var arg := ArgumentRows(e);
    if i < |arg| then GivenId(ForObject, NextBefore(ForObject, next, arg, i), arg[i])
    else
      var j := i - |arg|;
      GivenId(rule, NextBefore(rule, NextBetween(next, e), e.cud.creates, j), e.cud.creates[j])
  }

  ghost predicate ValidEvent(rule: Rule, next: nat, e: RawEvent) {
    && rule.ForCuds? && ValidRule(rule) && next >= FIRST_USER_RECORD_ID
    && DistinctIds(ArgumentRows(e)) && ValidCuds(rule, e.cud) && SingletonsKnown(rule, e.cud.creates)
  }

  /* ---------- what regeneration gives ---------- */

  /** The rows of the regenerated event. */
  function Regenerated(isDocument: bool, r: (Obj, Regenerated)): seq<Row> {
    (if isDocument then Preorder(r.0) else []) + r.1.cud.creates
  }

  lemma NextGrowsInEvent(rule: Rule, next: nat, e: RawEvent)
    ensures next <= NextBetween(next, e) <= NextAfterEvent(rule, next, e)
  {
    hide ExtendAll, Preorder;
    PrefixOfAll(ArgumentRows(e));
    NextGrows(ForObject, next, ArgumentRows(e), 0, |ArgumentRows(e)|);
    PrefixOfAll(e.cud.creates);
    NextGrows(rule, NextBetween(next, e), e.cud.creates, 0, |e.cud.creates|);
  }

  lemma ArgumentIds(sch: Schema, rule: Rule, next: nat, e: RawEvent, i: nat)
    requires ValidEvent(rule, next, e) && e.isDocument && i < |Preorder(e.arg)|
    ensures var (next', arg') := RegenerateObject(sch, next, e.arg);
      next' == NextBetween(next, e) && |Preorder(arg')| == |Preorder(e.arg)| && Preorder(arg')[i].id == NewId(rule, next, e, i)
  {
    hide ExtendAll, Preorder, RegenerateObject, DistinctIds, GivenId, HasRaw, SameShape, ValidCuds, SingletonsKnown, ValidRule;
    var rows := Preorder(e.arg);
    ObjectIsRenamed(sch, next, e.arg);
    PlanGives(ForObject, next, rows, i);
    ObjectIdIsTarget(next, rows, i);
    assert RowsOfEvent(e)[i] == rows[i];
  }

  lemma NoArgument(rule: Rule, next: nat, e: RawEvent)
    requires !e.isDocument
    ensures NextBetween(next, e) == next && ArgumentRows(e) == []
  {
  }

  lemma CreateIds(sch: Schema, rule: Rule, next: nat, e: RawEvent, order: seq<RecordId>, j: nat)
    requires ValidEvent(rule, next, e) && Enumerates(order, e.cud.updates.Keys) && j < |e.cud.creates|
    ensures var r := RegenerateCud(sch, rule, NextBetween(next, e), e.cud, order);
      && r.Done? && r.value.next == NextAfterEvent(rule, next, e) && |r.value.cud.creates| == |e.cud.creates|
      && r.value.cud.creates[j].id == NewId(rule, next, e, |ArgumentRows(e)| + j)
  {
    NextGrowsInEvent(rule, next, e);
    hide ExtendAll, Preorder, DistinctIds, GivenId, SingletonsKnown, ValidRule, RegenerateCud, BuiltUpdate, OneOfEachSingleton, ImageOfUpdate;
    var mid := NextBetween(next, e);
    CudIsRenamed(sch, rule, mid, e.cud, order);
    CreateIsRenamed(sch, rule, mid, e.cud.creates, j);
    PlanGives(rule, mid, e.cud.creates, j);
  }

  function RegeneratedEvent(sch: Schema, rule: Rule, next: nat, e: RawEvent, order: seq<RecordId>): Outcome<(Obj, Regenerated)>
    requires forall id | id in order :: id in e.cud.updates
  {
    RegenerateEvent(sch, rule, next, e.isDocument, e.arg, e.cud, order)
  }

  lemma OrderIsKnown(e: RawEvent, order: seq<RecordId>)
    requires Enumerates(order, e.cud.updates.Keys)
    ensures forall id | id in order :: id in e.cud.updates
  {
  }

  lemma EventIs(sch: Schema, rule: Rule, next: nat, e: RawEvent, order: seq<RecordId>)
    requires forall id | id in order :: id in e.cud.updates
    ensures
      var (next', arg') := if e.isDocument then RegenerateObject(sch, next, e.arg) else (next, e.arg);
      match RegenerateCud(sch, rule, next', e.cud, order) {
        case Refused(err) => RegeneratedEvent(sch, rule, next, e, order) == Refused(err)
        case Done(r) => RegeneratedEvent(sch, rule, next, e, order) == Done((arg', r))
      }
  {
    hide RegenerateObject, RegenerateCud;
  }

  /** The generator between argument and creates, however the argument is. */
  lemma BetweenIs(sch: Schema, rule: Rule, next: nat, e: RawEvent)
    requires ValidEvent(rule, next, e)
    ensures
      var (next', arg') := if e.isDocument then RegenerateObject(sch, next, e.arg) else (next, e.arg);
      next' == NextBetween(next, e) && (e.isDocument ==> |Preorder(arg')| == |Preorder(e.arg)|)
  {
    if e.isDocument {
      PreorderIsNotEmpty(e.arg);
      ArgumentIds(sch, rule, next, e, 0);
    } else {
      NoArgument(rule, next, e);
    }
    hide RegenerateObject, Preorder, NextBetween, ValidEvent;
  }

  lemma PreorderIsNotEmpty(o: Obj)
    ensures |Preorder(o)| > 0
  {
  }

  lemma EventIsDone(sch: Schema, rule: Rule, next: nat, e: RawEvent, order: seq<RecordId>)
    requires ValidEvent(rule, next, e) && Enumerates(order, e.cud.updates.Keys)
    ensures RegenerateCud(sch, rule, NextBetween(next, e), e.cud, order).Done?
    ensures var r := RegenerateCud(sch, rule, NextBetween(next, e), e.cud, order).value;
      r.next == NextAfterEvent(rule, next, e) && |r.cud.creates| == |e.cud.creates|
  {
    NextGrowsInEvent(rule, next, e);
    hide ExtendAll, Preorder, DistinctIds, SingletonsKnown, ValidRule, RegenerateCud, ImageOfUpdate, BuiltUpdate, OneOfEachSingleton;
    CudIsRenamed(sch, rule, NextBetween(next, e), e.cud, order);
  }

  /** Regeneration of a valid event succeeds, moves the generator on, and gives row `i` its new identifier. */
  lemma EventIdsAre(sch: Schema, rule: Rule, next: nat, e: RawEvent, order: seq<RecordId>, i: nat)
    requires ValidEvent(rule, next, e) && Enumerates(order, e.cud.updates.Keys) && i < |RowsOfEvent(e)|
    ensures forall id | id in order :: id in e.cud.updates
    ensures var r := RegeneratedEvent(sch, rule, next, e, order);
      && r.Done? && r.value.1.next == NextAfterEvent(rule, next, e)
      && var rows := Regenerated(e.isDocument, r.value);
      |rows| == |RowsOfEvent(e)| && rows[i].id == NewId(rule, next, e, i)
  {
    OrderIsKnown(e, order);
    EventIs(sch, rule, next, e, order);
    BetweenIs(sch, rule, next, e);
    EventIsDone(sch, rule, next, e, order);
    if i < |ArgumentRows(e)| {
      ArgumentIds(sch, rule, next, e, i);
    } else {
      CreateIds(sch, rule, next, e, order, i - |ArgumentRows(e)|);
    }
    hide RegenerateObject, RegenerateCud, Preorder, NewId, NextBetween, NextAfterEvent, ValidEvent, RegeneratedEvent, Enumerates;
  }

  /* ---------- distinct identifiers in one event ---------- */

  function RuleAt(rule: Rule, e: RawEvent, i: nat): Rule {
    if i < |ArgumentRows(e)| then ForObject else rule
  }

  /** The generator before row `i`. */
  function NextAt(rule: Rule, next: nat, e: RawEvent, i: nat): nat
    requires i < |RowsOfEvent(e)|
  {
    var arg := ArgumentRows(e);
    if i < |arg| then NextBefore(ForObject, next, arg, i)
    else NextBefore(rule, NextBetween(next, e), e.cud.creates, i - |arg|)
  }

  lemma NewIdIs(rule: Rule, next: nat, e: RawEvent, i: nat)
    requires i < |RowsOfEvent(e)|
    ensures NewId(rule, next, e, i) == GivenId(RuleAt(rule, e, i), NextAt(rule, next, e, i), RowsOfEvent(e)[i])
  {
    hide NextBefore, NextBetween, GivenId, Preorder;
  }

  /** A generated identifier is not given again. */
  lemma NextAtGrows(rule: Rule, next: nat, e: RawEvent, i: nat, j: nat)
    requires i < j < |RowsOfEvent(e)|
    ensures next <= NextAt(rule, next, e, i) <= NextAt(rule, next, e, j) <= NextAfterEvent(rule, next, e)
    ensures Generated(RuleAt(rule, e, i), RowsOfEvent(e)[i]) ==> NextAt(rule, next, e, i) < NextAt(rule, next, e, j)
  {
    var arg, creates, mid := ArgumentRows(e), e.cud.creates, NextBetween(next, e);
    hide ExtendAll, Preorder;
    NextGrowsInEvent(rule, next, e);
    PrefixOfAll(arg);
    PrefixOfAll(creates);
    if j < |arg| {
      RowGrows(ForObject, next, arg, i, j);
      NextGrows(ForObject, next, arg, j, |arg|);
    } else if i < |arg| {
      RowGrows(ForObject, next, arg, i, |arg|);
      NextGrows(rule, mid, creates, j - |arg|, |creates|);
    } else {
      RowGrows(rule, mid, creates, i - |arg|, j - |arg|);
      NextGrows(rule, mid, creates, j - |arg|, |creates|);
    }
  }

  lemma RowGrows(rule: Rule, next: nat, rows: seq<Row>, i: nat, j: nat)
    requires i < j <= |rows|
    ensures next <= NextBefore(rule, next, rows, i) <= NextBefore(rule, next, rows, j)
    ensures Generated(rule, rows[i]) ==> NextBefore(rule, next, rows, i) < NextBefore(rule, next, rows, j)
  {
    NextGrows(rule, next, rows, i, i);
    NextGrows(rule, next, rows, i + 1, j);
    PlanStep(rule, next, rows, i);
    NextGrows(rule, next, rows, i, i + 1);
    hide ExtendAll, GivenId;
  }

  /** The identifier of a row that the generator does not give. */
  function FixedId(rule: Rule, row: Row): RecordId {
    GivenId(rule, 0, row)
  }

  /** Two rows of an event with the same identifier: both have it fixed, or one is given by the generator
      what the other has. */
  predicate EventClash(rule: Rule, next: nat, e: RawEvent, i: nat, j: nat)
    requires i < j < |RowsOfEvent(e)|
  {
    var rows := RowsOfEvent(e);
    var (p, q) := (RuleAt(rule, e, i), RuleAt(rule, e, j));
    if Generated(p, rows[i]) then !Generated(q, rows[j]) && FixedId(q, rows[j]) == NextAt(rule, next, e, i)
    else if Generated(q, rows[j]) then FixedId(p, rows[i]) == NextAt(rule, next, e, j)
    else FixedId(p, rows[i]) == FixedId(q, rows[j])
  }

  lemma SameNewIdExactlyIf(rule: Rule, next: nat, e: RawEvent, i: nat, j: nat)
    requires i < j < |RowsOfEvent(e)|
    ensures NewId(rule, next, e, i) == NewId(rule, next, e, j) <==> EventClash(rule, next, e, i, j)
  {
    NewIdIs(rule, next, e, i);
    NewIdIs(rule, next, e, j);
    NextAtGrows(rule, next, e, i, j);
    hide NewId, NextAt, RowsOfEvent, RuleAt, NextAfterEvent;
  }

  ghost predicate AllDistinct(before: seq<Row>, after: seq<Row>)
    requires |before| == |after|
  {
    forall i, j | 0 <= i < j < |after| :: after[i].id == after[j].id ==> before[i].id == 0
  }

  ghost predicate NoClash(rule: Rule, next: nat, e: RawEvent) {
    forall i, j | 0 <= i < j < |RowsOfEvent(e)| :: EventClash(rule, next, e, i, j) ==> RowsOfEvent(e)[i].id == 0
  }

  /** `after` repeats identifiers exactly where rows of the event clash. */
  ghost predicate RepeatsAtClashes(rule: Rule, next: nat, e: RawEvent, after: seq<Row>)
    requires |after| == |RowsOfEvent(e)|
  {
    forall i, j | 0 <= i < j < |after| :: after[i].id == after[j].id <==> EventClash(rule, next, e, i, j)
  }

  lemma DistinctExactlyIfNoClash(rule: Rule, next: nat, e: RawEvent, after: seq<Row>)
    requires |after| == |RowsOfEvent(e)| && RepeatsAtClashes(rule, next, e, after)
    ensures AllDistinct(RowsOfEvent(e), after) <==> NoClash(rule, next, e)
  {
    hide EventClash, RowsOfEvent;
  }

  lemma RegeneratedRepeatsAtClashes(sch: Schema, rule: Rule, next: nat, e: RawEvent, order: seq<RecordId>)
    requires ValidEvent(rule, next, e) && Enumerates(order, e.cud.updates.Keys) && RowsOfEvent(e) != []
    ensures forall id | id in order :: id in e.cud.updates
    ensures var r := RegeneratedEvent(sch, rule, next, e, order);
      && r.Done? && |Regenerated(e.isDocument, r.value)| == |RowsOfEvent(e)|
      && RepeatsAtClashes(rule, next, e, Regenerated(e.isDocument, r.value))
  {
    EventIdsAre(sch, rule, next, e, order, 0);
    var after := Regenerated(e.isDocument, RegeneratedEvent(sch, rule, next, e, order).value);
    hide EventClash, ValidEvent, Enumerates, RowsOfEvent, NewId, NextAfterEvent, RegeneratedEvent, Regenerated;
    forall i, j | 0 <= i < j < |after| ensures after[i].id == after[j].id <==> EventClash(rule, next, e, i, j) {
      EventIdsAre(sch, rule, next, e, order, i);
      EventIdsAre(sch, rule, next, e, order, j);
      SameNewIdExactlyIf(rule, next, e, i, j);
    }
  }

  /** The identifiers of the argument and the creates of an event are distinct after regeneration, except
      null ones of argument rows, exactly if no two of its rows clash. */
  lemma EventIdsAreDistinctExactlyIf(sch: Schema, rule: Rule, next: nat, e: RawEvent, order: seq<RecordId>)
    requires ValidEvent(rule, next, e) && Enumerates(order, e.cud.updates.Keys) && RowsOfEvent(e) != []
    ensures forall id | id in order :: id in e.cud.updates
    ensures var r := RegeneratedEvent(sch, rule, next, e, order);
      && r.Done? && |Regenerated(e.isDocument, r.value)| == |RowsOfEvent(e)|
      && (AllDistinct(RowsOfEvent(e), Regenerated(e.isDocument, r.value)) <==> NoClash(rule, next, e))
  {
    RegeneratedRepeatsAtClashes(sch, rule, next, e, order);
    DistinctExactlyIfNoClash(rule, next, e, Regenerated(e.isDocument, RegeneratedEvent(sch, rule, next, e, order).value));
    hide *;
  }

  /** The rows of an event that is not synchronised have raw identifiers only. */
  predicate OnlyRaw(rows: seq<Row>) {
    forall i | 0 <= i < |rows| :: IsRaw(rows[i].id)
  }

  lemma RawRowsDoNotClash(rule: Rule, next: nat, e: RawEvent, i: nat, j: nat)
    requires ValidEvent(rule, next, e) && OnlyRaw(RowsOfEvent(e)) && i < j < |RowsOfEvent(e)|
    ensures !EventClash(rule, next, e, i, j)
  {
    NextAtGrows(rule, next, e, i, j);
    var rows, n := RowsOfEvent(e), |ArgumentRows(e)|;
    assert i >= n ==> rows[i] == e.cud.creates[i - n];
    assert j >= n ==> rows[j] == e.cud.creates[j - n];
    hide NextAt, NextAfterEvent, BuiltUpdate, Preorder;
  }

  /** In an event that is not synchronised no two rows clash: all its identifiers are distinct afterwards. */
  lemma UnsyncedIdsAreDistinct(sch: Schema, rule: Rule, next: nat, e: RawEvent, order: seq<RecordId>)
    requires ValidEvent(rule, next, e) && Enumerates(order, e.cud.updates.Keys)
    requires RowsOfEvent(e) != [] && OnlyRaw(RowsOfEvent(e))
    ensures forall id | id in order :: id in e.cud.updates
    ensures var r := RegeneratedEvent(sch, rule, next, e, order);
      && r.Done? && |Regenerated(e.isDocument, r.value)| == |RowsOfEvent(e)|
      && AllDistinct(RowsOfEvent(e), Regenerated(e.isDocument, r.value))
  {
    EventIdsAreDistinctExactlyIf(sch, rule, next, e, order);
    hide ValidEvent, EventClash, RegeneratedEvent, Regenerated, AllDistinct, RowsOfEvent, OnlyRaw, Enumerates;
    forall i, j | 0 <= i < j < |RowsOfEvent(e)| ensures !EventClash(rule, next, e, i, j) {
      RawRowsDoNotClash(rule, next, e, i, j);
    }
  }

  /* ---------- runs of events ---------- */

  /** The generator before event `k` of a run. */
  function NextInRun(rule: Rule, next: nat, run: seq<RawEvent>, k: nat): nat
    requires k <= |run|
  {
    if k == 0 then next else NextAfterEvent(rule, NextInRun(rule, next, run, k - 1), run[k - 1])
  }

  lemma {:induction false} RunGrows(rule: Rule, next: nat, run: seq<RawEvent>, a: nat, b: nat)
    requires a <= b <= |run|
    ensures next <= NextInRun(rule, next, run, a) <= NextInRun(rule, next, run, b)
    decreases b, a
  {
    hide NextAfterEvent, NextBetween;
    if b > 0 {
      NextGrowsInEvent(rule, NextInRun(rule, next, run, b - 1), run[b - 1]);
      if a < b {
        RunGrows(rule, next, run, a, b - 1);
      } else {
        RunGrows(rule, next, run, b - 1, b - 1);
      }
    }
  }

  lemma EventInRun(rule: Rule, next: nat, run: seq<RawEvent>, a: nat)
    requires a < |run|
    ensures NextInRun(rule, next, run, a + 1) == NextAfterEvent(rule, NextInRun(rule, next, run, a), run[a])
  {
    hide NextAfterEvent;
  }

  lemma RunGrowsPast(rule: Rule, next: nat, run: seq<RawEvent>, a: nat, b: nat)
    requires a < b <= |run|
    ensures next <= NextInRun(rule, next, run, a)
    ensures NextAfterEvent(rule, NextInRun(rule, next, run, a), run[a]) <= NextInRun(rule, next, run, b)
  {
    hide *;
    RunGrows(rule, next, run, a, a);
    RunGrows(rule, next, run, a + 1, b);
    EventInRun(rule, next, run, a);
  }

  /** A storage identifier of an argument row is not told to the generator. */
  predicate Untold(e: RawEvent, i: nat)
    requires i < |RowsOfEvent(e)|
  {
    i < |ArgumentRows(e)| && !IsRaw(RowsOfEvent(e)[i].id)
  }

  /** After an event the generator is beyond every identifier of it that it was told or has given. */
  lemma GeneratorIsBeyond(rule: Rule, next: nat, e: RawEvent, i: nat)
    requires rule.ForCuds? && ValidRule(rule) && next >= FIRST_USER_RECORD_ID && i < |RowsOfEvent(e)| && !Untold(e, i)
    ensures NewId(rule, next, e, i) < NextAfterEvent(rule, next, e)
  {
    var arg, creates, mid := ArgumentRows(e), e.cud.creates, NextBetween(next, e);
    NextGrowsInEvent(rule, next, e);
    PrefixOfAll(arg);
    PrefixOfAll(creates);
    if i < |arg| {
      RowGrows(ForObject, next, arg, i, |arg|);
    } else {
      var j := i - |arg|;
      RowGrows(rule, mid, creates, j, |creates|);
      GeneratorIsAhead(rule, mid, creates, j);
      PlanIds(rule, mid, creates, |creates|, j);
    }
    hide ExtendAll, Preorder;
  }

  lemma GeneratedIsNext(rule: Rule, next: nat, e: RawEvent, j: nat)
    requires j < |RowsOfEvent(e)| && Generated(RuleAt(rule, e, j), RowsOfEvent(e)[j])
    ensures NewId(rule, next, e, j) == NextAt(rule, next, e, j) >= next
  {
    var arg, creates, mid := ArgumentRows(e), e.cud.creates, NextBetween(next, e);
    NewIdIs(rule, next, e, j);
    NextGrowsInEvent(rule, next, e);
    if j < |arg| {
      NextGrows(ForObject, next, arg, j, j);
    } else {
      NextGrows(rule, mid, creates, j - |arg|, j - |arg|);
    }
    hide ExtendAll, Preorder, NewId;
  }

  lemma UntoldIsKept(rule: Rule, next: nat, e: RawEvent, i: nat)
    requires i < |RowsOfEvent(e)| && Untold(e, i)
    ensures NewId(rule, next, e, i) == RowsOfEvent(e)[i].id
  {
    NewIdIs(rule, next, e, i);
    hide NewId, NextAt, RowsOfEvent;
  }

  lemma GivenAgainExactlyIf(rule: Rule, m: nat, a: RawEvent, i: nat, n: nat, b: RawEvent, j: nat)
    requires rule.ForCuds? && ValidRule(rule) && m >= FIRST_USER_RECORD_ID && NextAfterEvent(rule, m, a) <= n
    requires i < |RowsOfEvent(a)| && j < |RowsOfEvent(b)| && Generated(RuleAt(rule, b, j), RowsOfEvent(b)[j])
    ensures NewId(rule, m, a, i) == NewId(rule, n, b, j)
      <==> Untold(a, i) && RowsOfEvent(a)[i].id == NextAt(rule, n, b, j)
  {
    GeneratedIsNext(rule, n, b, j);
    if Untold(a, i) {
      UntoldIsKept(rule, m, a, i);
    } else {
      GeneratorIsBeyond(rule, m, a, i);
    }
    hide *;
  }

  /** Over any run of events, the generator gives a row of a later event the identifier of a row of an
      earlier one exactly if that is a storage identifier of an argument, which it is not told, and its turn
      comes.  All others, of creates and arguments, are never given again. */
  lemma GeneratedIdsAreNewInRun(rule: Rule, next: nat, run: seq<RawEvent>, a: nat, b: nat, i: nat, j: nat)
    requires rule.ForCuds? && ValidRule(rule) && next >= FIRST_USER_RECORD_ID && a < b < |run|
    requires i < |RowsOfEvent(run[a])| && j < |RowsOfEvent(run[b])| && Generated(RuleAt(rule, run[b], j), RowsOfEvent(run[b])[j])
    ensures NewId(rule, NextInRun(rule, next, run, a), run[a], i) == NewId(rule, NextInRun(rule, next, run, b), run[b], j)
      <==> Untold(run[a], i) && RowsOfEvent(run[a])[i].id == NextAt(rule, NextInRun(rule, next, run, b), run[b], j)
  {
    hide *;
    RunGrowsPast(rule, next, run, a, b);
    GivenAgainExactlyIf(rule, NextInRun(rule, next, run, a), run[a], i, NextInRun(rule, next, run, b), run[b], j);
  }
}
