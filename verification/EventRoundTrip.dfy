/** Main results about the event codec: loading the stored bytes gives the event back and consumes exactly
    those bytes, in whatever order maps were iterated. */
module EventRoundTrip {
  import opened Options
  import opened Bytes
  import opened EventCodec

  /* ---------- what can be stored ---------- */

  predicate ValidFields(fields: seq<FieldDef>) {
    |fields| < 0x1_0000 && forall i, j | 0 <= i < j < |fields| :: fields[i].name != fields[j].name
  }

  /** Qualified names have one dot and fit a short string; types have less than 65536 user fields. */
  ghost predicate ValidSchema(sch: Schema) {
    && ERROR_QNAME in sch.names && CORRUPTED_QNAME in sch.names
    && (forall name | name in sch.names :: Dots(sch.names[name]) == 1 && |sch.names[name]| < MAX_SHORT_STRING)
    && (forall name | name in sch.types :: ValidFields(sch.types[name].userFields))
  }

  /** The dynobuffer encoding keeps these fields, and its length fits. */
  ghost predicate Faithful(dyn: Dyn, fields: Fields) {
    dyn.dec(dyn.enc(fields)) == fields && |dyn.enc(fields)| < 0x1_0000_0000
  }

  /** A null row is empty; the numbers of other rows fit, and their names are known. */
  ghost predicate ValidRow(sch: Schema, dyn: Dyn, row: Row) {
    if row.qname == NULL_QNAME then row == NULL_ROW
    else
      && row.qname < 0x1_0000 && row.qname in sch.names && row.qname in sch.types
      && row.id < UINT64_LIMIT && row.parent < UINT64_LIMIT
      && row.container < 0x1_0000 && (row.container != 0 ==> row.container in sch.containers)
      && Faithful(dyn, row.fields)
  }

  /** Emptied fields are string or bytes fields of the row's type. */
  predicate ValidNil(fields: seq<FieldDef>, f: Field) {
    match IndexOf(fields, f)
    case None => false
    case Some(i) => fields[i].kind.StringKind? || fields[i].kind.BytesKind?
  }

  ghost predicate ValidRecord(sch: Schema, dyn: Dyn, row: Row) {
    && ValidRow(sch, dyn, row)
    && |row.nils| < 0x1_0000
    && forall f | f in row.nils :: ValidNil(UserFields(sch, row.qname), f)
  }

  ghost predicate ValidObj(sch: Schema, dyn: Dyn, o: Obj)
    decreases o
  {
    && ValidRow(sch, dyn, o.row)
    && (o.row.qname == NULL_QNAME ==> o.children == [])
    && |o.children| < 0x1_0000
    && forall i | 0 <= i < |o.children| :: ValidObj(sch, dyn, o.children[i])
  }

  predicate ValidParams(p: Params) {
    && p.partition < 0x1_0000 && p.plogOffs < UINT64_LIMIT && p.ws < UINT64_LIMIT && p.wlogOffs < UINT64_LIMIT
    && IsInt64(p.regTime) && p.device < 0x1_0000 && IsInt64(p.syncTime)
  }

  ghost predicate ValidEvent(sch: Schema, dyn: Dyn, ev: Event) {
    && ValidSchema(sch)
    && ev.name != NULL_QNAME && ev.name < 0x1_0000 && ev.name in sch.names
    && ValidParams(ev.params)
    && |ev.err.bytes| < 0x1_0000_0000
    && ValidObj(sch, dyn, ev.arg) && ValidObj(sch, dyn, ev.unl)
    && |ev.creates| < 0x1_0000 && (forall i | 0 <= i < |ev.creates| :: ValidRecord(sch, dyn, ev.creates[i]))
    && |ev.updates| < 0x1_0000
    && (forall id | id in ev.updates :: ev.updates[id].id == id && ValidRecord(sch, dyn, ev.updates[id]))
  }

  /* ---------- what is stored ---------- */

  /** The emptied fields of argument objects are not stored. */
  function StoredObj(o: Obj): Obj
    decreases o
  {
    Obj(o.row.(nils := {}), seq(|o.children|, i requires 0 <= i < |o.children| => StoredObj(o.children[i])))
  }

  function StoredParams(p: Params): Params {
    if p.sync then p else p.(device := 0, syncTime := 0)
  }

  /** The event that the bytes stand for: a valid one complete, an invalid one with its error only. */
  function StoredEvent(sch: Schema, ev: Event): Event {
    if IsValid(ev) then
      ev.(params := StoredParams(ev.params), err := NO_ERROR, arg := StoredObj(ev.arg), unl := StoredObj(ev.unl))
    else
      NO_EVENT.(name := StoredName(ev), params := StoredParams(ev.params), valid := false,
                err := BuildError(Short(ev.err.errStr), NameString(sch, ev.name), LoggedBytes(ev)))
  }

  /* ---------- numbers and strings ---------- */

  lemma UintReadsBack(size: nat, x: nat, rest: Bytes)
    requires x < Pow256(size)
    ensures DecUint(size, BigEndian(x, size) + rest) == Got(x, rest)
  {
    BigEndianReadsBack(x, size);
    var bs := BigEndian(x, size) + rest;
    assert bs[..size] == BigEndian(x, size) && bs[size..] == rest;
    hide FromBigEndian, BigEndian;
  }

  lemma Uint16ReadsBack(x: nat, rest: Bytes)
    requires x < 0x1_0000
    ensures DecUint(2, BigEndian(x, 2) + rest) == Got(x, rest)
  {
    Pow256Values();
    hide *;
    UintReadsBack(2, x, rest);
  }

  lemma Uint32ReadsBack(x: nat, rest: Bytes)
    requires x < 0x1_0000_0000
    ensures DecUint(4, BigEndian(x, 4) + rest) == Got(x, rest)
  {
    Pow256Values();
    hide *;
    UintReadsBack(4, x, rest);
  }

  lemma Uint64ReadsBack(x: nat, rest: Bytes)
    requires x < UINT64_LIMIT
    ensures DecUint(8, BigEndian(x, 8) + rest) == Got(x, rest)
  {
    Pow256Values();
    hide *;
    UintReadsBack(8, x, rest);
  }

  lemma Int64ReadsBack(x: int, rest: Bytes)
    requires IsInt64(x)
    ensures DecInt64(EncInt64(x) + rest) == Got(x, rest)
  {
    Uint64ReadsBack(ToUint64(x), rest);
    hide DecUint, BigEndian;
  }

  lemma BoolReadsBack(b: bool, rest: Bytes)
    ensures DecBool(EncBool(b) + rest) == Got(b, rest)
  {
  }

  lemma BytesReadBack(b: Bytes, rest: Bytes)
    ensures DecBytes(|b|, b + rest) == Got(b, rest)
  {
    assert (b + rest)[..|b|] == b && (b + rest)[|b|..] == rest;
  }

  lemma ShortStringReadsBack(s: Bytes, rest: Bytes)
    ensures DecShortString(EncShortString(s) + rest) == Got(Short(s), rest)
  {
    assert |Short(s)| < 0x1_0000;
    assert EncShortString(s) + rest == BigEndian(|Short(s)|, 2) + (Short(s) + rest);
    hide *;
    Uint16ReadsBack(|Short(s)|, Short(s) + rest);
    BytesReadBack(Short(s), rest);
    ShortStringParts(s, rest);
  }

  lemma ShortStringParts(s: Bytes, rest: Bytes)
    requires DecUint(2, BigEndian(|Short(s)|, 2) + (Short(s) + rest)) == Got(|Short(s)|, Short(s) + rest)
    requires EncShortString(s) + rest == BigEndian(|Short(s)|, 2) + (Short(s) + rest)
    ensures DecShortString(EncShortString(s) + rest) == DecBytes(|Short(s)|, Short(s) + rest)
  {
    hide DecUint, BigEndian, Short, EncShortString;
  }

  /* ---------- system fields ---------- */

  lemma MaskBits(row: Row)
    ensures SysMask(row) < 16
    ensures HasBit(SysMask(row), 1) == (row.id != 0)
    ensures HasBit(SysMask(row), 2) == (row.parent != 0)
    ensures HasBit(SysMask(row), 4) == (row.container != 0)
    ensures HasBit(SysMask(row), 8) == !row.active
  {
  }

  function EncIf(x: nat, size: nat): Bytes {
    if x != 0 then BigEndian(x, size) else []
  }

  lemma IfReadsBack(x: nat, size: nat, rest: Bytes)
    requires x < Pow256(size)
    ensures DecIf(x != 0, size, EncIf(x, size) + rest) == Got(x, rest)
  {
    if x != 0 {
      UintReadsBack(size, x, rest);
    } else {
      assert [] + rest == rest;
    }
    hide DecUint, BigEndian;
  }

  lemma SysFieldsSplit(row: Row, rest: Bytes)
    ensures EncSysFields(row) + rest
      == BigEndian(SysMask(row), 2) + (EncIf(row.id, 8) + (EncIf(row.parent, 8) + (EncIf(row.container, 2)
         + ((if !row.active then EncBool(false) else []) + rest))))
  {
    hide BigEndian, SysMask;
  }

  lemma SysFieldsReadBack(sch: Schema, dyn: Dyn, row: Row, from: Row, rest: Bytes)
    requires row.qname != NULL_QNAME && ValidRow(sch, dyn, row)
    requires from == NULL_ROW.(qname := row.qname)
    ensures DecSysFields(sch, CODEC_RDB_2, from, EncSysFields(row) + rest)
      == Got(row.(fields := map[], nils := {}), rest)
  {
    var tail := (if !row.active then EncBool(false) else []) + rest;
    var b2 := EncIf(row.container, 2) + tail;
    var b1 := EncIf(row.parent, 8) + b2;
    var b0 := EncIf(row.id, 8) + b1;
    RowFits(sch, dyn, row);
    hide *;
    SysFieldsSplit(row, rest);
    MaskBits(row);
    Uint16ReadsBack(SysMask(row), b0);
    IfReadsBack(row.id, 8, b1);
    IfReadsBack(row.parent, 8, b2);
    IfReadsBack(row.container, 2, tail);
    SysFieldsParts(sch, CODEC_RDB_2, from, EncSysFields(row) + rest);
    MaskedStep(sch, SysMask(row), from, row.id, row.parent, row.container, b0, b1, b2, tail);
    ActiveReadsBack(sch, SysMask(row), row, from.(id := row.id, parent := row.parent, container := row.container), rest);
  }

  lemma RowFits(sch: Schema, dyn: Dyn, row: Row)
    requires row.qname != NULL_QNAME && ValidRow(sch, dyn, row)
    ensures row.id < Pow256(8) && row.parent < Pow256(8) && row.container < Pow256(2)
    ensures row.qname in sch.types && (row.container != 0 ==> row.container in sch.containers)
    ensures CODEC_RAW == 0 && CODEC_RDB_2 == 2 && NULL_QNAME == 0
    ensures NULL_ROW == Row(NULL_QNAME, 0, 0, 0, true, map[], {})
  {
    Pow256Values();
    hide Pow256, Faithful;
  }

  lemma ActiveReadsBack(sch: Schema, mask: nat, row: Row, from: Row, rest: Bytes)
    requires HasBit(mask, 4) == (row.container != 0) && HasBit(mask, 8) == !row.active && from.active
    requires from.container == row.container && (row.container != 0 ==> row.container in sch.containers)
    ensures DecActive(sch, mask, from, (if !row.active then EncBool(false) else []) + rest) == Got(from.(active := row.active), rest)
  {
    BoolReadsBack(false, rest);
    assert [] + rest == rest;
    hide HasBit, DecBool, EncBool;
  }

  /** The system fields without the mask. */
  function DecMasked(sch: Schema, mask: nat, row: Row, b0: Bytes): (r: Read<Row>)
    requires row.qname in sch.types
  {
    match DecIf(HasBit(mask, 1), 8, b0)
    case Failed(e) => Failed(e)
    case Got(id, b1) =>
      match DecIf(HasBit(mask, 2), 8, b1)
      case Failed(e) => Failed(e)
      case Got(parent, b2) =>
        match DecIf(HasBit(mask, 4), 2, b2)
        case Failed(e) => Failed(e)
        case Got(container, b3) => DecActive(sch, mask, row.(id := id, parent := parent, container := container), b3)
  }

  function DecActive(sch: Schema, mask: nat, row: Row, b3: Bytes): (r: Read<Row>) {
    if HasBit(mask, 4) && row.container != 0 && row.container !in sch.containers then Failed(ContainerNotFound)
    else if HasBit(mask, 8) then
      match DecBool(b3)
      case Failed(e) => Failed(e)
      case Got(active, b4) => Got(row.(active := active), b4)
    else Got(row, b3)
  }

  lemma SysFieldsParts(sch: Schema, ver: nat, row: Row, bs: Bytes)
    requires row.qname in sch.types
    ensures DecSysFields(sch, ver, row, bs) ==
      if ver == CODEC_RAW then DecMasked(sch, sch.types[row.qname].sysMask, row, bs)
      else match DecUint(2, bs) case Failed(e) => Failed(e) case Got(mask, b0) => DecMasked(sch, mask, row, b0)
  {
    hide DecUint, DecIf, DecBool, HasBit;
  }

  lemma MaskedStep(sch: Schema, mask: nat, from: Row, id: RecordId, parent: RecordId, container: nat,
                   b0: Bytes, b1: Bytes, b2: Bytes, b3: Bytes)
    requires from.qname in sch.types
    requires DecIf(HasBit(mask, 1), 8, b0) == Got(id, b1) && DecIf(HasBit(mask, 2), 8, b1) == Got(parent, b2)
    requires DecIf(HasBit(mask, 4), 2, b2) == Got(container, b3)
    ensures DecMasked(sch, mask, from, b0)
      == DecActive(sch, mask, from.(id := id, parent := parent, container := container), b3)
  {
    hide DecIf, HasBit, DecActive;
  }

  /* ---------- rows ---------- */

  lemma RowSplit(dyn: Dyn, row: Row, rest: Bytes)
    ensures row.qname != NULL_QNAME ==>
      var b := dyn.enc(row.fields);
      EncRow(dyn, row) + rest == BigEndian(row.qname, 2) + (EncSysFields(row) + (BigEndian(|b|, 4) + (b + rest)))
  {
    hide BigEndian, EncSysFields;
  }

  lemma RowReadsBack(sch: Schema, dyn: Dyn, row: Row, rest: Bytes)
    requires ValidRow(sch, dyn, row)
    ensures DecRow(sch, dyn, CODEC_RDB_2, EncRow(dyn, row) + rest) == Got(row.(nils := {}), rest)
  {
    if row.qname == NULL_QNAME {
      Uint16ReadsBack(0, rest);
      hide DecUint, BigEndian, DecSysFields;
    } else {
      var b := dyn.enc(row.fields);
      RowSplit(dyn, row, rest);
      Uint16ReadsBack(row.qname, EncSysFields(row) + (BigEndian(|b|, 4) + (b + rest)));
      SysFieldsReadBack(sch, dyn, row, NULL_ROW.(qname := row.qname), BigEndian(|b|, 4) + (b + rest));
      Uint32ReadsBack(|b|, b + rest);
      BytesReadBack(b, rest);
      hide EncRow, EncSysFields, DecUint, BigEndian, DecSysFields, DecBytes;
    }
  }

  /* ---------- CUD rows ---------- */

  lemma {:induction false} IndexesLength(indexes: seq<nat>)
    ensures |EncIndexes(indexes)| == 2 * |indexes|
  {
    if indexes != [] {
      IndexesLength(indexes[1..]);
    }
  }

  function SetOf(nils: seq<Field>): set<Field> {
    set f | f in nils
  }

  lemma {:induction false} EmptiedIndexesAreAll(fields: seq<FieldDef>, nils: seq<Field>)
    requires forall f | f in nils :: ValidNil(fields, f)
    ensures |EmptiedIndexes(fields, nils)| == |nils|
  {
    if nils != [] {
      assert nils[0] in nils;
      EmptiedIndexesAreAll(fields, nils[1..]);
    }
  }

  lemma SetOfCons(nils: seq<Field>, before: set<Field>)
    requires nils != []
    ensures before + {nils[0]} + SetOf(nils[1..]) == before + SetOf(nils)
  {
    assert nils == [nils[0]] + nils[1..];
  }

  lemma EncIndexesCons(i: nat, more: seq<nat>, rest: Bytes)
    ensures EncIndexes([i] + more) + rest == BigEndian(i, 2) + (EncIndexes(more) + rest)
  {
    assert ([i] + more)[1..] == more;
    hide BigEndian;
  }

  lemma NilsSplit(fields: seq<FieldDef>, nils: seq<Field>, rest: Bytes)
    requires |fields| < 0x1_0000 && nils != [] && ValidNil(fields, nils[0])
    ensures IndexOf(fields, nils[0]).Some?
    ensures var i := IndexOf(fields, nils[0]).value;
      && i < |fields| && fields[i].name == nils[0] && (fields[i].kind.StringKind? || fields[i].kind.BytesKind?)
      && EncIndexes(EmptiedIndexes(fields, nils)) + rest
         == BigEndian(i, 2) + (EncIndexes(EmptiedIndexes(fields, nils[1..])) + rest)
  {
    var i := IndexOf(fields, nils[0]).value;
    EncIndexesCons(i, EmptiedIndexes(fields, nils[1..]), rest);
    hide BigEndian, EncIndexes, IndexOf;
  }

  /** The indexes of the emptied fields are read back as the fields. */
  lemma {:induction false} NilsReadBack(fields: seq<FieldDef>, nils: seq<Field>, before: set<Field>, rest: Bytes)
    requires |fields| < 0x1_0000 && forall f | f in nils :: ValidNil(fields, f)
    ensures DecNils(fields, |nils|, before, EncIndexes(EmptiedIndexes(fields, nils)) + rest) == Got(before + SetOf(nils), rest)
  {
    if nils == [] {
      assert [] + rest == rest;
      assert before + SetOf(nils) == before;
    } else {
      hide DecUint, BigEndian, IndexOf, ValidNil, EncIndexes, EmptiedIndexes, SetOf;
      assert nils[0] in nils;
      NilsSplit(fields, nils, rest);
      SetOfCons(nils, before);
      Uint16ReadsBack(IndexOf(fields, nils[0]).value, EncIndexes(EmptiedIndexes(fields, nils[1..])) + rest);
      NilsReadBack(fields, nils[1..], before + {nils[0]}, rest);
    }
  }

  lemma CudSplit(sch: Schema, dyn: Dyn, row: Row, nils: seq<Field>, rest: Bytes)
    ensures var indexes := EmptiedIndexes(UserFields(sch, row.qname), nils);
      EncCud(sch, dyn, row, nils) + rest == EncRow(dyn, row) + (BigEndian(|indexes|, 2) + (EncIndexes(indexes) + rest))
  {
    hide EncRow, BigEndian, EncIndexes, EmptiedIndexes;
  }

  lemma EnumerationSize<T(!new)>(order: seq<T>, elements: set<T>)
    requires Enumerates(order, elements)
    ensures |order| == |elements| && (set x | x in order) == elements
    decreases |order|
  {
    if order == [] {
      assert elements == {};
    } else {
      var n := |order| - 1;
      var rest := order[..n];
      assert forall x :: x in order <==> x in rest || x == order[n];
      assert Enumerates(rest, elements - {order[n]});
      EnumerationSize(rest, elements - {order[n]});
    }
  }

  lemma UserFieldsFit(sch: Schema, qname: QNameId)
    ensures ValidSchema(sch) ==> |UserFields(sch, qname)| < 0x1_0000
  {
  }

  lemma CudReadsBack(sch: Schema, dyn: Dyn, row: Row, nils: seq<Field>, rest: Bytes)
    requires ValidSchema(sch) && ValidRecord(sch, dyn, row) && Enumerates(nils, row.nils)
    ensures DecCud(sch, dyn, CODEC_RDB_2, EncCud(sch, dyn, row, nils) + rest) == Got(row, rest)
  {
    var fields := UserFields(sch, row.qname);
    var indexes := EmptiedIndexes(fields, nils);
    UserFieldsFit(sch, row.qname);
    EmptiedIndexesAreAll(fields, nils);
    EnumerationSize(nils, row.nils);
    CudSplit(sch, dyn, row, nils, rest);
    RowReadsBack(sch, dyn, row, BigEndian(|indexes|, 2) + (EncIndexes(indexes) + rest));
    Uint16ReadsBack(|indexes|, EncIndexes(indexes) + rest);
    IndexesLength(indexes);
    NilsReadBack(fields, nils, {}, rest);
    assert {} + SetOf(nils) == row.nils;
    hide EncCud, EncRow, DecRow, DecUint, BigEndian, DecNils, EncIndexes, EmptiedIndexes, UserFields, ValidSchema, ValidRow, ValidNil, Enumerates;
  }

  ghost predicate ValidCreates(sch: Schema, dyn: Dyn, creates: seq<Row>, nils: seq<seq<Field>>) {
    |creates| == |nils| && forall i | 0 <= i < |creates| :: ValidRecord(sch, dyn, creates[i]) && Enumerates(nils[i], creates[i].nils)
  }

  lemma {:induction false} CreatesReadBack(sch: Schema, dyn: Dyn, creates: seq<Row>, nils: seq<seq<Field>>, rest: Bytes)
    requires ValidSchema(sch) && ValidCreates(sch, dyn, creates, nils)
    ensures DecCreates(sch, dyn, CODEC_RDB_2, |creates|, EncCreates(sch, dyn, creates, nils) + rest) == Got(creates, rest)
  {
    hide ValidRecord, ValidSchema, EncCud, DecCud, Enumerates;
    if creates == [] {
      assert [] + rest == rest;
    } else {
      var more := EncCreates(sch, dyn, creates[1..], nils[1..]);
      assert EncCreates(sch, dyn, creates, nils) + rest == EncCud(sch, dyn, creates[0], nils[0]) + (more + rest);
      CudReadsBack(sch, dyn, creates[0], nils[0], more + rest);
      CreatesReadBack(sch, dyn, creates[1..], nils[1..], rest);
      assert creates == [creates[0]] + creates[1..];
    }
  }

  ghost predicate ValidUpdates(sch: Schema, dyn: Dyn, updates: map<RecordId, Row>, order: seq<RecordId>, nils: map<RecordId, seq<Field>>) {
    forall id | id in order ::
      id in updates && id in nils && updates[id].id == id && ValidRecord(sch, dyn, updates[id]) && Enumerates(nils[id], updates[id].nils)
  }

  /** The map with the updates of the listed records added. */
  function Added(updates: map<RecordId, Row>, order: seq<RecordId>, before: map<RecordId, Row>): map<RecordId, Row>
    requires forall id | id in order :: id in updates
  {
    if order == [] then before else Added(updates, order[1..], before[order[0] := updates[order[0]]])
  }

  lemma {:induction false} AddedAre(updates: map<RecordId, Row>, order: seq<RecordId>, before: map<RecordId, Row>)
    requires forall id | id in order :: id in updates
    ensures var r := Added(updates, order, before);
      forall id :: (id in r <==> id in before || id in order) && (id in r ==> r[id] == if id in order then updates[id] else before[id])
    decreases |order|
  {
    if order != [] {
      assert order == [order[0]] + order[1..];
      AddedAre(updates, order[1..], before[order[0] := updates[order[0]]]);
    }
  }

  lemma {:induction false} UpdatesReadBack(sch: Schema, dyn: Dyn, updates: map<RecordId, Row>, order: seq<RecordId>,
                                           nils: map<RecordId, seq<Field>>, before: map<RecordId, Row>, rest: Bytes)
    requires ValidSchema(sch) && ValidUpdates(sch, dyn, updates, order, nils)
    ensures DecUpdates(sch, dyn, CODEC_RDB_2, |order|, before, EncUpdates(sch, dyn, updates, order, nils) + rest)
      == Got(Added(updates, order, before), rest)
    decreases |order|
  {
    hide ValidRecord, ValidSchema, EncCud, DecCud, Enumerates;
    if order == [] {
      assert [] + rest == rest;
    } else {
      var id := order[0];
      assert id in order;
      var more := EncUpdates(sch, dyn, updates, order[1..], nils);
      assert EncUpdates(sch, dyn, updates, order, nils) + rest == EncCud(sch, dyn, updates[id], nils[id]) + (more + rest);
      CudReadsBack(sch, dyn, updates[id], nils[id], more + rest);
      UpdatesReadBack(sch, dyn, updates, order[1..], nils, before[id := updates[id]], rest);
    }
  }

  /* ---------- objects ---------- */

  lemma ObjSplit(dyn: Dyn, o: Obj, rest: Bytes)
    ensures o.row.qname != NULL_QNAME ==>
      EncObj(dyn, o) + rest == EncRow(dyn, o.row) + (BigEndian(|o.children|, 2) + (EncObjs(dyn, o, o.children) + rest))
  {
    hide EncRow, BigEndian, EncObjs;
  }

  function StoredObjs(os: seq<Obj>): seq<Obj> {
    seq(|os|, i requires 0 <= i < |os| => StoredObj(os[i]))
  }

  lemma ObjStep(sch: Schema, dyn: Dyn, o: Obj, rest: Bytes)
    requires ValidObj(sch, dyn, o) && o.row.qname != NULL_QNAME
    requires DecObjs(sch, dyn, CODEC_RDB_2, |o.children|, EncObjs(dyn, o, o.children) + rest) == Got(StoredObjs(o.children), rest)
    ensures DecObj(sch, dyn, CODEC_RDB_2, EncObj(dyn, o) + rest) == Got(StoredObj(o), rest)
  {
    ObjSplit(dyn, o, rest);
    RowReadsBack(sch, dyn, o.row, BigEndian(|o.children|, 2) + (EncObjs(dyn, o, o.children) + rest));
    Uint16ReadsBack(|o.children|, EncObjs(dyn, o, o.children) + rest);
    assert StoredObj(o) == Obj(o.row.(nils := {}), StoredObjs(o.children));
    hide EncObj, EncRow, DecRow, DecUint, BigEndian, EncObjs, DecObjs, StoredObj, ValidRow;
  }

  lemma NullObjReadsBack(sch: Schema, dyn: Dyn, o: Obj, rest: Bytes)
    requires ValidObj(sch, dyn, o) && o.row.qname == NULL_QNAME
    ensures DecObj(sch, dyn, CODEC_RDB_2, EncObj(dyn, o) + rest) == Got(StoredObj(o), rest)
  {
    RowReadsBack(sch, dyn, o.row, rest);
    assert StoredObj(o) == Obj(o.row.(nils := {}), []);
    hide EncRow, DecRow, ValidRow, StoredObj;
  }

  lemma {:induction false} ObjReadsBack(sch: Schema, dyn: Dyn, o: Obj, rest: Bytes)
    requires ValidObj(sch, dyn, o)
    ensures DecObj(sch, dyn, CODEC_RDB_2, EncObj(dyn, o) + rest) == Got(StoredObj(o), rest)
    decreases o, 1
  {
    if o.row.qname == NULL_QNAME {
      NullObjReadsBack(sch, dyn, o, rest);
    } else {
      ObjsReadBack(sch, dyn, o, o.children, rest);
      hide *;
      ObjStep(sch, dyn, o, rest);
    }
  }

  lemma ObjsSplit(dyn: Dyn, o: Obj, children: seq<Obj>, rest: Bytes)
    requires children != [] && forall i | 0 <= i < |children| :: children[i] in o.children
    ensures EncObjs(dyn, o, children) + rest == EncObj(dyn, children[0]) + (EncObjs(dyn, o, children[1..]) + rest)
    ensures StoredObjs(children) == [StoredObj(children[0])] + StoredObjs(children[1..])
  {
    hide EncObj, StoredObj;
  }

  lemma ObjsStep(sch: Schema, dyn: Dyn, ver: nat, count: nat, bs: Bytes, o: Obj, mid: Bytes, more: seq<Obj>, rest: Bytes)
    requires DecObj(sch, dyn, ver, bs) == Got(o, mid)
    requires DecObjs(sch, dyn, ver, count, mid) == Got(more, rest)
    ensures DecObjs(sch, dyn, ver, count + 1, bs) == Got([o] + more, rest)
  {
    hide DecObj;
  }

  lemma ValidChild(sch: Schema, dyn: Dyn, o: Obj, child: Obj)
    requires ValidObj(sch, dyn, o) && child in o.children
    ensures ValidObj(sch, dyn, child) && child < o
  {
    var k :| 0 <= k < |o.children| && o.children[k] == child;
    assert ValidObj(sch, dyn, o.children[k]);
  }

  lemma NoObjs(sch: Schema, dyn: Dyn, o: Obj, rest: Bytes)
    ensures DecObjs(sch, dyn, CODEC_RDB_2, 0, EncObjs(dyn, o, []) + rest) == Got(StoredObjs([]), rest)
  {
    assert EncObjs(dyn, o, []) + rest == rest;
    assert StoredObjs([]) == [];
  }

  lemma {:induction false} ObjsReadBack(sch: Schema, dyn: Dyn, o: Obj, children: seq<Obj>, rest: Bytes)
    requires ValidObj(sch, dyn, o)
    requires forall i | 0 <= i < |children| :: children[i] in o.children
    ensures DecObjs(sch, dyn, CODEC_RDB_2, |children|, EncObjs(dyn, o, children) + rest) == Got(StoredObjs(children), rest)
    decreases o, 0, |children|
  {
    hide *;
    if children == [] {
      NoObjs(sch, dyn, o, rest);
    } else {
      ValidChild(sch, dyn, o, children[0]);
      var mid := EncObjs(dyn, o, children[1..]) + rest;
      ObjReadsBack(sch, dyn, children[0], mid);
      ObjsReadBack(sch, dyn, o, children[1..], rest);
      ObjsSplit(dyn, o, children, rest);
      ObjsStep(sch, dyn, CODEC_RDB_2, |children| - 1, EncObjs(dyn, o, children) + rest, StoredObj(children[0]), mid, StoredObjs(children[1..]), rest);
    }
  }

  /* ---------- create parameters and build error ---------- */

  function EncSync(p: Params): Bytes
    requires IsInt64(p.syncTime)
  {
    if p.sync then BigEndian(p.device, 2) + EncInt64(p.syncTime) else []
  }

  lemma SyncReadsBack(p: Params, from: Params, rest: Bytes)
    requires ValidParams(p) && from == p.(device := 0, syncTime := 0)
    ensures DecSync(from, EncSync(p) + rest) == Got(StoredParams(p), rest)
  {
    if p.sync {
      assert EncSync(p) + rest == BigEndian(p.device, 2) + (EncInt64(p.syncTime) + rest);
      Uint16ReadsBack(p.device, EncInt64(p.syncTime) + rest);
      Int64ReadsBack(p.syncTime, rest);
    } else {
      assert [] + rest == rest;
    }
    hide DecUint, BigEndian, DecInt64, EncInt64;
  }

  lemma ParamsSplit(p: Params, rest: Bytes)
    requires ValidParams(p)
    ensures EncParams(p) + rest == BigEndian(p.partition, 2) + (BigEndian(p.plogOffs, 8) + (BigEndian(p.ws, 8)
      + (BigEndian(p.wlogOffs, 8) + (EncInt64(p.regTime) + (EncBool(p.sync) + (EncSync(p) + rest))))))
  {
    hide BigEndian, EncInt64, EncBool;
  }

  lemma ParamsReadBack(p: Params, rest: Bytes)
    requires ValidParams(p)
    ensures DecParams(EncParams(p) + rest) == Got(StoredParams(p), rest)
  {
    var b5 := EncSync(p) + rest;
    var b4 := EncBool(p.sync) + b5;
    var b3 := EncInt64(p.regTime) + b4;
    var b2 := BigEndian(p.wlogOffs, 8) + b3;
    var b1 := BigEndian(p.ws, 8) + b2;
    var b0 := BigEndian(p.plogOffs, 8) + b1;
    ParamsSplit(p, rest);
    Uint16ReadsBack(p.partition, b0);
    Uint64ReadsBack(p.plogOffs, b1);
    Uint64ReadsBack(p.ws, b2);
    Uint64ReadsBack(p.wlogOffs, b3);
    Int64ReadsBack(p.regTime, b4);
    BoolReadsBack(p.sync, b5);
    SyncReadsBack(p, p.(device := 0, syncTime := 0), rest);
    hide EncParams, DecUint, BigEndian, DecInt64, EncInt64, DecBool, EncBool, EncSync, DecSync, StoredParams;
  }

  lemma ErrorSplit(sch: Schema, ev: Event, rest: Bytes)
    ensures !IsValid(ev) ==>
      var b := LoggedBytes(ev);
      EncBuildError(sch, ev) + rest == EncBool(false) + (EncShortString(ev.err.errStr) + (EncShortString(NameString(sch, ev.name))
        + (BigEndian(|b|, 4) + (b + rest))))
  {
    hide BigEndian, EncShortString, EncBool, LoggedBytes;
  }

  lemma BuildErrorReadsBack(sch: Schema, ev: Event, rest: Bytes)
    requires ValidSchema(sch) && ev.name in sch.names && |ev.err.bytes| < 0x1_0000_0000
    ensures DecBuildError(EncBuildError(sch, ev) + rest)
      == if IsValid(ev) then Got((true, NO_ERROR), rest)
         else Got((false, BuildError(Short(ev.err.errStr), NameString(sch, ev.name), LoggedBytes(ev))), rest)
  {
    if IsValid(ev) {
      BoolReadsBack(true, rest);
    } else {
      var b := LoggedBytes(ev);
      var name := NameString(sch, ev.name);
      assert Dots(name) == 1 && Short(name) == name;
      var b2 := BigEndian(|b|, 4) + (b + rest);
      ErrorSplit(sch, ev, rest);
      BoolReadsBack(false, EncShortString(ev.err.errStr) + (EncShortString(name) + b2));
      ShortStringReadsBack(ev.err.errStr, EncShortString(name) + b2);
      ShortStringReadsBack(name, b2);
      Uint32ReadsBack(|b|, b + rest);
      BytesReadBack(b, rest);
      hide EncBuildError, DecUint, BigEndian, DecBool, EncBool, EncShortString, DecShortString, DecBytes, Short, Dots, NameString, LoggedBytes, ValidSchema;
    }
    hide DecBool, EncBool;
  }

  /* ---------- events ---------- */

  lemma BodySplit(sch: Schema, dyn: Dyn, ev: Event, ord: Orders, rest: Bytes)
    requires |ord.createNils| == |ev.creates| && forall id | id in ord.updates :: id in ev.updates && id in ord.updateNils
    ensures EncBody(sch, dyn, ev, ord) + rest ==
      EncObj(dyn, ev.arg) + (EncObj(dyn, ev.unl) + (BigEndian(|ev.creates|, 2) + (EncCreates(sch, dyn, ev.creates, ord.createNils)
      + (BigEndian(|ord.updates|, 2) + (EncUpdates(sch, dyn, ev.updates, ord.updates, ord.updateNils) + rest)))))
  {
    hide EncObj, BigEndian, EncCreates, EncUpdates;
  }

  lemma AllUpdates(updates: map<RecordId, Row>, order: seq<RecordId>)
    requires Enumerates(order, updates.Keys)
    ensures |order| == |updates|
    ensures Added(updates, order, map[]) == updates
  {
    EnumerationSize(order, updates.Keys);
    assert |updates.Keys| == |updates|;
    AddedAre(updates, order, map[]);
  }

  lemma BodyStep(sch: Schema, dyn: Dyn, ver: nat, from: Event, arg: Obj, unl: Obj, creates: seq<Row>, updates: map<RecordId, Row>,
                 createCount: nat, updateCount: nat,
                 bs: Bytes, b0: Bytes, b1: Bytes, b2: Bytes, b3: Bytes, b4: Bytes, b5: Bytes)
    requires DecObj(sch, dyn, ver, bs) == Got(arg, b0)
    requires DecObj(sch, dyn, ver, b0) == Got(unl, b1)
    requires DecUint(2, b1) == Got(createCount, b2)
    requires DecCreates(sch, dyn, ver, createCount, b2) == Got(creates, b3)
    requires DecUint(2, b3) == Got(updateCount, b4)
    requires DecUpdates(sch, dyn, ver, updateCount, map[], b4) == Got(updates, b5)
    ensures DecBody(sch, dyn, ver, from, bs)
      == Got(from.(arg := arg, unl := unl, creates := creates, updates := updates), b5)
  {
    hide DecObj, DecUint, DecCreates, DecUpdates;
  }

  lemma ValidParts(sch: Schema, dyn: Dyn, ev: Event, ord: Orders)
    requires ValidEvent(sch, dyn, ev) && OrdersOf(ev, ord)
    ensures ValidSchema(sch) && ValidObj(sch, dyn, ev.arg) && ValidObj(sch, dyn, ev.unl)
    ensures |ev.creates| == |ord.createNils| < 0x1_0000 && |ord.updates| == |ev.updates| < 0x1_0000
    ensures ValidCreates(sch, dyn, ev.creates, ord.createNils)
    ensures ValidUpdates(sch, dyn, ev.updates, ord.updates, ord.updateNils)
    ensures (forall id | id in ord.updates :: id in ev.updates && id in ord.updateNils) && Added(ev.updates, ord.updates, map[]) == ev.updates
  {
    AllUpdates(ev.updates, ord.updates);
    hide ValidSchema, ValidObj, ValidRecord, Added;
  }

  lemma BodyReadsBack(sch: Schema, dyn: Dyn, ev: Event, ord: Orders, from: Event, rest: Bytes)
    requires ValidEvent(sch, dyn, ev) && OrdersOf(ev, ord)
    ensures DecBody(sch, dyn, CODEC_RDB_2, from, EncBody(sch, dyn, ev, ord) + rest)
      == Got(from.(arg := StoredObj(ev.arg), unl := StoredObj(ev.unl), creates := ev.creates, updates := ev.updates), rest)
  {
    hide *;
    ValidParts(sch, dyn, ev, ord);
    var b4 := EncUpdates(sch, dyn, ev.updates, ord.updates, ord.updateNils) + rest;
    var b3 := BigEndian(|ord.updates|, 2) + b4;
    var b2 := EncCreates(sch, dyn, ev.creates, ord.createNils) + b3;
    var b1 := BigEndian(|ev.creates|, 2) + b2;
    var b0 := EncObj(dyn, ev.unl) + b1;
    BodySplit(sch, dyn, ev, ord, rest);
    ObjReadsBack(sch, dyn, ev.arg, b0);
    ObjReadsBack(sch, dyn, ev.unl, b1);
    Uint16ReadsBack(|ev.creates|, b2);
    CreatesReadBack(sch, dyn, ev.creates, ord.createNils, b3);
    Uint16ReadsBack(|ord.updates|, b4);
    UpdatesReadBack(sch, dyn, ev.updates, ord.updates, ord.updateNils, map[], rest);
    BodyStep(sch, dyn, CODEC_RDB_2, from, StoredObj(ev.arg), StoredObj(ev.unl), ev.creates, ev.updates, |ev.creates|, |ord.updates|,
             EncBody(sch, dyn, ev, ord) + rest, b0, b1, b2, b3, b4, rest);
  }

  lemma EventSplit(sch: Schema, dyn: Dyn, ev: Event, ord: Orders, rest: Bytes)
    requires ValidEvent(sch, dyn, ev) && OrdersOf(ev, ord)
    ensures
      var body := (if IsValid(ev) then EncBody(sch, dyn, ev, ord) else []) + rest;
      && EncEvent(sch, dyn, ev, ord) + rest
         == [CODEC_RDB_2] + (BigEndian(StoredName(ev), 2) + (EncParams(ev.params) + (EncBuildError(sch, ev) + body)))
  {
    hide EncBody, EncParams, EncBuildError, BigEndian, StoredName, ValidRecord, ValidObj, Enumerates, ValidSchema;
  }

  lemma StoredNameIsKnown(sch: Schema, dyn: Dyn, ev: Event)
    requires ValidEvent(sch, dyn, ev)
    ensures StoredName(ev) in sch.names && 0 < StoredName(ev) < 0x1_0000
    ensures ev.name in sch.names && |ev.err.bytes| < 0x1_0000_0000 && ValidSchema(sch) && ValidParams(ev.params)
  {
  }

  lemma EventStep(sch: Schema, dyn: Dyn, ver: Byte, name: QNameId, params: Params, valid: bool, err: BuildError, ev: Event,
                  bs: Bytes, b0: Bytes, b1: Bytes, b2: Bytes, rest: Bytes)
    requires bs != [] && bs[0] == ver <= CODEC_RDB_2 && DecUint(2, bs[1..]) == Got(name, b0)
    requires name != NULL_QNAME && name in sch.names
    requires DecParams(b0) == Got(params, b1) && DecBuildError(b1) == Got((valid, err), b2)
    requires
      var from := NO_EVENT.(name := name, params := params, valid := valid, err := err);
      if IsValid(from) then DecBody(sch, dyn, ver, from, b2) == Got(ev, rest) else ev == from && b2 == rest
    ensures DecEvent(sch, dyn, bs) == Got(ev, rest)
  {
    hide DecUint, DecParams, DecBuildError, DecBody, IsValid;
  }

  /** Loading the bytes of any valid event, stored with any iteration order of its maps and followed by
      anything, gives what the event stands for and leaves exactly what followed. */
  lemma EventReadsBack(sch: Schema, dyn: Dyn, ev: Event, ord: Orders, rest: Bytes)
    requires ValidEvent(sch, dyn, ev) && OrdersOf(ev, ord)
    ensures DecEvent(sch, dyn, EncEvent(sch, dyn, ev, ord) + rest) == Got(StoredEvent(sch, ev), rest)
  {
    if IsValid(ev) {
      ValidEventReadsBack(sch, dyn, ev, ord, rest);
    } else {
      InvalidEventReadsBack(sch, dyn, ev, ord, rest);
    }
  }

  lemma FirstByte(head: Byte, tail: Bytes)
    ensures ([head] + tail)[0] == head && ([head] + tail)[1..] == tail
  {
  }

  lemma ValidEventReadsBack(sch: Schema, dyn: Dyn, ev: Event, ord: Orders, rest: Bytes)
    requires ValidEvent(sch, dyn, ev) && OrdersOf(ev, ord) && IsValid(ev)
    ensures DecEvent(sch, dyn, EncEvent(sch, dyn, ev, ord) + rest) == Got(StoredEvent(sch, ev), rest)
  {
    var from := NO_EVENT.(name := ev.name, params := StoredParams(ev.params), valid := true, err := NO_ERROR);
    var result := from.(arg := StoredObj(ev.arg), unl := StoredObj(ev.unl), creates := ev.creates, updates := ev.updates);
    assert StoredName(ev) == ev.name && IsValid(from) && StoredEvent(sch, ev) == result && NULL_QNAME == 0;
    EventSplit(sch, dyn, ev, ord, rest);
    hide *;
    StoredNameIsKnown(sch, dyn, ev);
    var body := EncBody(sch, dyn, ev, ord) + rest;
    var b1 := EncBuildError(sch, ev) + body;
    var b0 := EncParams(ev.params) + b1;
    Uint16ReadsBack(StoredName(ev), b0);
    ParamsReadBack(ev.params, b1);
    BuildErrorReadsBack(sch, ev, body);
    BodyReadsBack(sch, dyn, ev, ord, from, rest);
    FirstByte(CODEC_RDB_2, BigEndian(StoredName(ev), 2) + b0);
    EventStep(sch, dyn, CODEC_RDB_2, ev.name, StoredParams(ev.params), true, NO_ERROR, result,
              EncEvent(sch, dyn, ev, ord) + rest, b0, b1, body, rest);
  }

  lemma InvalidEventReadsBack(sch: Schema, dyn: Dyn, ev: Event, ord: Orders, rest: Bytes)
    requires ValidEvent(sch, dyn, ev) && OrdersOf(ev, ord) && !IsValid(ev)
    ensures DecEvent(sch, dyn, EncEvent(sch, dyn, ev, ord) + rest) == Got(StoredEvent(sch, ev), rest)
  {
    var err := BuildError(Short(ev.err.errStr), NameString(sch, ev.name), LoggedBytes(ev));
    var result := NO_EVENT.(name := StoredName(ev), params := StoredParams(ev.params), valid := false, err := err);
    assert !IsValid(result) && StoredEvent(sch, ev) == result && NULL_QNAME == 0 && [] + rest == rest;
    EventSplit(sch, dyn, ev, ord, rest);
    hide *;
    StoredNameIsKnown(sch, dyn, ev);
    var b1 := EncBuildError(sch, ev) + rest;
    var b0 := EncParams(ev.params) + b1;
    Uint16ReadsBack(StoredName(ev), b0);
    ParamsReadBack(ev.params, b1);
    BuildErrorReadsBack(sch, ev, rest);
    FirstByte(CODEC_RDB_2, BigEndian(StoredName(ev), 2) + b0);
    EventStep(sch, dyn, CODEC_RDB_2, StoredName(ev), StoredParams(ev.params), false, err, result,
              EncEvent(sch, dyn, ev, ord) + rest, b0, b1, rest, rest);
  }
}
