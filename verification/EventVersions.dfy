/** Data stored by the earlier codec versions is still read: codec 0 stored the system fields that the kind of the
    type has, without a mask, and neither codec 0 nor codec 1 stored emptied fields. */
module EventVersions {
  import opened Options
  import opened Bytes
  import opened EventCodec
  import opened EventRoundTrip
  import opened CudApply

  predicate Earlier(ver: nat) {
    ver == CODEC_RAW || ver == CODEC_RDB_1
  }

  /* ---------- what the earlier versions stored ---------- */

  function OldSysFields(sch: Schema, ver: nat, row: Row): Bytes
    requires row.qname in sch.types
  {
    if ver == CODEC_RAW then
      var kind := sch.types[row.qname].sysMask;
      (if HasBit(kind, 1) then BigEndian(row.id, 8) else [])
      + ((if HasBit(kind, 2) then BigEndian(row.parent, 8) else [])
      + ((if HasBit(kind, 4) then BigEndian(row.container, 2) else [])
      + (if HasBit(kind, 8) then EncBool(row.active) else [])))
    else EncSysFields(row)
  }

  function OldRow(sch: Schema, dyn: Dyn, ver: nat, row: Row): Bytes
    requires row.qname != NULL_QNAME ==> row.qname in sch.types
  {
    if row.qname == NULL_QNAME then BigEndian(row.qname, 2)
    else
      var b := dyn.enc(row.fields);
      BigEndian(row.qname, 2) + (OldSysFields(sch, ver, row) + (BigEndian(|b|, 4) + b))
  }

  ghost predicate KnownTypes(sch: Schema, o: Obj)
    decreases o
  {
    && (o.row.qname != NULL_QNAME ==> o.row.qname in sch.types)
    && forall i | 0 <= i < |o.children| :: KnownTypes(sch, o.children[i])
  }

  ghost function OldObj(sch: Schema, dyn: Dyn, ver: nat, o: Obj): Bytes
    requires KnownTypes(sch, o)
    decreases o, 1
  {
    if o.row.qname == NULL_QNAME then OldRow(sch, dyn, ver, o.row)
    else OldRow(sch, dyn, ver, o.row) + (BigEndian(|o.children|, 2) + OldObjs(sch, dyn, ver, o, o.children))
  }

  ghost function OldObjs(sch: Schema, dyn: Dyn, ver: nat, o: Obj, children: seq<Obj>): Bytes
    requires forall i | 0 <= i < |children| :: children[i] in o.children && KnownTypes(sch, children[i])
    decreases o, 0, |children|
  {
    if children == [] then []
    else
      assert children[0] in o.children;
      OldObj(sch, dyn, ver, children[0]) + OldObjs(sch, dyn, ver, o, children[1..])
  }

  predicate KnownRows(sch: Schema, rows: seq<Row>) {
    forall i | 0 <= i < |rows| :: rows[i].qname != NULL_QNAME ==> rows[i].qname in sch.types
  }

  function OldRows(sch: Schema, dyn: Dyn, ver: nat, rows: seq<Row>): Bytes
    requires KnownRows(sch, rows)
  {
    if rows == [] then [] else OldRow(sch, dyn, ver, rows[0]) + OldRows(sch, dyn, ver, rows[1..])
  }

  /** The updates in the order of iteration. */
  function UpdateRows(ev: Event, order: seq<RecordId>): seq<Row>
    requires forall id | id in order :: id in ev.updates
  {
    seq(|order|, i requires 0 <= i < |order| => ev.updates[order[i]])
  }

  ghost predicate KnownEvent(sch: Schema, ev: Event, order: seq<RecordId>) {
    && IsInt64(ev.params.regTime) && IsInt64(ev.params.syncTime)
    && KnownTypes(sch, ev.arg) && KnownTypes(sch, ev.unl) && KnownRows(sch, ev.creates)
    && (forall id | id in order :: id in ev.updates) && KnownRows(sch, UpdateRows(ev, order))
  }

  ghost function OldBody(sch: Schema, dyn: Dyn, ver: nat, ev: Event, order: seq<RecordId>): Bytes
    requires KnownEvent(sch, ev, order)
  {
    OldObj(sch, dyn, ver, ev.arg) + (OldObj(sch, dyn, ver, ev.unl)
    + (BigEndian(|ev.creates|, 2) + (OldRows(sch, dyn, ver, ev.creates)
    + (BigEndian(|order|, 2) + OldRows(sch, dyn, ver, UpdateRows(ev, order))))))
  }

  ghost function OldEvent(sch: Schema, dyn: Dyn, ver: Byte, ev: Event, order: seq<RecordId>): Bytes
    requires KnownEvent(sch, ev, order)
  {
    [ver] + (BigEndian(StoredName(ev), 2) + (EncParams(ev.params) + (EncBuildError(sch, ev)
    + (if IsValid(ev) then OldBody(sch, dyn, ver, ev, order) else []))))
  }

  /* ---------- what they could store ---------- */

  /** In codec 0 a row has no system fields but those of its kind. */
  predicate FitsKind(sch: Schema, ver: nat, row: Row) {
    ver == CODEC_RAW && row.qname in sch.types ==>
      var kind := sch.types[row.qname].sysMask;
      && (row.id != 0 ==> HasBit(kind, 1)) && (row.parent != 0 ==> HasBit(kind, 2))
      && (row.container != 0 ==> HasBit(kind, 4)) && (!row.active ==> HasBit(kind, 8))
  }

  ghost predicate OldValidRow(sch: Schema, dyn: Dyn, ver: nat, row: Row) {
    ValidRow(sch, dyn, row.(nils := {})) && FitsKind(sch, ver, row)
  }

  ghost predicate OldValidObj(sch: Schema, dyn: Dyn, ver: nat, o: Obj)
    decreases o
  {
    && OldValidRow(sch, dyn, ver, o.row)
    && (o.row.qname == NULL_QNAME ==> o.children == [])
    && |o.children| < 0x1_0000
    && forall i | 0 <= i < |o.children| :: OldValidObj(sch, dyn, ver, o.children[i])
  }

  ghost predicate OldValidRows(sch: Schema, dyn: Dyn, ver: nat, rows: seq<Row>) {
    forall i | 0 <= i < |rows| :: OldValidRow(sch, dyn, ver, rows[i])
  }

  ghost predicate OldValidEvent(sch: Schema, dyn: Dyn, ver: nat, ev: Event) {
    && ValidSchema(sch)
    && ev.name != NULL_QNAME && ev.name < 0x1_0000 && ev.name in sch.names
    && ValidParams(ev.params)
    && |ev.err.bytes| < 0x1_0000_0000
    && OldValidObj(sch, dyn, ver, ev.arg) && OldValidObj(sch, dyn, ver, ev.unl)
    && |ev.creates| < 0x1_0000 && OldValidRows(sch, dyn, ver, ev.creates)
    && |ev.updates| < 0x1_0000
    && (forall id | id in ev.updates :: ev.updates[id].id == id && OldValidRow(sch, dyn, ver, ev.updates[id]))
  }

  /* ---------- rows ---------- */

  function Plain(row: Row): Row {
    row.(nils := {})
  }

  function PlainRows(rows: seq<Row>): seq<Row> {
    seq(|rows|, i requires 0 <= i < |rows| => Plain(rows[i]))
  }

  lemma DecIfReadsBack(present: bool, x: nat, size: nat, rest: Bytes)
    requires x < Pow256(size) && (!present ==> x == 0)
    ensures DecIf(present, size, (if present then BigEndian(x, size) else []) + rest) == Got(x, rest)
  {
    if present {
      UintReadsBack(size, x, rest);
    } else {
      assert [] + rest == rest;
    }
    hide DecUint, BigEndian;
  }

  lemma RawSplit(sch: Schema, row: Row, rest: Bytes)
    requires row.qname in sch.types
    ensures
      var kind := sch.types[row.qname].sysMask;
      OldSysFields(sch, CODEC_RAW, row) + rest
      == (if HasBit(kind, 1) then BigEndian(row.id, 8) else [])
         + ((if HasBit(kind, 2) then BigEndian(row.parent, 8) else [])
         + ((if HasBit(kind, 4) then BigEndian(row.container, 2) else [])
         + ((if HasBit(kind, 8) then EncBool(row.active) else []) + rest)))
  {
    hide BigEndian, HasBit, EncBool;
  }

  lemma RawSysFieldsReadBack(sch: Schema, dyn: Dyn, row: Row, from: Row, rest: Bytes)
    requires row.qname != NULL_QNAME && OldValidRow(sch, dyn, CODEC_RAW, row)
    requires from == NULL_ROW.(qname := row.qname)
    ensures DecSysFields(sch, CODEC_RAW, from, OldSysFields(sch, CODEC_RAW, row) + rest)
      == Got(row.(fields := map[], nils := {}), rest)
  {
    var kind := sch.types[row.qname].sysMask;
    var b3 := (if HasBit(kind, 8) then EncBool(row.active) else []) + rest;
    var b2 := (if HasBit(kind, 4) then BigEndian(row.container, 2) else []) + b3;
    var b1 := (if HasBit(kind, 2) then BigEndian(row.parent, 8) else []) + b2;
    var b0 := (if HasBit(kind, 1) then BigEndian(row.id, 8) else []) + b1;
    RowFits(sch, dyn, row.(nils := {}));
    FitsKindIs(sch, row);
    hide *;
    RawSplit(sch, row, rest);
    DecIfReadsBack(HasBit(kind, 1), row.id, 8, b1);
    DecIfReadsBack(HasBit(kind, 2), row.parent, 8, b2);
    DecIfReadsBack(HasBit(kind, 4), row.container, 2, b3);
    SysFieldsParts(sch, CODEC_RAW, from, OldSysFields(sch, CODEC_RAW, row) + rest);
    MaskedStep(sch, kind, from, row.id, row.parent, row.container, b0, b1, b2, b3);
    RawActiveReadsBack(sch, kind, row, from.(id := row.id, parent := row.parent, container := row.container), rest);
  }

  lemma FitsKindIs(sch: Schema, row: Row)
    requires row.qname in sch.types && FitsKind(sch, CODEC_RAW, row)
    ensures
      var kind := sch.types[row.qname].sysMask;
      && (row.id != 0 ==> HasBit(kind, 1)) && (row.parent != 0 ==> HasBit(kind, 2))
      && (row.container != 0 ==> HasBit(kind, 4)) && (!row.active ==> HasBit(kind, 8))
  {
    hide HasBit;
  }

  lemma RawActiveReadsBack(sch: Schema, mask: nat, row: Row, from: Row, rest: Bytes)
    requires (!row.active ==> HasBit(mask, 8)) && from.active
    requires from.container == row.container && (row.container != 0 ==> row.container in sch.containers)
    ensures DecActive(sch, mask, from, (if HasBit(mask, 8) then EncBool(row.active) else []) + rest) == Got(from.(active := row.active), rest)
  {
    BoolReadsBack(row.active, rest);
    assert [] + rest == rest;
    hide HasBit, DecBool, EncBool;
  }

  /** Codec 1 has the system fields of codec 2. */
  lemma MaskedSysFields(sch: Schema, row: Row, bs: Bytes)
    requires row.qname in sch.types
    ensures DecSysFields(sch, CODEC_RDB_1, row, bs) == DecSysFields(sch, CODEC_RDB_2, row, bs)
  {
    hide DecUint, DecIf, DecBool, HasBit;
  }

  lemma OldSysFieldsReadBack(sch: Schema, dyn: Dyn, ver: nat, row: Row, from: Row, rest: Bytes)
    requires Earlier(ver) && row.qname != NULL_QNAME && OldValidRow(sch, dyn, ver, row)
    requires from == NULL_ROW.(qname := row.qname)
    ensures DecSysFields(sch, ver, from, OldSysFields(sch, ver, row) + rest) == Got(row.(fields := map[], nils := {}), rest)
  {
    if ver == CODEC_RAW {
      RawSysFieldsReadBack(sch, dyn, row, from, rest);
    } else {
      MaskedSysFields(sch, from, EncSysFields(row) + rest);
      SysFieldsReadBack(sch, dyn, Plain(row), from, rest);
    }
    hide DecSysFields, EncSysFields, Faithful;
  }

  lemma OldRowSplit(sch: Schema, dyn: Dyn, ver: nat, row: Row, rest: Bytes)
    requires row.qname != NULL_QNAME && row.qname in sch.types
    ensures
      var b := dyn.enc(row.fields);
      OldRow(sch, dyn, ver, row) + rest == BigEndian(row.qname, 2) + (OldSysFields(sch, ver, row) + (BigEndian(|b|, 4) + (b + rest)))
  {
    hide BigEndian, OldSysFields;
  }

  lemma ValidIsKnown(sch: Schema, dyn: Dyn, ver: nat, row: Row)
    requires OldValidRow(sch, dyn, ver, row)
    ensures row.qname != NULL_QNAME ==> row.qname in sch.types
  {
  }

  /** A row of an earlier version reads back. */
  lemma OldRowReadsBack(sch: Schema, dyn: Dyn, ver: nat, row: Row, rest: Bytes)
    requires Earlier(ver) && OldValidRow(sch, dyn, ver, row)
    ensures row.qname != NULL_QNAME ==> row.qname in sch.types
    ensures DecRow(sch, dyn, ver, OldRow(sch, dyn, ver, row) + rest) == Got(Plain(row), rest)
  {
    if row.qname == NULL_QNAME {
      Uint16ReadsBack(0, rest);
      hide DecUint, BigEndian, DecSysFields;
    } else {
      var b := dyn.enc(row.fields);
      OldRowSplit(sch, dyn, ver, row, rest);
      Uint16ReadsBack(row.qname, OldSysFields(sch, ver, row) + (BigEndian(|b|, 4) + (b + rest)));
      OldSysFieldsReadBack(sch, dyn, ver, row, NULL_ROW.(qname := row.qname), BigEndian(|b|, 4) + (b + rest));
      Uint32ReadsBack(|b|, b + rest);
      BytesReadBack(b, rest);
      hide OldRow, OldSysFields, DecUint, BigEndian, DecSysFields, DecBytes, FitsKind;
    }
  }

  /** Creates and updates were stored as rows, without a list of emptied fields. */
  lemma OldCudReadsBack(sch: Schema, dyn: Dyn, ver: nat, row: Row, rest: Bytes)
    requires Earlier(ver) && OldValidRow(sch, dyn, ver, row)
    ensures row.qname != NULL_QNAME ==> row.qname in sch.types
    ensures DecCud(sch, dyn, ver, OldRow(sch, dyn, ver, row) + rest) == Got(Plain(row), rest)
  {
    OldRowReadsBack(sch, dyn, ver, row, rest);
    hide DecRow, OldRow, OldValidRow;
  }

  /** A record that an earlier version stored loads as itself without emptied fields. */
  lemma OldRecordReadsBack(sch: Schema, dyn: Dyn, ver: Byte, row: Row)
    requires Earlier(ver) && OldValidRow(sch, dyn, ver, row)
    ensures row.qname != NULL_QNAME ==> row.qname in sch.types
    ensures LoadRecord(sch, dyn, [ver] + OldRow(sch, dyn, ver, row)) == Got(Plain(row), [])
  {
    OldRowReadsBack(sch, dyn, ver, row, []);
    var bs := OldRow(sch, dyn, ver, row);
    assert bs + [] == bs && ([ver] + bs)[1..] == bs;
    hide DecRow, OldRow, OldValidRow;
  }

  /* ---------- creates and updates ---------- */

  lemma RowsSplit(sch: Schema, dyn: Dyn, ver: nat, rows: seq<Row>, rest: Bytes)
    requires KnownRows(sch, rows) && rows != []
    ensures OldRows(sch, dyn, ver, rows) + rest == OldRow(sch, dyn, ver, rows[0]) + (OldRows(sch, dyn, ver, rows[1..]) + rest)
    ensures PlainRows(rows) == [Plain(rows[0])] + PlainRows(rows[1..])
  {
    hide OldRow;
  }

  lemma {:induction false} OldCreatesReadBack(sch: Schema, dyn: Dyn, ver: nat, creates: seq<Row>, rest: Bytes)
    requires Earlier(ver) && OldValidRows(sch, dyn, ver, creates) && KnownRows(sch, creates)
    ensures DecCreates(sch, dyn, ver, |creates|, OldRows(sch, dyn, ver, creates) + rest) == Got(PlainRows(creates), rest)
  {
    hide OldValidRow, DecCud, OldRow;
    if creates == [] {
      assert [] + rest == rest && PlainRows(creates) == [];
    } else {
      RowsSplit(sch, dyn, ver, creates, rest);
      OldCudReadsBack(sch, dyn, ver, creates[0], OldRows(sch, dyn, ver, creates[1..]) + rest);
      OldCreatesReadBack(sch, dyn, ver, creates[1..], rest);
    }
  }

  /** The map with the rows added in their order. */
  function Collected(rows: seq<Row>, before: map<RecordId, Row>): map<RecordId, Row> {
    if rows == [] then before else Collected(rows[1..], before[rows[0].id := Plain(rows[0])])
  }

  lemma {:induction false} OldUpdatesReadBack(sch: Schema, dyn: Dyn, ver: nat, rows: seq<Row>, before: map<RecordId, Row>, rest: Bytes)
    requires Earlier(ver) && OldValidRows(sch, dyn, ver, rows) && KnownRows(sch, rows)
    ensures DecUpdates(sch, dyn, ver, |rows|, before, OldRows(sch, dyn, ver, rows) + rest) == Got(Collected(rows, before), rest)
    decreases |rows|
  {
    hide OldValidRow, DecCud, OldRow;
    if rows == [] {
      assert [] + rest == rest;
    } else {
      RowsSplit(sch, dyn, ver, rows, rest);
      OldCudReadsBack(sch, dyn, ver, rows[0], OldRows(sch, dyn, ver, rows[1..]) + rest);
      OldUpdatesReadBack(sch, dyn, ver, rows[1..], before[rows[0].id := Plain(rows[0])], rest);
    }
  }

  lemma {:induction false} CollectedAre(ev: Event, order: seq<RecordId>, before: map<RecordId, Row>)
    requires forall id | id in order :: id in ev.updates && ev.updates[id].id == id
    ensures var r := Collected(UpdateRows(ev, order), before);
      forall id :: (id in r <==> id in before || id in order)
                   && (id in r ==> r[id] == if id in order then Plain(ev.updates[id]) else before[id])
    decreases |order|
  {
    if order != [] {
      assert order == [order[0]] + order[1..] && order[0] in order;
      assert UpdateRows(ev, order)[1..] == UpdateRows(ev, order[1..]);
      CollectedAre(ev, order[1..], before[order[0] := Plain(ev.updates[order[0]])]);
    }
    hide Plain;
  }

  /* ---------- objects ---------- */

  lemma {:induction false} ValidObjIsKnown(sch: Schema, dyn: Dyn, ver: nat, o: Obj)
    requires OldValidObj(sch, dyn, ver, o)
    ensures KnownTypes(sch, o)
    decreases o
  {
    ValidIsKnown(sch, dyn, ver, o.row);
    forall i | 0 <= i < |o.children| ensures KnownTypes(sch, o.children[i]) {
      ValidObjIsKnown(sch, dyn, ver, o.children[i]);
    }
    hide OldValidRow;
  }

  lemma OldObjSplit(sch: Schema, dyn: Dyn, ver: nat, o: Obj, rest: Bytes)
    requires KnownTypes(sch, o) && o.row.qname != NULL_QNAME
    ensures OldObj(sch, dyn, ver, o) + rest
      == OldRow(sch, dyn, ver, o.row) + (BigEndian(|o.children|, 2) + (OldObjs(sch, dyn, ver, o, o.children) + rest))
  {
    hide OldRow, BigEndian, OldObjs;
  }

  lemma OldObjStep(sch: Schema, dyn: Dyn, ver: nat, o: Obj, rest: Bytes)
    requires Earlier(ver) && OldValidObj(sch, dyn, ver, o) && KnownTypes(sch, o) && o.row.qname != NULL_QNAME
    requires DecObjs(sch, dyn, ver, |o.children|, OldObjs(sch, dyn, ver, o, o.children) + rest) == Got(StoredObjs(o.children), rest)
    ensures DecObj(sch, dyn, ver, OldObj(sch, dyn, ver, o) + rest) == Got(StoredObj(o), rest)
  {
    OldObjSplit(sch, dyn, ver, o, rest);
    OldRowReadsBack(sch, dyn, ver, o.row, BigEndian(|o.children|, 2) + (OldObjs(sch, dyn, ver, o, o.children) + rest));
    Uint16ReadsBack(|o.children|, OldObjs(sch, dyn, ver, o, o.children) + rest);
    assert StoredObj(o) == Obj(Plain(o.row), StoredObjs(o.children));
    hide OldObj, OldRow, DecRow, DecUint, BigEndian, OldObjs, DecObjs, StoredObj, OldValidRow;
  }

  lemma OldNullObjReadsBack(sch: Schema, dyn: Dyn, ver: nat, o: Obj, rest: Bytes)
    requires Earlier(ver) && OldValidObj(sch, dyn, ver, o) && KnownTypes(sch, o) && o.row.qname == NULL_QNAME
    ensures DecObj(sch, dyn, ver, OldObj(sch, dyn, ver, o) + rest) == Got(StoredObj(o), rest)
  {
    OldRowReadsBack(sch, dyn, ver, o.row, rest);
    assert StoredObj(o) == Obj(Plain(o.row), []);
    hide OldRow, DecRow, OldValidRow, StoredObj;
  }

  lemma {:induction false} OldObjReadsBack(sch: Schema, dyn: Dyn, ver: nat, o: Obj, rest: Bytes)
    requires Earlier(ver) && OldValidObj(sch, dyn, ver, o) && KnownTypes(sch, o)
    ensures DecObj(sch, dyn, ver, OldObj(sch, dyn, ver, o) + rest) == Got(StoredObj(o), rest)
    decreases o, 1
  {
    if o.row.qname == NULL_QNAME {
      OldNullObjReadsBack(sch, dyn, ver, o, rest);
    } else {
      KnownChildren(sch, o);
      OldObjsReadBack(sch, dyn, ver, o, o.children, rest);
      hide *;
      OldObjStep(sch, dyn, ver, o, rest);
    }
  }

  lemma KnownChildren(sch: Schema, o: Obj)
    requires KnownTypes(sch, o)
    ensures forall i | 0 <= i < |o.children| :: o.children[i] in o.children && KnownTypes(sch, o.children[i])
  {
  }

  lemma OldValidChild(sch: Schema, dyn: Dyn, ver: nat, o: Obj, child: Obj)
    requires OldValidObj(sch, dyn, ver, o) && child in o.children
    ensures OldValidObj(sch, dyn, ver, child) && child < o
  {
    var k :| 0 <= k < |o.children| && o.children[k] == child;
    assert OldValidObj(sch, dyn, ver, o.children[k]);
  }

  lemma OldObjsSplit(sch: Schema, dyn: Dyn, ver: nat, o: Obj, children: seq<Obj>, rest: Bytes)
    requires children != [] && forall i | 0 <= i < |children| :: children[i] in o.children && KnownTypes(sch, children[i])
    ensures OldObjs(sch, dyn, ver, o, children) + rest
      == OldObj(sch, dyn, ver, children[0]) + (OldObjs(sch, dyn, ver, o, children[1..]) + rest)
    ensures StoredObjs(children) == [StoredObj(children[0])] + StoredObjs(children[1..])
  {
    hide OldObj, StoredObj;
  }

  lemma NoOldObjs(sch: Schema, dyn: Dyn, ver: nat, o: Obj, rest: Bytes)
    ensures DecObjs(sch, dyn, ver, 0, OldObjs(sch, dyn, ver, o, []) + rest) == Got(StoredObjs([]), rest)
  {
    assert OldObjs(sch, dyn, ver, o, []) + rest == rest;
    assert StoredObjs([]) == [];
  }

  lemma {:induction false} OldObjsReadBack(sch: Schema, dyn: Dyn, ver: nat, o: Obj, children: seq<Obj>, rest: Bytes)
    requires Earlier(ver) && OldValidObj(sch, dyn, ver, o)
    requires forall i | 0 <= i < |children| :: children[i] in o.children && KnownTypes(sch, children[i])
    ensures DecObjs(sch, dyn, ver, |children|, OldObjs(sch, dyn, ver, o, children) + rest) == Got(StoredObjs(children), rest)
    decreases o, 0, |children|
  {
    hide *;
    if children == [] {
      NoOldObjs(sch, dyn, ver, o, rest);
    } else {
      OldValidChild(sch, dyn, ver, o, children[0]);
      var mid := OldObjs(sch, dyn, ver, o, children[1..]) + rest;
      OldObjReadsBack(sch, dyn, ver, children[0], mid);
      OldObjsReadBack(sch, dyn, ver, o, children[1..], rest);
      OldObjsSplit(sch, dyn, ver, o, children, rest);
      ObjsStep(sch, dyn, ver, |children| - 1, OldObjs(sch, dyn, ver, o, children) + rest, StoredObj(children[0]), mid,
               StoredObjs(children[1..]), rest);
    }
  }

  /* ---------- events ---------- */

  /** Every update without its emptied fields. */
  function PlainUpdates(updates: map<RecordId, Row>): map<RecordId, Row> {
    map id | id in updates :: Plain(updates[id])
  }

  /** What an event of an earlier version stands for. */
  function OldStoredEvent(sch: Schema, ev: Event): Event {
    if IsValid(ev) then StoredEvent(sch, ev).(creates := PlainRows(ev.creates), updates := PlainUpdates(ev.updates))
    else StoredEvent(sch, ev)
  }

  lemma OldValidParts(sch: Schema, dyn: Dyn, ver: nat, ev: Event, order: seq<RecordId>)
    requires OldValidEvent(sch, dyn, ver, ev) && Enumerates(order, ev.updates.Keys)
    ensures KnownEvent(sch, ev, order)
    ensures OldValidRows(sch, dyn, ver, ev.creates) && OldValidRows(sch, dyn, ver, UpdateRows(ev, order))
    ensures OldValidObj(sch, dyn, ver, ev.arg) && OldValidObj(sch, dyn, ver, ev.unl)
    ensures |ev.creates| < 0x1_0000 && |UpdateRows(ev, order)| == |order| < 0x1_0000
    ensures Collected(UpdateRows(ev, order), map[]) == PlainUpdates(ev.updates)
  {
    hide OldValidRow, OldValidObj, KnownTypes, ValidSchema;
    ValidObjIsKnown(sch, dyn, ver, ev.arg);
    ValidObjIsKnown(sch, dyn, ver, ev.unl);
    EnumerationSize(order, ev.updates.Keys);
    assert |ev.updates.Keys| == |ev.updates|;
    forall i | 0 <= i < |order| ensures order[i] in ev.updates { assert order[i] in order; }
    var rows := UpdateRows(ev, order);
    ValidRowsAreKnown(sch, dyn, ver, ev.creates);
    ValidRowsAreKnown(sch, dyn, ver, rows);
    CollectedAre(ev, order, map[]);
    assert Collected(rows, map[]) == PlainUpdates(ev.updates);
  }

  lemma ValidRowsAreKnown(sch: Schema, dyn: Dyn, ver: nat, rows: seq<Row>)
    requires OldValidRows(sch, dyn, ver, rows)
    ensures KnownRows(sch, rows)
  {
    forall i | 0 <= i < |rows|
      ensures rows[i].qname != NULL_QNAME ==> rows[i].qname in sch.types
    {
      ValidIsKnown(sch, dyn, ver, rows[i]);
    }
    hide OldValidRow;
  }

  lemma OldBodySplit(sch: Schema, dyn: Dyn, ver: nat, ev: Event, order: seq<RecordId>, rest: Bytes)
    requires KnownEvent(sch, ev, order)
    ensures OldBody(sch, dyn, ver, ev, order) + rest ==
      OldObj(sch, dyn, ver, ev.arg) + (OldObj(sch, dyn, ver, ev.unl) + (BigEndian(|ev.creates|, 2)
      + (OldRows(sch, dyn, ver, ev.creates) + (BigEndian(|order|, 2) + (OldRows(sch, dyn, ver, UpdateRows(ev, order)) + rest)))))
  {
    hide OldObj, BigEndian, OldRows;
  }

  lemma KnownParts(sch: Schema, ev: Event, order: seq<RecordId>)
    requires KnownEvent(sch, ev, order)
    ensures KnownTypes(sch, ev.arg) && KnownTypes(sch, ev.unl) && KnownRows(sch, ev.creates)
    ensures (forall id | id in order :: id in ev.updates) && KnownRows(sch, UpdateRows(ev, order))
  {
  }

  lemma OldBodyReadsBack(sch: Schema, dyn: Dyn, ver: nat, ev: Event, order: seq<RecordId>, from: Event, rest: Bytes)
    requires Earlier(ver) && OldValidEvent(sch, dyn, ver, ev) && Enumerates(order, ev.updates.Keys)
    ensures KnownEvent(sch, ev, order)
    ensures DecBody(sch, dyn, ver, from, OldBody(sch, dyn, ver, ev, order) + rest)
      == Got(from.(arg := StoredObj(ev.arg), unl := StoredObj(ev.unl), creates := PlainRows(ev.creates),
                   updates := PlainUpdates(ev.updates)), rest)
  {
    hide *;
    OldValidParts(sch, dyn, ver, ev, order);
    KnownParts(sch, ev, order);
    var b4 := OldRows(sch, dyn, ver, UpdateRows(ev, order)) + rest;
    var b3 := BigEndian(|order|, 2) + b4;
    var b2 := OldRows(sch, dyn, ver, ev.creates) + b3;
    var b1 := BigEndian(|ev.creates|, 2) + b2;
    var b0 := OldObj(sch, dyn, ver, ev.unl) + b1;
    OldBodySplit(sch, dyn, ver, ev, order, rest);
    OldObjReadsBack(sch, dyn, ver, ev.arg, b0);
    OldObjReadsBack(sch, dyn, ver, ev.unl, b1);
    Uint16ReadsBack(|ev.creates|, b2);
    OldCreatesReadBack(sch, dyn, ver, ev.creates, b3);
    Uint16ReadsBack(|order|, b4);
    OldUpdatesReadBack(sch, dyn, ver, UpdateRows(ev, order), map[], rest);
    BodyStep(sch, dyn, ver, from, StoredObj(ev.arg), StoredObj(ev.unl), PlainRows(ev.creates), PlainUpdates(ev.updates),
             |ev.creates|, |order|, OldBody(sch, dyn, ver, ev, order) + rest, b0, b1, b2, b3, b4, rest);
  }

  lemma OldEventSplit(sch: Schema, dyn: Dyn, ver: Byte, ev: Event, order: seq<RecordId>, rest: Bytes)
    requires KnownEvent(sch, ev, order)
    ensures OldEvent(sch, dyn, ver, ev, order) + rest
      == [ver] + (BigEndian(StoredName(ev), 2) + (EncParams(ev.params) + (EncBuildError(sch, ev)
         + ((if IsValid(ev) then OldBody(sch, dyn, ver, ev, order) else []) + rest))))
  {
    hide OldBody, EncParams, EncBuildError, BigEndian, StoredName;
  }

  lemma OldNameIsKnown(sch: Schema, dyn: Dyn, ver: nat, ev: Event)
    requires OldValidEvent(sch, dyn, ver, ev)
    ensures StoredName(ev) in sch.names && 0 < StoredName(ev) < 0x1_0000
    ensures ev.name in sch.names && |ev.err.bytes| < 0x1_0000_0000 && ValidSchema(sch) && ValidParams(ev.params)
  {
    hide OldValidObj, OldValidRow;
  }

  /** Any event that codec 0 or 1 could store, in any iteration order of its updates and followed by anything,
      is read as it is without emptied fields, and leaves exactly what followed. */
  lemma OldEventReadsBack(sch: Schema, dyn: Dyn, ver: Byte, ev: Event, order: seq<RecordId>, rest: Bytes)
    requires Earlier(ver) && OldValidEvent(sch, dyn, ver, ev) && Enumerates(order, ev.updates.Keys)
    ensures KnownEvent(sch, ev, order)
    ensures DecEvent(sch, dyn, OldEvent(sch, dyn, ver, ev, order) + rest) == Got(OldStoredEvent(sch, ev), rest)
  {
    OldValidParts(sch, dyn, ver, ev, order);
    if IsValid(ev) {
      OldValidEventReadsBack(sch, dyn, ver, ev, order, rest);
    } else {
      OldInvalidEventReadsBack(sch, dyn, ver, ev, order, rest);
    }
    hide *;
  }

  lemma OldValidEventReadsBack(sch: Schema, dyn: Dyn, ver: Byte, ev: Event, order: seq<RecordId>, rest: Bytes)
    requires Earlier(ver) && OldValidEvent(sch, dyn, ver, ev) && Enumerates(order, ev.updates.Keys) && IsValid(ev)
    requires KnownEvent(sch, ev, order)
    ensures DecEvent(sch, dyn, OldEvent(sch, dyn, ver, ev, order) + rest) == Got(OldStoredEvent(sch, ev), rest)
  {
    var from := NO_EVENT.(name := ev.name, params := StoredParams(ev.params), valid := true, err := NO_ERROR);
    var result := from.(arg := StoredObj(ev.arg), unl := StoredObj(ev.unl), creates := PlainRows(ev.creates),
                        updates := PlainUpdates(ev.updates));
    assert StoredName(ev) == ev.name && IsValid(from) && OldStoredEvent(sch, ev) == result && NULL_QNAME == 0;
    assert ver <= CODEC_RDB_2;
    OldEventSplit(sch, dyn, ver, ev, order, rest);
    hide *;
    OldNameIsKnown(sch, dyn, ver, ev);
    var body := OldBody(sch, dyn, ver, ev, order) + rest;
    var b1 := EncBuildError(sch, ev) + body;
    var b0 := EncParams(ev.params) + b1;
    Uint16ReadsBack(StoredName(ev), b0);
    ParamsReadBack(ev.params, b1);
    BuildErrorReadsBack(sch, ev, body);
    OldBodyReadsBack(sch, dyn, ver, ev, order, from, rest);
    FirstByte(ver, BigEndian(StoredName(ev), 2) + b0);
    EventStep(sch, dyn, ver, ev.name, StoredParams(ev.params), true, NO_ERROR, result,
              OldEvent(sch, dyn, ver, ev, order) + rest, b0, b1, body, rest);
  }

  lemma OldInvalidEventReadsBack(sch: Schema, dyn: Dyn, ver: Byte, ev: Event, order: seq<RecordId>, rest: Bytes)
    requires Earlier(ver) && OldValidEvent(sch, dyn, ver, ev) && !IsValid(ev) && KnownEvent(sch, ev, order)
    ensures DecEvent(sch, dyn, OldEvent(sch, dyn, ver, ev, order) + rest) == Got(OldStoredEvent(sch, ev), rest)
  {
    var err := BuildError(Short(ev.err.errStr), NameString(sch, ev.name), LoggedBytes(ev));
    var result := NO_EVENT.(name := StoredName(ev), params := StoredParams(ev.params), valid := false, err := err);
    assert !IsValid(result) && OldStoredEvent(sch, ev) == result && NULL_QNAME == 0 && [] + rest == rest && ver <= CODEC_RDB_2;
    OldEventSplit(sch, dyn, ver, ev, order, rest);
    hide *;
    OldNameIsKnown(sch, dyn, ver, ev);
    var b1 := EncBuildError(sch, ev) + rest;
    var b0 := EncParams(ev.params) + b1;
    Uint16ReadsBack(StoredName(ev), b0);
    ParamsReadBack(ev.params, b1);
    BuildErrorReadsBack(sch, ev, rest);
    FirstByte(ver, BigEndian(StoredName(ev), 2) + b0);
    EventStep(sch, dyn, ver, StoredName(ev), StoredParams(ev.params), false, err, result,
              OldEvent(sch, dyn, ver, ev, order) + rest, b0, b1, rest, rest);
  }
}
