/** The store and load functions of pkg/istructsmem as they work: appending to a buffer and consuming it,
    with loops over children, records and maps.  A map is iterated in an order that nothing fixes. */
module EventCodecObject {
  import opened Options
  import opened Bytes
  import opened EventCodec
  import EventRoundTrip

  /** bytes.Buffer: what was written and not yet read. */
  class Buffer {
    var data: Bytes

    constructor (data: Bytes)
      ensures this.data == data
    {
      this.data := data;
    }

    method Write(bs: Bytes)
      modifies this
      ensures data == old(data) + bs
    {
      data := data + bs;
    }

    method ReadUint(size: nat) returns (err: Option<Error>, x: nat)
      modifies this
      ensures match DecUint(size, old(data)) {
        case Failed(e) => err == Some(e)
        case Got(v, rest) => err == None && x == v && data == rest
      }
    {
      if |data| < size {
        return Some(UnexpectedEOF), 0;
      }
      err, x := None, FromBigEndian(data[..size]);
      data := data[size..];
    }

    method ReadBool() returns (err: Option<Error>, b: bool)
      modifies this
      ensures match DecBool(old(data)) {
        case Failed(e) => err == Some(e)
        case Got(v, rest) => err == None && b == v && data == rest
      }
    {
      if data == [] {
        return Some(UnexpectedEOF), false;
      }
      err, b := None, data[0] != 0;
      data := data[1..];
    }

    method ReadBytes(length: nat) returns (err: Option<Error>, bs: Bytes)
      modifies this
      ensures match DecBytes(length, old(data)) {
        case Failed(e) => err == Some(e)
        case Got(v, rest) => err == None && bs == v && data == rest
      }
    {
      if |data| < length {
        return Some(UnexpectedEOF), [];
      }
      err, bs := None, data[..length];
      data := data[length..];
    }
  }

  /* ---------- storing ---------- */

  method StoreSysFields(row: Row, buf: Buffer)
    modifies buf
    ensures buf.data == old(buf.data) + EncSysFields(row)
  {
    var mask := 0;
    if row.id != 0 { mask := mask + 1; }
    if row.parent != 0 { mask := mask + 2; }
    if row.container != 0 { mask := mask + 4; }
    if !row.active { mask := mask + 8; }
    hide BigEndian;
    var out := BigEndian(mask, 2);
    out := out + if row.id != 0 then BigEndian(row.id, 8) else [];
    out := out + if row.parent != 0 then BigEndian(row.parent, 8) else [];
    out := out + if row.container != 0 then BigEndian(row.container, 2) else [];
    out := out + if !row.active then EncBool(false) else [];
    buf.Write(out);
  }

  method StoreRow(dyn: Dyn, row: Row, buf: Buffer)
    modifies buf
    ensures buf.data == old(buf.data) + EncRow(dyn, row)
  {
    hide BigEndian, EncSysFields;
    buf.Write(BigEndian(row.qname, 2));
    if row.qname == NULL_QNAME {
      return;
    }
    StoreSysFields(row, buf);
    var b := dyn.enc(row.fields);
    buf.Write(BigEndian(|b|, 4));
    buf.Write(b);
    assert buf.data == old(buf.data) + (BigEndian(row.qname, 2) + EncSysFields(row) + BigEndian(|b|, 4) + b);
  }

  lemma {:induction false} IndexesSnoc(fields: seq<FieldDef>, nils: seq<Field>, f: Field)
    ensures EmptiedIndexes(fields, nils + [f])
      == EmptiedIndexes(fields, nils) + match IndexOf(fields, f) { case None => [] case Some(i) => [i] }
  {
    if nils == [] {
      assert [] + [f] == [f] && [f][1..] == [];
    } else {
      IndexesSnoc(fields, nils[1..], f);
      assert (nils + [f])[1..] == nils[1..] + [f];
    }
  }

  lemma {:induction false} EncIndexesSnoc(indexes: seq<nat>, i: nat)
    ensures EncIndexes(indexes + [i]) == EncIndexes(indexes) + BigEndian(i, 2)
  {
    hide BigEndian;
    if indexes == [] {
      assert [] + [i] == [i] && [i][1..] == [];
    } else {
      EncIndexesSnoc(indexes[1..], i);
      assert (indexes + [i])[1..] == indexes[1..] + [i];
    }
  }

  /** storeEventCUD; the emptied fields come in any order. */
  method StoreCud(sch: Schema, dyn: Dyn, row: Row, buf: Buffer) returns (ghost nils: seq<Field>)
    modifies buf
    ensures Enumerates(nils, row.nils)
    ensures buf.data == old(buf.data) + EncCud(sch, dyn, row, nils)
  {
    hide BigEndian, EncIndexes, EncRow, EmptiedIndexes, UserFields, Enumerates;
    StoreRow(dyn, row, buf);
    var emptied: seq<nat>;
    emptied, nils := CollectEmptied(UserFields(sch, row.qname), row.nils);
    buf.Write(BigEndian(|emptied|, 2));
    StoreIndexes(emptied, buf);
  }

  method CollectEmptied(fields: seq<FieldDef>, rowNils: set<Field>) returns (emptied: seq<nat>, ghost nils: seq<Field>)
    ensures Enumerates(nils, rowNils) && emptied == EmptiedIndexes(fields, nils)
  {
    emptied, nils := [], [];
    var todo := rowNils;
    while todo != {}
      invariant todo <= rowNils && Enumerates(nils, rowNils - todo)
      invariant emptied == EmptiedIndexes(fields, nils)
      decreases todo
    {
      var f :| f in todo;
      todo := todo - {f};
      IndexesSnoc(fields, nils, f);
      nils := nils + [f];
      var idx := IndexOf(fields, f);
      if idx.Some? {
        emptied := emptied + [idx.value];
      }
    }
  }

  method StoreIndexes(indexes: seq<nat>, buf: Buffer)
    modifies buf
    ensures buf.data == old(buf.data) + EncIndexes(indexes)
  {
    hide BigEndian, EncIndexes;
    NoIndexes();
    for i := 0 to |indexes|
      invariant buf.data == old(buf.data) + EncIndexes(indexes[..i])
    {
      EncIndexesSnoc(indexes[..i], indexes[i]);
      assert indexes[..i + 1] == indexes[..i] + [indexes[i]];
      buf.Write(BigEndian(indexes[i], 2));
    }
    assert indexes[..|indexes|] == indexes;
  }

  lemma NoIndexes()
    ensures EncIndexes([]) == []
  {
  }

  lemma EncObjsRest(dyn: Dyn, o: Obj, i: nat)
    requires i <= |o.children|
    ensures EncObjs(dyn, o, o.children[i..]) == if i == |o.children| then []
      else EncObj(dyn, o.children[i]) + EncObjs(dyn, o, o.children[i + 1..])
  {
    hide EncObj;
  }

  lemma EncObjIs(dyn: Dyn, o: Obj, before: Bytes)
    ensures o.row.qname == NULL_QNAME ==> EncObj(dyn, o) == EncRow(dyn, o.row)
    ensures o.row.qname != NULL_QNAME ==>
      before + EncRow(dyn, o.row) + BigEndian(|o.children|, 2) + EncObjs(dyn, o, o.children[0..]) == before + EncObj(dyn, o)
  {
    assert o.children[0..] == o.children;
    hide EncRow, BigEndian, EncObjs;
  }

  lemma Associates(a: Bytes, b: Bytes, c: Bytes)
    ensures (a + b) + c == a + (b + c)
  {
  }

  lemma ChildIsSmaller(o: Obj, i: nat)
    requires i < |o.children|
    ensures o.children[i] < o
  {
  }

  /** storeObject: the row, then the children in turn. */
  method StoreObject(dyn: Dyn, o: Obj, buf: Buffer)
    modifies buf
    ensures buf.data == old(buf.data) + EncObj(dyn, o)
    decreases o
  {
    hide *;
    EncObjIs(dyn, o, buf.data);
    StoreRow(dyn, o.row, buf);
    if o.row.qname == NULL_QNAME {
      return;
    }
    buf.Write(BigEndian(|o.children|, 2));
    for i := 0 to |o.children|
      invariant buf.data + EncObjs(dyn, o, o.children[i..]) == old(buf.data) + EncObj(dyn, o)
    {
      EncObjsRest(dyn, o, i);
      Associates(buf.data, EncObj(dyn, o.children[i]), EncObjs(dyn, o, o.children[i + 1..]));
      ChildIsSmaller(o, i);
      StoreObject(dyn, o.children[i], buf);
    }
    EncObjsRest(dyn, o, |o.children|);
  }

  method StoreParams(p: Params, buf: Buffer)
    requires IsInt64(p.regTime) && IsInt64(p.syncTime)
    modifies buf
    ensures buf.data == old(buf.data) + EncParams(p)
  {
    hide BigEndian, EncInt64, EncBool;
    var out := BigEndian(p.partition, 2);
    out := out + BigEndian(p.plogOffs, 8);
    out := out + BigEndian(p.ws, 8);
    out := out + BigEndian(p.wlogOffs, 8);
    out := out + EncInt64(p.regTime);
    out := out + EncBool(p.sync);
    var sync := [];
    if p.sync {
      sync := BigEndian(p.device, 2) + EncInt64(p.syncTime);
    }
    buf.Write(out + sync);
  }

  method StoreBuildError(sch: Schema, ev: Event, buf: Buffer)
    modifies buf
    ensures buf.data == old(buf.data) + EncBuildError(sch, ev)
  {
    hide BigEndian, EncShortString, EncBool, NameString;
    if IsValid(ev) {
      buf.Write(EncBool(true));
      return;
    }
    var bytes := ev.err.bytes;
    if ev.unl.row.qname != NULL_QNAME {
      bytes := [];
    }
    var out := EncBool(false);
    out := out + EncShortString(ev.err.errStr);
    out := out + EncShortString(NameString(sch, ev.name));
    out := out + BigEndian(|bytes|, 4);
    buf.Write(out + bytes);
  }

  lemma {:induction false} CreatesSnoc(sch: Schema, dyn: Dyn, creates: seq<Row>, nils: seq<seq<Field>>, row: Row, ns: seq<Field>)
    requires |creates| == |nils|
    ensures EncCreates(sch, dyn, creates + [row], nils + [ns]) == EncCreates(sch, dyn, creates, nils) + EncCud(sch, dyn, row, ns)
  {
    hide EncCud;
    if creates == [] {
      assert ([row])[1..] == [] && [ns][1..] == [] && creates + [row] == [row] && nils + [ns] == [ns];
    } else {
      CreatesSnoc(sch, dyn, creates[1..], nils[1..], row, ns);
      assert (creates + [row])[1..] == creates[1..] + [row] && (nils + [ns])[1..] == nils[1..] + [ns];
    }
  }

  method StoreCreates(sch: Schema, dyn: Dyn, creates: seq<Row>, buf: Buffer) returns (ghost nils: seq<seq<Field>>)
    modifies buf
    ensures |nils| == |creates| && forall i | 0 <= i < |creates| :: Enumerates(nils[i], creates[i].nils)
    ensures buf.data == old(buf.data) + EncCreates(sch, dyn, creates, nils)
  {
    hide EncCud, Enumerates, EncCreates;
    nils := [];
    NoCreates(sch, dyn);
    for i := 0 to |creates|
      invariant |nils| == i && forall j | 0 <= j < i :: Enumerates(nils[j], creates[j].nils)
      invariant buf.data == old(buf.data) + EncCreates(sch, dyn, creates[..i], nils)
    {
      ghost var ns := StoreCud(sch, dyn, creates[i], buf);
      CreatesSnoc(sch, dyn, creates[..i], nils, creates[i], ns);
      assert creates[..i + 1] == creates[..i] + [creates[i]];
      nils := nils + [ns];
    }
    assert creates[..|creates|] == creates;
  }

  lemma NoCreates(sch: Schema, dyn: Dyn)
    ensures EncCreates(sch, dyn, [], []) == []
  {
  }

  lemma {:induction false} UpdatesSnoc(sch: Schema, dyn: Dyn, updates: map<RecordId, Row>, order: seq<RecordId>,
                                       nils: map<RecordId, seq<Field>>, id: RecordId, ns: seq<Field>)
    requires id in updates && id !in order && forall i | i in order :: i in updates && i in nils
    ensures EncUpdates(sch, dyn, updates, order + [id], nils[id := ns])
      == EncUpdates(sch, dyn, updates, order, nils) + EncCud(sch, dyn, updates[id], ns)
    decreases |order|
  {
    hide EncCud;
    if order == [] {
      assert order + [id] == [id] && [id][1..] == [];
    } else {
      assert order[0] in order && order[0] != id;
      UpdatesSnoc(sch, dyn, updates, order[1..], nils, id, ns);
      assert (order + [id])[1..] == order[1..] + [id];
    }
  }

  lemma NoUpdates(sch: Schema, dyn: Dyn, updates: map<RecordId, Row>)
    ensures EncUpdates(sch, dyn, updates, [], map[]) == []
  {
  }

  ghost predicate NilsOf(updates: map<RecordId, Row>, nils: map<RecordId, seq<Field>>) {
    forall id | id in nils :: id in updates && Enumerates(nils[id], updates[id].nils)
  }

  method StoreUpdates(sch: Schema, dyn: Dyn, updates: map<RecordId, Row>, buf: Buffer)
    returns (ghost order: seq<RecordId>, ghost nils: map<RecordId, seq<Field>>)
    modifies buf
    ensures Enumerates(order, updates.Keys) && nils.Keys == updates.Keys && NilsOf(updates, nils)
    ensures buf.data == old(buf.data) + EncUpdates(sch, dyn, updates, order, nils)
  {
    hide EncCud, EncUpdates;
    NoUpdates(sch, dyn, updates);
    order, nils := [], map[];
    var todo := updates.Keys;
    while todo != {}
      invariant todo <= updates.Keys && Enumerates(order, updates.Keys - todo)
      invariant nils.Keys == updates.Keys - todo && NilsOf(updates, nils)
      invariant buf.data == old(buf.data) + EncUpdates(sch, dyn, updates, order, nils)
      decreases todo
    {
      var id :| id in todo;
      todo := todo - {id};
      ghost var ns := StoreCud(sch, dyn, updates[id], buf);
      UpdatesSnoc(sch, dyn, updates, order, nils, id, ns);
      order, nils := order + [id], nils[id := ns];
    }
  }

  predicate OrdersFit(ev: Event, ord: Orders) {
    |ord.createNils| == |ev.creates| && forall id | id in ord.updates :: id in ev.updates && id in ord.updateNils
  }

  lemma EncEventIs(sch: Schema, dyn: Dyn, ev: Event, ord: Orders, body: Bytes)
    requires IsInt64(ev.params.regTime) && IsInt64(ev.params.syncTime) && OrdersFit(ev, ord)
    requires body == if IsValid(ev) then EncBody(sch, dyn, ev, ord) else []
    ensures EncEvent(sch, dyn, ev, ord)
      == [CODEC_RDB_2] + BigEndian(StoredName(ev), 2) + EncParams(ev.params) + EncBuildError(sch, ev) + body
  {
    hide EncBody, EncParams, EncBuildError, BigEndian, StoredName;
  }

  /** storeToBytes: some iteration orders make the bytes, and a valid event reads back from them. */
  method StoreEvent(sch: Schema, dyn: Dyn, ev: Event) returns (bytes: Bytes, ghost ord: Orders)
    requires IsInt64(ev.params.regTime) && IsInt64(ev.params.syncTime)
    ensures OrdersOf(ev, ord) && OrdersFit(ev, ord)
    ensures bytes == EncEvent(sch, dyn, ev, ord)
    ensures EventRoundTrip.ValidEvent(sch, dyn, ev) ==> DecEvent(sch, dyn, bytes) == Got(EventRoundTrip.StoredEvent(sch, ev), [])
  {
    hide *;
    var buf := new Buffer([CODEC_RDB_2]);
    buf.Write(BigEndian(StoredName(ev), 2));
    StoreParams(ev.params, buf);
    StoreBuildError(sch, ev, buf);
    if IsValid(ev) {
      var body;
      body, ord := StoreBody(sch, dyn, ev);
      EncEventIs(sch, dyn, ev, ord, body);
      buf.Write(body);
    } else {
      ord := SomeOrders(ev);
      EncEventIs(sch, dyn, ev, ord, []);
    }
    bytes := buf.data;
    if EventRoundTrip.ValidEvent(sch, dyn, ev) {
      EventRoundTrip.EventReadsBack(sch, dyn, ev, ord, []);
      assert bytes + [] == bytes;
    }
  }

  lemma SixAssociate(a: Bytes, b: Bytes, c: Bytes, d: Bytes, e: Bytes, f: Bytes)
    ensures [] + a + b + c + d + e + f == a + (b + (c + (d + (e + f))))
  {
  }

  lemma OrderLengths(ev: Event, ord: Orders)
    requires OrdersOf(ev, ord)
    ensures OrdersFit(ev, ord) && |ord.updates| == |ev.updates|
  {
    EventRoundTrip.EnumerationSize(ord.updates, ev.updates.Keys);
    assert |ev.updates.Keys| == |ev.updates|;
  }

  lemma EncBodyIs(sch: Schema, dyn: Dyn, ev: Event, ord: Orders)
    requires OrdersFit(ev, ord) && |ord.updates| == |ev.updates|
    ensures EncBody(sch, dyn, ev, ord)
      == [] + EncObj(dyn, ev.arg) + EncObj(dyn, ev.unl) + BigEndian(|ev.creates|, 2) + EncCreates(sch, dyn, ev.creates, ord.createNils)
         + BigEndian(|ev.updates|, 2) + EncUpdates(sch, dyn, ev.updates, ord.updates, ord.updateNils)
  {
    hide EncObj, EncCreates, EncUpdates, BigEndian;
    SixAssociate(EncObj(dyn, ev.arg), EncObj(dyn, ev.unl), BigEndian(|ev.creates|, 2), EncCreates(sch, dyn, ev.creates, ord.createNils),
                 BigEndian(|ev.updates|, 2), EncUpdates(sch, dyn, ev.updates, ord.updates, ord.updateNils));
  }

  lemma IsOrders(ev: Event, ord: Orders)
    requires Enumerates(ord.updates, ev.updates.Keys) && ord.updateNils.Keys == ev.updates.Keys && NilsOf(ev.updates, ord.updateNils)
    requires |ord.createNils| == |ev.creates| && forall i | 0 <= i < |ev.creates| :: Enumerates(ord.createNils[i], ev.creates[i].nils)
    ensures OrdersOf(ev, ord)
  {
    hide Enumerates;
  }

  /** The arguments and CUDs. */
  method StoreBody(sch: Schema, dyn: Dyn, ev: Event) returns (bytes: Bytes, ghost ord: Orders)
    ensures OrdersOf(ev, ord) && OrdersFit(ev, ord)
    ensures bytes == EncBody(sch, dyn, ev, ord)
  {
    hide *;
    var buf := new Buffer([]);
    StoreObject(dyn, ev.arg, buf);
    StoreObject(dyn, ev.unl, buf);
    buf.Write(BigEndian(|ev.creates|, 2));
    ghost var createNils := StoreCreates(sch, dyn, ev.creates, buf);
    buf.Write(BigEndian(|ev.updates|, 2));
    ghost var order, updateNils := StoreUpdates(sch, dyn, ev.updates, buf);
    ord := Orders(order, createNils, updateNils);
    IsOrders(ev, ord);
    OrderLengths(ev, ord);
    EncBodyIs(sch, dyn, ev, ord);
    bytes := buf.data;
  }

  lemma SomeOrder<T(!new)>(elements: set<T>) returns (order: seq<T>)
    ensures Enumerates(order, elements)
    decreases elements
  {
    if elements == {} {
      order := [];
    } else {
      var x :| x in elements;
      order := SomeOrder(elements - {x});
      order := order + [x];
    }
  }

  lemma SomeCreateNils(creates: seq<Row>) returns (nils: seq<seq<Field>>)
    ensures |nils| == |creates| && forall i | 0 <= i < |creates| :: Enumerates(nils[i], creates[i].nils)
  {
    hide Enumerates;
    nils := [];
    while |nils| < |creates|
      invariant |nils| <= |creates|
      invariant forall i | 0 <= i < |nils| :: Enumerates(nils[i], creates[i].nils)
    {
      var ns := SomeOrder(creates[|nils|].nils);
      nils := nils + [ns];
    }
  }

  lemma {:induction false} SomeUpdateNils(updates: map<RecordId, Row>, todo: set<RecordId>) returns (nils: map<RecordId, seq<Field>>)
    requires todo <= updates.Keys
    ensures nils.Keys == todo && NilsOf(updates, nils)
    decreases todo
  {
    hide Enumerates;
    if todo == {} {
      nils := map[];
    } else {
      var id :| id in todo;
      nils := SomeUpdateNils(updates, todo - {id});
      var ns := SomeOrder(updates[id].nils);
      nils := nils[id := ns];
    }
  }

  lemma SomeOrders(ev: Event) returns (ord: Orders)
    ensures OrdersOf(ev, ord) && OrdersFit(ev, ord)
  {
    hide Enumerates, OrdersFit;
    var order := SomeOrder(ev.updates.Keys);
    var createNils := SomeCreateNils(ev.creates);
    var updateNils := SomeUpdateNils(ev.updates, ev.updates.Keys);
    ord := Orders(order, createNils, updateNils);
    OrderLengths(ev, ord);
  }

  /* ---------- loading ---------- */

  /** A loader consumed what the decoder consumes, or failed as it fails. */
  ghost predicate Loaded<T(!new)>(expected: Read<T>, err: Option<Error>, value: T, rest: Bytes) {
    match expected
    case Failed(e) => err == Some(e)
    case Got(v, r) => err == None && value == v && rest == r
  }

  /** A field that is there only if its mask bit is set. */
  method LoadIf(present: bool, size: nat, buf: Buffer) returns (err: Option<Error>, x: nat)
    modifies buf
    ensures Loaded(DecIf(present, size, old(buf.data)), err, x, buf.data)
  {
    if !present { return None, 0; }
    hide DecUint;
    err, x := buf.ReadUint(size);
  }

  /** loadRowSysFields. */
  method LoadSysFields(sch: Schema, ver: nat, row: Row, buf: Buffer) returns (err: Option<Error>, result: Row)
    requires row.qname in sch.types
    modifies buf
    ensures Loaded(DecSysFields(sch, ver, row, old(buf.data)), err, result, buf.data)
  {
    hide DecUint, DecBool, DecIf, HasBit;
    result := row;
    var mask: nat := sch.types[row.qname].sysMask;
    if ver != CODEC_RAW as nat {
      err, mask := buf.ReadUint(2);
      if err.Some? { return; }
    }
    var id, parent, container;
    err, id := LoadIf(HasBit(mask, 1), 8, buf);
    if err.Some? { return; }
    err, parent := LoadIf(HasBit(mask, 2), 8, buf);
    if err.Some? { return; }
    err, container := LoadIf(HasBit(mask, 4), 2, buf);
    if err.Some? { return; }
    if HasBit(mask, 4) && container != 0 && container !in sch.containers {
      return Some(ContainerNotFound), result;
    }
    result := result.(id := id, parent := parent, container := container);
    if HasBit(mask, 8) {
      var active;
      err, active := buf.ReadBool();
      if err.Some? { return; }
      result := result.(active := active);
    }
  }

  method LoadRow(sch: Schema, dyn: Dyn, ver: nat, buf: Buffer) returns (err: Option<Error>, row: Row)
    modifies buf
    ensures Loaded(DecRow(sch, dyn, ver, old(buf.data)), err, row, buf.data)
  {
    hide DecUint, DecBytes, DecSysFields;
    row := NULL_ROW;
    var qname: nat;
    err, qname := buf.ReadUint(2);
    if err.Some? || qname == NULL_QNAME { return; }
    if qname !in sch.names { return Some(NameNotFound), row; }
    if qname !in sch.types { return Some(TypeNotFound), row; }
    err, row := LoadSysFields(sch, ver, NULL_ROW.(qname := qname), buf);
    if err.Some? { return; }
    var length: nat;
    err, length := buf.ReadUint(4);
    if err.Some? { return; }
    var b: Bytes;
    err, b := buf.ReadBytes(length);
    if err.Some? { return; }
    row := row.(fields := dyn.dec(b));
  }

  method LoadNils(fields: seq<FieldDef>, count: nat, buf: Buffer) returns (err: Option<Error>, nils: set<Field>)
    modifies buf
    ensures Loaded(DecNils(fields, count, {}, old(buf.data)), err, nils, buf.data)
  {
    hide DecUint;
    err, nils := None, {};
    for i := 0 to count
      invariant err.None?
      invariant DecNils(fields, count, {}, old(buf.data)) == DecNils(fields, count - i, nils, buf.data)
    {
      var idx: nat;
      err, idx := buf.ReadUint(2);
      if err.Some? { return; }
      if idx >= |fields| { return Some(OutOfBounds), nils; }
      if !fields[idx].kind.StringKind? && !fields[idx].kind.BytesKind? { return Some(WrongType), nils; }
      nils := nils + {fields[idx].name};
    }
  }

  method LoadCud(sch: Schema, dyn: Dyn, ver: nat, buf: Buffer) returns (err: Option<Error>, row: Row)
    modifies buf
    ensures Loaded(DecCud(sch, dyn, ver, old(buf.data)), err, row, buf.data)
  {
    hide DecUint, DecRow, DecNils;
    err, row := LoadRow(sch, dyn, ver, buf);
    if err.Some? || ver < CODEC_RDB_2 as nat { return; }
    var count: nat;
    err, count := buf.ReadUint(2);
    if err.Some? { return; }
    if count > 0 && 2 * count > |buf.data| { return Some(UnexpectedEOF), row; }
    var nils: set<Field>;
    err, nils := LoadNils(UserFields(sch, row.qname), count, buf);
    if err.Some? { return; }
    row := row.(nils := nils);
  }

  /** What is left to read of a list after some of it. */
  ghost function Prepend<T>(head: seq<T>, tail: Read<seq<T>>): Read<seq<T>> {
    match tail case Failed(e) => Failed(e) case Got(values, rest) => Got(head + values, rest)
  }

  lemma PrependNone<T>(tail: Read<seq<T>>)
    ensures Prepend([], tail) == tail
  {
    if tail.Got? {
      assert [] + tail.value == tail.value;
    }
  }

  lemma PrependOne<T>(head: seq<T>, value: T, tail: Read<seq<T>>)
    ensures Prepend(head + [value], tail) == Prepend(head, Prepend([value], tail))
  {
    if tail.Got? {
      assert head + [value] + tail.value == head + ([value] + tail.value);
    }
  }

  lemma PrependAll<T>(head: seq<T>, rest: Bytes)
    ensures Prepend(head, Got([], rest)) == Got(head, rest)
  {
    assert head + [] == head;
  }

  lemma DecObjsStep(sch: Schema, dyn: Dyn, ver: nat, count: nat, bs: Bytes)
    requires count > 0
    ensures DecObj(sch, dyn, ver, bs).Failed? ==> DecObjs(sch, dyn, ver, count, bs) == Failed(DecObj(sch, dyn, ver, bs).error)
    ensures DecObj(sch, dyn, ver, bs).Got? ==>
      var o := DecObj(sch, dyn, ver, bs);
      DecObjs(sch, dyn, ver, count, bs) == Prepend([o.value], DecObjs(sch, dyn, ver, count - 1, o.rest))
  {
    hide DecObj;
  }

  lemma NoMoreObjs(sch: Schema, dyn: Dyn, ver: nat, bs: Bytes)
    ensures DecObjs(sch, dyn, ver, 0, bs) == Got([], bs)
  {
  }

  lemma DecObjShrinks(sch: Schema, dyn: Dyn, ver: nat, bs: Bytes)
    ensures DecObj(sch, dyn, ver, bs).Got? ==> |DecObj(sch, dyn, ver, bs).rest| < |bs|
  {
  }

  lemma DecRowShrinks(sch: Schema, dyn: Dyn, ver: nat, bs: Bytes)
    ensures DecRow(sch, dyn, ver, bs).Got? ==> |DecRow(sch, dyn, ver, bs).rest| < |bs|
    ensures DecUint(2, bs).Got? ==> |DecUint(2, bs).rest| < |bs|
  {
  }

  lemma DecObjIs(sch: Schema, dyn: Dyn, ver: nat, bs: Bytes)
    ensures
      var obj := DecObj(sch, dyn, ver, bs);
      match DecRow(sch, dyn, ver, bs) {
        case Failed(e) => obj == Failed(e)
        case Got(row, b0) =>
          if row.qname == NULL_QNAME then obj == Got(Obj(row, []), b0)
          else
            match DecUint(2, b0) {
              case Failed(e) => obj == Failed(e)
              case Got(count, b1) =>
                match DecObjs(sch, dyn, ver, count, b1) {
                  case Failed(e) => obj == Failed(e)
                  case Got(children, b2) => obj == Got(Obj(row, children), b2)
                }
            }
      }
  {
    hide DecRow, DecUint, DecObjs;
  }

  /** loadObject: the row, then the children in turn. */
  method LoadObject(sch: Schema, dyn: Dyn, ver: nat, buf: Buffer) returns (err: Option<Error>, o: Obj)
    modifies buf
    ensures Loaded(DecObj(sch, dyn, ver, old(buf.data)), err, o, buf.data)
    decreases |buf.data|, 1
  {
    hide DecRow, DecUint, DecObj, DecObjs;
    DecObjIs(sch, dyn, ver, buf.data);
    DecRowShrinks(sch, dyn, ver, buf.data);
    var row, count: nat;
    err, row := LoadRow(sch, dyn, ver, buf);
    o := Obj(row, []);
    if err.Some? || row.qname == NULL_QNAME { return; }
    DecRowShrinks(sch, dyn, ver, buf.data);
    err, count := buf.ReadUint(2);
    if err.Some? { return; }
    var children;
    err, children := LoadChildren(sch, dyn, ver, count, buf);
    o := Obj(row, children);
  }

  method LoadChildren(sch: Schema, dyn: Dyn, ver: nat, count: nat, buf: Buffer) returns (err: Option<Error>, children: seq<Obj>)
    modifies buf
    ensures Loaded(DecObjs(sch, dyn, ver, count, old(buf.data)), err, children, buf.data)
    decreases |buf.data|, 2
  {
    hide DecRow, DecUint, DecObj, DecObjs, Prepend;
    ghost var all := DecObjs(sch, dyn, ver, count, buf.data);
    err, children := None, [];
    PrependNone(all);
    for i := 0 to count
      invariant err.None? && |buf.data| <= |old(buf.data)|
      invariant Prepend(children, DecObjs(sch, dyn, ver, count - i, buf.data)) == all
    {
      DecObjsStep(sch, dyn, ver, count - i, buf.data);
      DecObjShrinks(sch, dyn, ver, buf.data);
      PrependFailed(children, DecObjs(sch, dyn, ver, count - i, buf.data));
      var child;
      err, child := LoadObject(sch, dyn, ver, buf);
      if err.Some? { return; }
      PrependOne(children, child, DecObjs(sch, dyn, ver, count - i - 1, buf.data));
      children := children + [child];
    }
    NoMoreObjs(sch, dyn, ver, buf.data);
    PrependAll(children, buf.data);
  }

  lemma PrependFailed<T>(head: seq<T>, tail: Read<seq<T>>)
    ensures tail.Failed? ==> Prepend(head, tail) == tail
  {
  }

  /** loadEventCUDs, the updates: the map is filled as they come. */
  method LoadUpdates(sch: Schema, dyn: Dyn, ver: nat, count: nat, buf: Buffer) returns (err: Option<Error>, updates: map<RecordId, Row>)
    modifies buf
    ensures Loaded(DecUpdates(sch, dyn, ver, count, map[], old(buf.data)), err, updates, buf.data)
  {
    hide DecCud;
    err, updates := None, map[];
    for i := 0 to count
      invariant err.None?
      invariant DecUpdates(sch, dyn, ver, count, map[], old(buf.data)) == DecUpdates(sch, dyn, ver, count - i, updates, buf.data)
    {
      var row;
      err, row := LoadCud(sch, dyn, ver, buf);
      if err.Some? { return; }
      updates := updates[row.id := row];
    }
  }

  lemma DecCreatesStep(sch: Schema, dyn: Dyn, ver: nat, count: nat, bs: Bytes)
    ensures count == 0 ==> DecCreates(sch, dyn, ver, count, bs) == Got([], bs)
    ensures count > 0 && DecCud(sch, dyn, ver, bs).Failed? ==>
      DecCreates(sch, dyn, ver, count, bs) == Failed(DecCud(sch, dyn, ver, bs).error)
    ensures count > 0 && DecCud(sch, dyn, ver, bs).Got? ==>
      var row := DecCud(sch, dyn, ver, bs);
      DecCreates(sch, dyn, ver, count, bs) == Prepend([row.value], DecCreates(sch, dyn, ver, count - 1, row.rest))
  {
    hide DecCud;
  }

  /** loadEventCUDs, the creates. */
  method LoadCreates(sch: Schema, dyn: Dyn, ver: nat, count: nat, buf: Buffer) returns (err: Option<Error>, creates: seq<Row>)
    modifies buf
    ensures Loaded(DecCreates(sch, dyn, ver, count, old(buf.data)), err, creates, buf.data)
  {
    hide DecCud, DecCreates, Prepend;
    err, creates := None, [];
    ghost var all := DecCreates(sch, dyn, ver, count, buf.data);
    PrependNone(all);
    for i := 0 to count
      invariant err.None?
      invariant Prepend(creates, DecCreates(sch, dyn, ver, count - i, buf.data)) == all
    {
      DecCreatesStep(sch, dyn, ver, count - i, buf.data);
      PrependFailed(creates, DecCreates(sch, dyn, ver, count - i, buf.data));
      var row;
      err, row := LoadCud(sch, dyn, ver, buf);
      if err.Some? { return; }
      PrependOne(creates, row, DecCreates(sch, dyn, ver, count - i - 1, buf.data));
      creates := creates + [row];
    }
    DecCreatesStep(sch, dyn, ver, 0, buf.data);
    PrependAll(creates, buf.data);
  }

  method LoadInt64(buf: Buffer) returns (err: Option<Error>, x: int)
    modifies buf
    ensures Loaded(DecInt64(old(buf.data)), err, x, buf.data)
  {
    hide DecUint, FromUint64;
    var u: nat;
    x := 0;
    err, u := buf.ReadUint(8);
    if err.Some? { return; }
    x := FromUint64(u);
  }

  method LoadShortString(buf: Buffer) returns (err: Option<Error>, s: Bytes)
    modifies buf
    ensures Loaded(DecShortString(old(buf.data)), err, s, buf.data)
  {
    hide DecUint, DecBytes;
    var length: nat;
    s := [];
    err, length := buf.ReadUint(2);
    if err.Some? { return; }
    err, s := buf.ReadBytes(length);
  }

  /** loadEventCreateParams. */
  method LoadParams(buf: Buffer) returns (err: Option<Error>, p: Params)
    modifies buf
    ensures Loaded(DecParams(old(buf.data)), err, p, buf.data)
  {
    hide DecUint, DecInt64, DecBool, DecSync;
    p := NO_PARAMS;
    var partition, plogOffs, ws, wlogOffs: nat;
    err, partition := buf.ReadUint(2);
    if err.Some? { return; }
    err, plogOffs := buf.ReadUint(8);
    if err.Some? { return; }
    err, ws := buf.ReadUint(8);
    if err.Some? { return; }
    err, wlogOffs := buf.ReadUint(8);
    if err.Some? { return; }
    var regTime;
    err, regTime := LoadInt64(buf);
    if err.Some? { return; }
    var sync;
    err, sync := buf.ReadBool();
    if err.Some? { return; }
    err, p := LoadSync(Params(partition, plogOffs, ws, wlogOffs, regTime, sync, 0, 0), buf);
  }

  method LoadSync(from: Params, buf: Buffer) returns (err: Option<Error>, p: Params)
    modifies buf
    ensures Loaded(DecSync(from, old(buf.data)), err, p, buf.data)
  {
    hide DecUint, DecInt64;
    err, p := None, from;
    if !p.sync { return; }
    var device: nat;
    err, device := buf.ReadUint(2);
    if err.Some? { return; }
    p := p.(device := device);
    var syncTime;
    err, syncTime := LoadInt64(buf);
    if err.Some? { return; }
    p := p.(syncTime := syncTime);
  }

  /** loadEventBuildError. */
  method LoadBuildError(buf: Buffer) returns (err: Option<Error>, found: (bool, BuildError))
    modifies buf
    ensures Loaded(DecBuildError(old(buf.data)), err, found, buf.data)
  {
    hide DecUint, DecBool, DecBytes, DecShortString, Dots;
    var valid;
    found := (true, NO_ERROR);
    err, valid := buf.ReadBool();
    if err.Some? || valid { return; }
    var errStr, qname, bytes;
    err, errStr := LoadShortString(buf);
    if err.Some? { return; }
    err, qname := LoadShortString(buf);
    if err.Some? { return; }
    if Dots(qname) != 1 { return Some(WrongName), found; }
    var length: nat;
    err, length := buf.ReadUint(4);
    if err.Some? { return; }
    err, bytes := buf.ReadBytes(length);
    found := (false, BuildError(errStr, qname, bytes));
  }

  /** loadEventArguments and loadEventCUDs. */
  method LoadBody(sch: Schema, dyn: Dyn, ver: nat, from: Event, buf: Buffer) returns (err: Option<Error>, ev: Event)
    modifies buf
    ensures Loaded(DecBody(sch, dyn, ver, from, old(buf.data)), err, ev, buf.data)
  {
    hide DecUint, DecObj, DecCreates, DecUpdates;
    ev := from;
    var arg, unl, creates, updates;
    err, arg := LoadObject(sch, dyn, ver, buf);
    if err.Some? { return; }
    err, unl := LoadObject(sch, dyn, ver, buf);
    if err.Some? { return; }
    var count: nat;
    err, count := buf.ReadUint(2);
    if err.Some? { return; }
    err, creates := LoadCreates(sch, dyn, ver, count, buf);
    if err.Some? { return; }
    err, count := buf.ReadUint(2);
    if err.Some? { return; }
    err, updates := LoadUpdates(sch, dyn, ver, count, buf);
    ev := ev.(arg := arg, unl := unl, creates := creates, updates := updates);
  }

  /** loadFromBytes. */
  method LoadEvent(sch: Schema, dyn: Dyn, bytes: Bytes) returns (err: Option<Error>, ev: Event, rest: Bytes)
    ensures Loaded(DecEvent(sch, dyn, bytes), err, ev, rest)
  {
    hide DecUint, DecParams, DecBuildError, DecBody;
    var buf := new Buffer(bytes);
    ev, rest := NO_EVENT, bytes;
    if |bytes| == 0 { return Some(UnexpectedEOF), ev, rest; }
    if bytes[0] > CODEC_RDB_2 { return Some(UnknownCodec), ev, rest; }
    buf.data := bytes[1..];
    err, ev := LoadVersioned(sch, dyn, bytes[0], buf);
    rest := buf.data;
  }

  /** loadEvent. */
  method LoadVersioned(sch: Schema, dyn: Dyn, ver: nat, buf: Buffer) returns (err: Option<Error>, ev: Event)
    modifies buf
    ensures Loaded(DecVersioned(sch, dyn, ver, old(buf.data)), err, ev, buf.data)
  {
    hide DecUint, DecParams, DecBuildError, DecBody;
    ev := NO_EVENT;
    var name: nat;
    err, name := buf.ReadUint(2);
    if err.Some? || name == NULL_QNAME { return; }
    if name !in sch.names { return Some(NameNotFound), ev; }
    var params, found;
    err, params := LoadParams(buf);
    if err.Some? { return; }
    err, found := LoadBuildError(buf);
    if err.Some? { return; }
    ev := ev.(name := name, params := params, valid := found.0, err := found.1);
    if !IsValid(ev) { return; }
    err, ev := LoadBody(sch, dyn, ver, ev, buf);
  }
}
