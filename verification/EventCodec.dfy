/** The byte codec of events in pkg/istructsmem: what storeToBytes appends and loadFromBytes consumes.

    Names are modelled by the identifiers under which they are stored, strings by their bytes.  The
    encoding of the user fields of a row (a dynobuffer) is a parameter. */
module EventCodec {
  import opened Options
  import opened Bytes

  type QNameId = nat
  type RecordId = nat
  type Field = nat
  type Value = nat
  type Fields = map<Field, Value>

  const NULL_QNAME: QNameId := 0
  const ERROR_QNAME: QNameId := 1
  const CORRUPTED_QNAME: QNameId := 3

  const CODEC_RAW: Byte := 0
  const CODEC_RDB_1: Byte := 1
  const CODEC_RDB_2: Byte := 2
  const MAX_SHORT_STRING := 0xFFFF

  /** Emptied fields may be strings or byte strings. */
  datatype Kind = StringKind | BytesKind | RecordIdKind | OtherKind

  datatype FieldDef = FieldDef(name: Field, kind: Kind)

  /** The user fields of a type in their order, and the system fields that codec 0 stores for its kind. */
  datatype TypeDef = TypeDef(userFields: seq<FieldDef>, sysMask: nat)

  /** The stored names with their strings, the types and the containers that the application knows. */
  datatype Schema = Schema(names: map<QNameId, Bytes>, types: map<QNameId, TypeDef>, containers: set<nat>)

  /** The dynobuffer encoding of user fields. */
  datatype Dyn = Dyn(enc: Fields -> Bytes, dec: Bytes -> Fields)

  datatype Row = Row(qname: QNameId, id: RecordId, parent: RecordId, container: nat, active: bool,
                     fields: Fields, nils: set<Field>)

  const NULL_ROW := Row(NULL_QNAME, 0, 0, 0, true, map[], {})

  datatype Obj = Obj(row: Row, children: seq<Obj>)

  const NULL_OBJ := Obj(NULL_ROW, [])

  datatype BuildError = BuildError(errStr: Bytes, qname: Bytes, bytes: Bytes)

  datatype Params = Params(partition: nat, plogOffs: nat, ws: nat, wlogOffs: nat, regTime: int,
                           sync: bool, device: nat, syncTime: int)

  /** `updates` maps a record to its changes; `valid` is the flag of the build error. */
  datatype Event = Event(name: QNameId, params: Params, valid: bool, err: BuildError,
                         arg: Obj, unl: Obj, creates: seq<Row>, updates: map<RecordId, Row>)

  /** The orders in which map iteration yields the updates, and the emptied fields of each stored row. */
  datatype Orders = Orders(updates: seq<RecordId>, createNils: seq<seq<Field>>, updateNils: map<RecordId, seq<Field>>)

  predicate IsValid(ev: Event) {
    ev.name != CORRUPTED_QNAME && ev.valid
  }

  /** QName(): an invalid event is stored under the error name, unless it is a corrupted one. */
  function StoredName(ev: Event): QNameId {
    if ev.name == CORRUPTED_QNAME then CORRUPTED_QNAME else if ev.valid then ev.name else ERROR_QNAME
  }

  /* ---------- writing ---------- */

  function EncBool(b: bool): (r: Bytes)
    ensures |r| == 1
  {
    if b then [1] else [0]
  }

  function EncInt64(x: int): (r: Bytes)
    requires IsInt64(x)
    ensures |r| == 8
  {
    BigEndian(ToUint64(x), 8)
  }

  function Short(s: Bytes): Bytes {
    if |s| < MAX_SHORT_STRING then s else s[..MAX_SHORT_STRING]
  }

  function EncShortString(s: Bytes): Bytes {
    BigEndian(|Short(s)|, 2) + Short(s)
  }

  function BitOf(b: bool, weight: nat): nat {
    if b then weight else 0
  }

  function SysMask(row: Row): nat {
    BitOf(row.id != 0, 1) + BitOf(row.parent != 0, 2) + BitOf(row.container != 0, 4) + BitOf(!row.active, 8)
  }

  function EncSysFields(row: Row): Bytes {
    BigEndian(SysMask(row), 2)
    + (if row.id != 0 then BigEndian(row.id, 8) else [])
    + (if row.parent != 0 then BigEndian(row.parent, 8) else [])
    + (if row.container != 0 then BigEndian(row.container, 2) else [])
    + (if !row.active then EncBool(false) else [])
  }

  function EncRow(dyn: Dyn, row: Row): Bytes {
    if row.qname == NULL_QNAME then BigEndian(row.qname, 2)
    else
      var b := dyn.enc(row.fields);
      BigEndian(row.qname, 2) + EncSysFields(row) + BigEndian(|b|, 4) + b
  }

  function UserFields(sch: Schema, qname: QNameId): seq<FieldDef> {
    if qname in sch.types then sch.types[qname].userFields else []
  }

  /** The index of the field, if it is a user field. */
  function IndexOf(fields: seq<FieldDef>, f: Field): (r: Option<nat>)
    ensures r.Some? ==> r.value < |fields| && fields[r.value].name == f
  {
    if fields == [] then None
    else if fields[0].name == f then Some(0)
    else match IndexOf(fields[1..], f) case None => None case Some(i) => Some(i + 1)
  }

  function EmptiedIndexes(fields: seq<FieldDef>, nils: seq<Field>): seq<nat> {
    if nils == [] then []
    else
      match IndexOf(fields, nils[0])
      case None => EmptiedIndexes(fields, nils[1..])
      case Some(i) => [i] + EmptiedIndexes(fields, nils[1..])
  }

  function EncIndexes(indexes: seq<nat>): Bytes {
    if indexes == [] then [] else BigEndian(indexes[0], 2) + EncIndexes(indexes[1..])
  }

  /** storeEventCUD; `nils` lists the emptied fields in iteration order. */
  function EncCud(sch: Schema, dyn: Dyn, row: Row, nils: seq<Field>): Bytes {
    var indexes := EmptiedIndexes(UserFields(sch, row.qname), nils);
    EncRow(dyn, row) + (BigEndian(|indexes|, 2) + EncIndexes(indexes))
  }

  function EncObj(dyn: Dyn, o: Obj): Bytes
    decreases o, 1
  {
    if o.row.qname == NULL_QNAME then EncRow(dyn, o.row)
    else EncRow(dyn, o.row) + (BigEndian(|o.children|, 2) + EncObjs(dyn, o, o.children))
  }

  function EncObjs(dyn: Dyn, o: Obj, children: seq<Obj>): Bytes
    requires forall i | 0 <= i < |children| :: children[i] in o.children
    decreases o, 0, |children|
  {
    if children == [] then []
    else
      assert children[0] in o.children;
      EncObj(dyn, children[0]) + EncObjs(dyn, o, children[1..])
  }

  function EncParams(p: Params): Bytes
    requires IsInt64(p.regTime) && IsInt64(p.syncTime)
  {
    BigEndian(p.partition, 2) + BigEndian(p.plogOffs, 8) + BigEndian(p.ws, 8) + BigEndian(p.wlogOffs, 8)
    + EncInt64(p.regTime) + EncBool(p.sync)
    + (if p.sync then BigEndian(p.device, 2) + EncInt64(p.syncTime) else [])
  }

  function NameString(sch: Schema, name: QNameId): Bytes {
    if name in sch.names then sch.names[name] else []
  }

  /** The bytes of the original event are not logged if it has unlogged arguments. */
  function LoggedBytes(ev: Event): Bytes {
    if ev.unl.row.qname != NULL_QNAME then [] else ev.err.bytes
  }

  function EncBuildError(sch: Schema, ev: Event): Bytes {
    if IsValid(ev) then EncBool(true)
    else
      EncBool(false) + EncShortString(ev.err.errStr) + EncShortString(NameString(sch, ev.name))
      + BigEndian(|LoggedBytes(ev)|, 4) + LoggedBytes(ev)
  }

  function EncCreates(sch: Schema, dyn: Dyn, creates: seq<Row>, nils: seq<seq<Field>>): Bytes
    requires |creates| == |nils|
  {
    if creates == [] then [] else EncCud(sch, dyn, creates[0], nils[0]) + EncCreates(sch, dyn, creates[1..], nils[1..])
  }

  function EncUpdates(sch: Schema, dyn: Dyn, updates: map<RecordId, Row>, order: seq<RecordId>, nils: map<RecordId, seq<Field>>): Bytes
    requires forall id | id in order :: id in updates && id in nils
  {
    if order == [] then []
    else EncCud(sch, dyn, updates[order[0]], nils[order[0]]) + EncUpdates(sch, dyn, updates, order[1..], nils)
  }

  /** `order` lists exactly the elements of the set, each once. */
  ghost predicate Enumerates<T(!new)>(order: seq<T>, elements: set<T>) {
    && (forall x :: x in order <==> x in elements)
    && (forall i, j | 0 <= i < j < |order| :: order[i] != order[j])
  }

  ghost predicate OrdersOf(ev: Event, ord: Orders) {
    && Enumerates(ord.updates, ev.updates.Keys)
    && |ord.createNils| == |ev.creates|
    && (forall i | 0 <= i < |ev.creates| :: Enumerates(ord.createNils[i], ev.creates[i].nils))
    && ord.updateNils.Keys == ev.updates.Keys
    && (forall id | id in ev.updates :: Enumerates(ord.updateNils[id], ev.updates[id].nils))
  }

  /** The arguments and CUDs of a valid event. */
  function EncBody(sch: Schema, dyn: Dyn, ev: Event, ord: Orders): Bytes
    requires |ord.createNils| == |ev.creates| && forall id | id in ord.updates :: id in ev.updates && id in ord.updateNils
  {
    EncObj(dyn, ev.arg) + (EncObj(dyn, ev.unl)
    + (BigEndian(|ev.creates|, 2) + (EncCreates(sch, dyn, ev.creates, ord.createNils)
    + (BigEndian(|ord.updates|, 2) + EncUpdates(sch, dyn, ev.updates, ord.updates, ord.updateNils)))))
  }

  /** storeToBytes with the last codec version. */
  function EncEvent(sch: Schema, dyn: Dyn, ev: Event, ord: Orders): Bytes
    requires IsInt64(ev.params.regTime) && IsInt64(ev.params.syncTime)
    requires |ord.createNils| == |ev.creates| && forall id | id in ord.updates :: id in ev.updates && id in ord.updateNils
  {
    [CODEC_RDB_2] + (BigEndian(StoredName(ev), 2) + (EncParams(ev.params) + (EncBuildError(sch, ev)
    + (if IsValid(ev) then EncBody(sch, dyn, ev, ord) else []))))
  }

  /* ---------- reading ---------- */

  datatype Error = UnexpectedEOF | NameNotFound | TypeNotFound | ContainerNotFound | OutOfBounds | WrongType
                 | UnknownCodec | WrongName

  /** The value read, and the bytes that follow it. */
  datatype Read<T> = Got(value: T, rest: Bytes) | Failed(error: Error)

  function DecUint(size: nat, bs: Bytes): (r: Read<nat>)
    ensures r.Got? ==> |bs| >= size && r.rest == bs[size..]
  {
    if |bs| < size then Failed(UnexpectedEOF) else Got(FromBigEndian(bs[..size]), bs[size..])
  }

  function DecInt64(bs: Bytes): Read<int> {
    match DecUint(8, bs) case Failed(e) => Failed(e) case Got(x, rest) => Got(FromUint64(x), rest)
  }

  function DecBool(bs: Bytes): (r: Read<bool>)
    ensures r.Got? ==> |r.rest| < |bs|
  {
    if bs == [] then Failed(UnexpectedEOF) else Got(bs[0] != 0, bs[1..])
  }

  function DecBytes(length: nat, bs: Bytes): (r: Read<Bytes>)
    ensures r.Got? ==> |r.rest| <= |bs|
  {
    if |bs| < length then Failed(UnexpectedEOF) else Got(bs[..length], bs[length..])
  }

  function DecShortString(bs: Bytes): Read<Bytes> {
    match DecUint(2, bs) case Failed(e) => Failed(e) case Got(length, rest) => DecBytes(length, rest)
  }

  predicate HasBit(mask: nat, weight: nat)
    requires weight > 0
  {
    mask / weight % 2 == 1
  }

  function DecIf(present: bool, size: nat, bs: Bytes): (r: Read<nat>)
    ensures r.Got? ==> |r.rest| <= |bs|
  {
    if present then DecUint(size, bs) else Got(0, bs)
  }

  /** loadRowSysFields, into a row whose type is set. */
  function DecSysFields(sch: Schema, ver: nat, row: Row, bs: Bytes): (r: Read<Row>)
    requires row.qname in sch.types
    ensures r.Got? ==> |r.rest| <= |bs| && r.value.qname == row.qname
  {
    var maskRead := if ver == CODEC_RAW then Got(sch.types[row.qname].sysMask, bs) else DecUint(2, bs);
    match maskRead
    case Failed(e) => Failed(e)
    case Got(mask, b0) =>
      match DecIf(HasBit(mask, 1), 8, b0)
      case Failed(e) => Failed(e)
      case Got(id, b1) =>
        match DecIf(HasBit(mask, 2), 8, b1)
        case Failed(e) => Failed(e)
        case Got(parent, b2) =>
          match DecIf(HasBit(mask, 4), 2, b2)
          case Failed(e) => Failed(e)
          case Got(container, b3) =>
            if HasBit(mask, 4) && container != 0 && container !in sch.containers then Failed(ContainerNotFound)
            else if HasBit(mask, 8) then
              match DecBool(b3)
              case Failed(e) => Failed(e)
              case Got(active, b4) => Got(row.(id := id, parent := parent, container := container, active := active), b4)
            else Got(row.(id := id, parent := parent, container := container), b3)
  }

  /** loadRow. */
  function DecRow(sch: Schema, dyn: Dyn, ver: nat, bs: Bytes): (r: Read<Row>)
    ensures r.Got? ==> |r.rest| < |bs|
    ensures r.Got? ==> r.value.qname == NULL_QNAME || r.value.qname in sch.types
  {
    match DecUint(2, bs)
    case Failed(e) => Failed(e)
    case Got(qname, b0) =>
      if qname == NULL_QNAME then Got(NULL_ROW, b0)
      else if qname !in sch.names then Failed(NameNotFound)
      else if qname !in sch.types then Failed(TypeNotFound)
      else
        match DecSysFields(sch, ver, NULL_ROW.(qname := qname), b0)
        case Failed(e) => Failed(e)
        case Got(row, b1) =>
          match DecUint(4, b1)
          case Failed(e) => Failed(e)
          case Got(length, b2) =>
            match DecBytes(length, b2)
            case Failed(e) => Failed(e)
            case Got(b, b3) => Got(row.(fields := dyn.dec(b)), b3)
  }

  /** The loop over the emptied fields. */
  function DecNils(fields: seq<FieldDef>, count: nat, nils: set<Field>, bs: Bytes): (r: Read<set<Field>>)
    ensures r.Got? ==> |r.rest| <= |bs|
    decreases count
  {
    if count == 0 then Got(nils, bs)
    else
      match DecUint(2, bs)
      case Failed(e) => Failed(e)
      case Got(i, rest) =>
        if i >= |fields| then Failed(OutOfBounds)
        else if !fields[i].kind.StringKind? && !fields[i].kind.BytesKind? then Failed(WrongType)
        else DecNils(fields, count - 1, nils + {fields[i].name}, rest)
  }

  /** loadEventCUD. */
  function DecCud(sch: Schema, dyn: Dyn, ver: nat, bs: Bytes): (r: Read<Row>)
    ensures r.Got? ==> |r.rest| < |bs|
  {
    match DecRow(sch, dyn, ver, bs)
    case Failed(e) => Failed(e)
    case Got(row, b0) =>
      if ver < CODEC_RDB_2 then Got(row, b0)
      else
        match DecUint(2, b0)
        case Failed(e) => Failed(e)
        case Got(count, b1) =>
          if count > 0 && 2 * count > |b1| then Failed(UnexpectedEOF)
          else
            match DecNils(UserFields(sch, row.qname), count, {}, b1)
            case Failed(e) => Failed(e)
            case Got(nils, b2) => Got(row.(nils := nils), b2)
  }

  /** loadObject. */
  function DecObj(sch: Schema, dyn: Dyn, ver: nat, bs: Bytes): (r: Read<Obj>)
    ensures r.Got? ==> |r.rest| < |bs|
    decreases |bs|, 0
  {
    match DecRow(sch, dyn, ver, bs)
    case Failed(e) => Failed(e)
    case Got(row, b0) =>
      if row.qname == NULL_QNAME then Got(Obj(row, []), b0)
      else
        match DecUint(2, b0)
        case Failed(e) => Failed(e)
        case Got(count, b1) =>
          match DecObjs(sch, dyn, ver, count, b1)
          case Failed(e) => Failed(e)
          case Got(children, b2) => Got(Obj(row, children), b2)
  }

  function DecObjs(sch: Schema, dyn: Dyn, ver: nat, count: nat, bs: Bytes): (r: Read<seq<Obj>>)
    ensures r.Got? ==> |r.rest| <= |bs|
    decreases |bs|, count + 1
  {
    if count == 0 then Got([], bs)
    else
      match DecObj(sch, dyn, ver, bs)
      case Failed(e) => Failed(e)
      case Got(o, rest) =>
        match DecObjs(sch, dyn, ver, count - 1, rest)
        case Failed(e) => Failed(e)
        case Got(more, rest') => Got([o] + more, rest')
  }

  function DecParams(bs: Bytes): Read<Params> {
    match DecUint(2, bs)
    case Failed(e) => Failed(e)
    case Got(partition, b0) =>
      match DecUint(8, b0)
      case Failed(e) => Failed(e)
      case Got(plogOffs, b1) =>
        match DecUint(8, b1)
        case Failed(e) => Failed(e)
        case Got(ws, b2) =>
          match DecUint(8, b2)
          case Failed(e) => Failed(e)
          case Got(wlogOffs, b3) =>
            match DecInt64(b3)
            case Failed(e) => Failed(e)
            case Got(regTime, b4) =>
              match DecBool(b4)
              case Failed(e) => Failed(e)
              case Got(sync, b5) => DecSync(Params(partition, plogOffs, ws, wlogOffs, regTime, sync, 0, 0), b5)
  }

  function DecSync(p: Params, bs: Bytes): Read<Params> {
    if !p.sync then Got(p, bs)
    else
      match DecUint(2, bs)
      case Failed(e) => Failed(e)
      case Got(device, b0) =>
        match DecInt64(b0)
        case Failed(e) => Failed(e)
        case Got(syncTime, b1) => Got(p.(device := device, syncTime := syncTime), b1)
  }

  /** A qualified name has exactly one dot. */
  function Dots(s: Bytes): nat {
    if s == [] then 0 else BitOf(s[0] == 46, 1) + Dots(s[1..])
  }

  const NO_ERROR := BuildError([], [], [])

  /** loadEventBuildError: the flag and the error. */
  function DecBuildError(bs: Bytes): Read<(bool, BuildError)> {
    match DecBool(bs)
    case Failed(e) => Failed(e)
    case Got(valid, b0) =>
      if valid then Got((true, NO_ERROR), b0)
      else
        match DecShortString(b0)
        case Failed(e) => Failed(e)
        case Got(errStr, b1) =>
          match DecShortString(b1)
          case Failed(e) => Failed(e)
          case Got(qname, b2) =>
            if Dots(qname) != 1 then Failed(WrongName)
            else
              match DecUint(4, b2)
              case Failed(e) => Failed(e)
              case Got(length, b3) =>
                match DecBytes(length, b3)
                case Failed(e) => Failed(e)
                case Got(bytes, b4) => Got((false, BuildError(errStr, qname, bytes)), b4)
  }

  function DecCreates(sch: Schema, dyn: Dyn, ver: nat, count: nat, bs: Bytes): Read<seq<Row>>
    decreases count
  {
    if count == 0 then Got([], bs)
    else
      match DecCud(sch, dyn, ver, bs)
      case Failed(e) => Failed(e)
      case Got(row, rest) =>
        match DecCreates(sch, dyn, ver, count - 1, rest)
        case Failed(e) => Failed(e)
        case Got(more, rest') => Got([row] + more, rest')
  }

  /** The later of two updates of one record replaces the earlier. */
  function DecUpdates(sch: Schema, dyn: Dyn, ver: nat, count: nat, updates: map<RecordId, Row>, bs: Bytes): Read<map<RecordId, Row>>
    decreases count
  {
    if count == 0 then Got(updates, bs)
    else
      match DecCud(sch, dyn, ver, bs)
      case Failed(e) => Failed(e)
      case Got(row, rest) => DecUpdates(sch, dyn, ver, count - 1, updates[row.id := row], rest)
  }

  const NO_PARAMS := Params(0, 0, 0, 0, 0, false, 0, 0)
  const NO_EVENT := Event(NULL_QNAME, NO_PARAMS, true, NO_ERROR, NULL_OBJ, NULL_OBJ, [], map[])

  function DecBody(sch: Schema, dyn: Dyn, ver: nat, ev: Event, bs: Bytes): Read<Event> {
    match DecObj(sch, dyn, ver, bs)
    case Failed(e) => Failed(e)
    case Got(arg, b0) =>
      match DecObj(sch, dyn, ver, b0)
      case Failed(e) => Failed(e)
      case Got(unl, b1) =>
        match DecUint(2, b1)
        case Failed(e) => Failed(e)
        case Got(createCount, b2) =>
          match DecCreates(sch, dyn, ver, createCount, b2)
          case Failed(e) => Failed(e)
          case Got(creates, b3) =>
            match DecUint(2, b3)
            case Failed(e) => Failed(e)
            case Got(updateCount, b4) =>
              match DecUpdates(sch, dyn, ver, updateCount, map[], b4)
              case Failed(e) => Failed(e)
              case Got(updates, b5) => Got(ev.(arg := arg, unl := unl, creates := creates, updates := updates), b5)
  }

  /** loadEvent. */
  function DecVersioned(sch: Schema, dyn: Dyn, ver: nat, bs: Bytes): Read<Event> {
    match DecUint(2, bs)
    case Failed(e) => Failed(e)
    case Got(name, b0) =>
      if name == NULL_QNAME then Got(NO_EVENT, b0)
      else if name !in sch.names then Failed(NameNotFound)
      else
        match DecParams(b0)
        case Failed(e) => Failed(e)
        case Got(params, b1) =>
          match DecBuildError(b1)
          case Failed(e) => Failed(e)
          case Got((valid, err), b2) =>
            var ev := NO_EVENT.(name := name, params := params, valid := valid, err := err);
            if !IsValid(ev) then Got(ev, b2) else DecBody(sch, dyn, ver, ev, b2)
  }

  /** loadFromBytes. */
  function DecEvent(sch: Schema, dyn: Dyn, bs: Bytes): Read<Event> {
    if bs == [] then Failed(UnexpectedEOF)
    else if bs[0] > CODEC_RDB_2 then Failed(UnknownCodec)
    else DecVersioned(sch, dyn, bs[0], bs[1..])
  }
}
