/** Which bytes are not loaded: data that ends too early, and data that the application does not know. */
module EventRefusal {
  import opened Options
  import opened Bytes
  import opened EventCodec
  import opened EventRoundTrip
  import opened CudApply

  /* ---------- more bytes change nothing ---------- */

  /** What is read is read again when more bytes follow, and only an early end is mended by them. */
  predicate Steady<T(==)>(r: Read<T>, longer: Read<T>, more: Bytes) {
    match r
    case Got(value, rest) => longer == Got(value, rest + more)
    case Failed(e) => e == UnexpectedEOF || (longer == Failed(e) && e != UnknownCodec)
  }

  lemma UintIsSteady(size: nat, bs: Bytes, more: Bytes)
    ensures Steady(DecUint(size, bs), DecUint(size, bs + more), more)
  {
    if |bs| >= size {
      assert (bs + more)[..size] == bs[..size] && (bs + more)[size..] == bs[size..] + more;
    }
    hide FromBigEndian;
  }

  lemma Int64IsSteady(bs: Bytes, more: Bytes)
    ensures Steady(DecInt64(bs), DecInt64(bs + more), more)
  {
    UintIsSteady(8, bs, more);
    hide DecUint;
  }

  lemma BoolIsSteady(bs: Bytes, more: Bytes)
    ensures Steady(DecBool(bs), DecBool(bs + more), more)
  {
    if bs != [] {
      assert (bs + more)[1..] == bs[1..] + more;
    }
  }

  lemma BytesIsSteady(length: nat, bs: Bytes, more: Bytes)
    ensures Steady(DecBytes(length, bs), DecBytes(length, bs + more), more)
  {
    if |bs| >= length {
      assert (bs + more)[..length] == bs[..length] && (bs + more)[length..] == bs[length..] + more;
    }
  }

  lemma ShortStringIsSteady(bs: Bytes, more: Bytes)
    ensures Steady(DecShortString(bs), DecShortString(bs + more), more)
  {
    UintIsSteady(2, bs, more);
    match DecUint(2, bs) {
      case Got(length, rest) => BytesIsSteady(length, rest, more);
      case Failed(_) =>
    }
    hide DecUint, DecBytes;
  }

  lemma IfIsSteady(present: bool, size: nat, bs: Bytes, more: Bytes)
    ensures Steady(DecIf(present, size, bs), DecIf(present, size, bs + more), more)
  {
    if present {
      UintIsSteady(size, bs, more);
    }
    hide DecUint;
  }

  lemma ActiveIsSteady(sch: Schema, mask: nat, row: Row, bs: Bytes, more: Bytes)
    ensures Steady(DecActive(sch, mask, row, bs), DecActive(sch, mask, row, bs + more), more)
  {
    BoolIsSteady(bs, more);
    hide DecBool, HasBit;
  }

  lemma MaskedIsSteady(sch: Schema, mask: nat, row: Row, b0: Bytes, more: Bytes)
    requires row.qname in sch.types
    ensures Steady(DecMasked(sch, mask, row, b0), DecMasked(sch, mask, row, b0 + more), more)
  {
    hide DecUint, DecIf, DecBool, HasBit, DecActive;
    IfIsSteady(HasBit(mask, 1), 8, b0, more);
    if DecIf(HasBit(mask, 1), 8, b0).Got? {
      var b1 := DecIf(HasBit(mask, 1), 8, b0).rest;
      IfIsSteady(HasBit(mask, 2), 8, b1, more);
      if DecIf(HasBit(mask, 2), 8, b1).Got? {
        var b2 := DecIf(HasBit(mask, 2), 8, b1).rest;
        IfIsSteady(HasBit(mask, 4), 2, b2, more);
        if DecIf(HasBit(mask, 4), 2, b2).Got? {
          var id, parent, container := DecIf(HasBit(mask, 1), 8, b0).value, DecIf(HasBit(mask, 2), 8, b1).value,
            DecIf(HasBit(mask, 4), 2, b2).value;
          ActiveIsSteady(sch, mask, row.(id := id, parent := parent, container := container),
                         DecIf(HasBit(mask, 4), 2, b2).rest, more);
        }
      }
    }
  }

  lemma SysFieldsIsSteady(sch: Schema, ver: nat, row: Row, bs: Bytes, more: Bytes)
    requires row.qname in sch.types
    ensures Steady(DecSysFields(sch, ver, row, bs), DecSysFields(sch, ver, row, bs + more), more)
  {
    hide DecUint, DecSysFields, DecMasked;
    SysFieldsParts(sch, ver, row, bs);
    SysFieldsParts(sch, ver, row, bs + more);
    if ver == CODEC_RAW {
      MaskedIsSteady(sch, sch.types[row.qname].sysMask, row, bs, more);
    } else {
      UintIsSteady(2, bs, more);
      if DecUint(2, bs).Got? {
        MaskedIsSteady(sch, DecUint(2, bs).value, row, DecUint(2, bs).rest, more);
      }
    }
  }

  lemma RowIsSteady(sch: Schema, dyn: Dyn, ver: nat, bs: Bytes, more: Bytes)
    ensures Steady(DecRow(sch, dyn, ver, bs), DecRow(sch, dyn, ver, bs + more), more)
  {
    hide DecUint, DecSysFields, DecBytes;
    UintIsSteady(2, bs, more);
    if DecUint(2, bs).Got? && DecUint(2, bs).value in sch.types {
      var row := NULL_ROW.(qname := DecUint(2, bs).value);
      var b0 := DecUint(2, bs).rest;
      SysFieldsIsSteady(sch, ver, row, b0, more);
      if DecSysFields(sch, ver, row, b0).Got? {
        var b1 := DecSysFields(sch, ver, row, b0).rest;
        UintIsSteady(4, b1, more);
        if DecUint(4, b1).Got? {
          BytesIsSteady(DecUint(4, b1).value, DecUint(4, b1).rest, more);
        }
      }
    }
  }

  lemma {:induction false} NilsIsSteady(fields: seq<FieldDef>, count: nat, nils: set<Field>, bs: Bytes, more: Bytes)
    ensures Steady(DecNils(fields, count, nils, bs), DecNils(fields, count, nils, bs + more), more)
    decreases count
  {
    hide DecUint;
    if count > 0 {
      UintIsSteady(2, bs, more);
      if DecUint(2, bs).Got? && DecUint(2, bs).value < |fields| {
        NilsIsSteady(fields, count - 1, nils + {fields[DecUint(2, bs).value].name}, DecUint(2, bs).rest, more);
      }
    }
  }

  lemma CudIsSteady(sch: Schema, dyn: Dyn, ver: nat, bs: Bytes, more: Bytes)
    ensures Steady(DecCud(sch, dyn, ver, bs), DecCud(sch, dyn, ver, bs + more), more)
  {
    hide DecRow, DecUint, DecNils, UserFields;
    RowIsSteady(sch, dyn, ver, bs, more);
    if DecRow(sch, dyn, ver, bs).Got? {
      var row, b0 := DecRow(sch, dyn, ver, bs).value, DecRow(sch, dyn, ver, bs).rest;
      UintIsSteady(2, b0, more);
      if DecUint(2, b0).Got? {
        NilsIsSteady(UserFields(sch, row.qname), DecUint(2, b0).value, {}, DecUint(2, b0).rest, more);
      }
    }
  }

  lemma {:induction false} ObjIsSteady(sch: Schema, dyn: Dyn, ver: nat, bs: Bytes, more: Bytes)
    ensures Steady(DecObj(sch, dyn, ver, bs), DecObj(sch, dyn, ver, bs + more), more)
    decreases |bs|, 0
  {
    hide DecRow, DecUint, DecObjs;
    RowIsSteady(sch, dyn, ver, bs, more);
    if DecRow(sch, dyn, ver, bs).Got? {
      var b0 := DecRow(sch, dyn, ver, bs).rest;
      UintIsSteady(2, b0, more);
      if DecUint(2, b0).Got? {
        var b1 := DecUint(2, b0).rest;
        assert |b1| < |bs| by { RowAndCountShorten(sch, dyn, ver, bs); }
        ObjsIsSteady(sch, dyn, ver, DecUint(2, b0).value, b1, more);
      }
    }
  }

  lemma RowAndCountShorten(sch: Schema, dyn: Dyn, ver: nat, bs: Bytes)
    requires DecRow(sch, dyn, ver, bs).Got? && DecUint(2, DecRow(sch, dyn, ver, bs).rest).Got?
    ensures |DecUint(2, DecRow(sch, dyn, ver, bs).rest).rest| < |bs|
  {
  }

  lemma {:induction false} ObjsIsSteady(sch: Schema, dyn: Dyn, ver: nat, count: nat, bs: Bytes, more: Bytes)
    ensures Steady(DecObjs(sch, dyn, ver, count, bs), DecObjs(sch, dyn, ver, count, bs + more), more)
    decreases |bs|, count + 1
  {
    hide DecObj;
    if count > 0 {
      ObjIsSteady(sch, dyn, ver, bs, more);
      if DecObj(sch, dyn, ver, bs).Got? {
        ObjsIsSteady(sch, dyn, ver, count - 1, DecObj(sch, dyn, ver, bs).rest, more);
      }
    }
  }

  lemma SyncIsSteady(p: Params, bs: Bytes, more: Bytes)
    ensures Steady(DecSync(p, bs), DecSync(p, bs + more), more)
  {
    hide DecUint, DecInt64;
    UintIsSteady(2, bs, more);
    if DecUint(2, bs).Got? {
      Int64IsSteady(DecUint(2, bs).rest, more);
    }
  }

  lemma ParamsIsSteady(bs: Bytes, more: Bytes)
    ensures Steady(DecParams(bs), DecParams(bs + more), more)
  {
    hide DecUint, DecInt64, DecBool, DecSync;
    UintIsSteady(2, bs, more);
    if DecUint(2, bs).Got? {
      var b0 := DecUint(2, bs).rest;
      UintIsSteady(8, b0, more);
      if DecUint(8, b0).Got? {
        var b1 := DecUint(8, b0).rest;
        UintIsSteady(8, b1, more);
        if DecUint(8, b1).Got? {
          var b2 := DecUint(8, b1).rest;
          UintIsSteady(8, b2, more);
          if DecUint(8, b2).Got? {
            TimesAreSteady(DecUint(2, bs).value, DecUint(8, b0).value, DecUint(8, b1).value, DecUint(8, b2).value, DecUint(8, b2).rest, more);
          }
        }
      }
    }
  }

  lemma TimesAreSteady(partition: nat, plogOffs: nat, ws: nat, wlogOffs: nat, b3: Bytes, more: Bytes)
    ensures Steady(DecInt64(b3), DecInt64(b3 + more), more)
    ensures DecInt64(b3).Got? ==>
      var b4 := DecInt64(b3).rest;
      && Steady(DecBool(b4), DecBool(b4 + more), more)
      && (DecBool(b4).Got? ==>
            var p := Params(partition, plogOffs, ws, wlogOffs, DecInt64(b3).value, DecBool(b4).value, 0, 0);
            Steady(DecSync(p, DecBool(b4).rest), DecSync(p, DecBool(b4).rest + more), more))
  {
    hide DecUint, DecInt64, DecBool, DecSync;
    Int64IsSteady(b3, more);
    if DecInt64(b3).Got? {
      var b4 := DecInt64(b3).rest;
      BoolIsSteady(b4, more);
      if DecBool(b4).Got? {
        SyncIsSteady(Params(partition, plogOffs, ws, wlogOffs, DecInt64(b3).value, DecBool(b4).value, 0, 0), DecBool(b4).rest, more);
      }
    }
  }

  lemma BuildErrorIsSteady(bs: Bytes, more: Bytes)
    ensures Steady(DecBuildError(bs), DecBuildError(bs + more), more)
  {
    hide DecUint, DecBool, DecShortString, DecBytes, Dots;
    BoolIsSteady(bs, more);
    if DecBool(bs).Got? {
      var b0 := DecBool(bs).rest;
      ShortStringIsSteady(b0, more);
      if DecShortString(b0).Got? {
        var b1 := DecShortString(b0).rest;
        ShortStringIsSteady(b1, more);
        if DecShortString(b1).Got? {
          var b2 := DecShortString(b1).rest;
          UintIsSteady(4, b2, more);
          if DecUint(4, b2).Got? {
            BytesIsSteady(DecUint(4, b2).value, DecUint(4, b2).rest, more);
          }
        }
      }
    }
  }

  lemma {:induction false} CreatesIsSteady(sch: Schema, dyn: Dyn, ver: nat, count: nat, bs: Bytes, more: Bytes)
    ensures Steady(DecCreates(sch, dyn, ver, count, bs), DecCreates(sch, dyn, ver, count, bs + more), more)
    decreases count
  {
    hide DecCud;
    if count > 0 {
      CudIsSteady(sch, dyn, ver, bs, more);
      if DecCud(sch, dyn, ver, bs).Got? {
        CreatesIsSteady(sch, dyn, ver, count - 1, DecCud(sch, dyn, ver, bs).rest, more);
      }
    }
  }

  lemma {:induction false} UpdatesIsSteady(sch: Schema, dyn: Dyn, ver: nat, count: nat, updates: map<RecordId, Row>, bs: Bytes, more: Bytes)
    ensures Steady(DecUpdates(sch, dyn, ver, count, updates, bs), DecUpdates(sch, dyn, ver, count, updates, bs + more), more)
    decreases count
  {
    hide DecCud;
    if count > 0 {
      CudIsSteady(sch, dyn, ver, bs, more);
      if DecCud(sch, dyn, ver, bs).Got? {
        var row := DecCud(sch, dyn, ver, bs).value;
        UpdatesIsSteady(sch, dyn, ver, count - 1, updates[row.id := row], DecCud(sch, dyn, ver, bs).rest, more);
      }
    }
  }

  lemma BodyIsSteady(sch: Schema, dyn: Dyn, ver: nat, ev: Event, bs: Bytes, more: Bytes)
    ensures Steady(DecBody(sch, dyn, ver, ev, bs), DecBody(sch, dyn, ver, ev, bs + more), more)
  {
    hide DecObj, DecUint, DecCreates, DecUpdates;
    ObjIsSteady(sch, dyn, ver, bs, more);
    if DecObj(sch, dyn, ver, bs).Got? {
      var b0 := DecObj(sch, dyn, ver, bs).rest;
      ObjIsSteady(sch, dyn, ver, b0, more);
      if DecObj(sch, dyn, ver, b0).Got? {
        var b1 := DecObj(sch, dyn, ver, b0).rest;
        UintIsSteady(2, b1, more);
        if DecUint(2, b1).Got? {
          var b2 := DecUint(2, b1).rest;
          CreatesIsSteady(sch, dyn, ver, DecUint(2, b1).value, b2, more);
          if DecCreates(sch, dyn, ver, DecUint(2, b1).value, b2).Got? {
            var b3 := DecCreates(sch, dyn, ver, DecUint(2, b1).value, b2).rest;
            UintIsSteady(2, b3, more);
            if DecUint(2, b3).Got? {
              UpdatesIsSteady(sch, dyn, ver, DecUint(2, b3).value, map[], DecUint(2, b3).rest, more);
            }
          }
        }
      }
    }
  }

  lemma VersionedIsSteady(sch: Schema, dyn: Dyn, ver: nat, bs: Bytes, more: Bytes)
    ensures Steady(DecVersioned(sch, dyn, ver, bs), DecVersioned(sch, dyn, ver, bs + more), more)
  {
    hide DecUint, DecParams, DecBuildError, DecBody;
    UintIsSteady(2, bs, more);
    if DecUint(2, bs).Got? {
      var b0 := DecUint(2, bs).rest;
      ParamsIsSteady(b0, more);
      if DecParams(b0).Got? {
        var b1 := DecParams(b0).rest;
        BuildErrorIsSteady(b1, more);
        if DecBuildError(b1).Got? {
          var (valid, err) := DecBuildError(b1).value;
          BodyIsSteady(sch, dyn, ver, NO_EVENT.(name := DecUint(2, bs).value, params := DecParams(b0).value, valid := valid, err := err),
                       DecBuildError(b1).rest, more);
        }
      }
    }
  }

  /* ---------- data that ends too early ---------- */

  /** If all bytes of the data are needed, every proper part from its beginning is refused as too short. */
  lemma ShorterIsRefused<T>(part: Read<T>, all: Read<T>, more: Bytes, value: T)
    requires Steady(part, all, more) && all == Got(value, []) && more != []
    ensures part == Failed(UnexpectedEOF)
  {
    forall r: Bytes
      ensures r + more != []
    {
      assert |r + more| > 0;
    }
  }

  /** Whatever is cut off the end of a stored event, loading it fails with an unexpected end of data. */
  lemma TruncatedEventIsRefused(sch: Schema, dyn: Dyn, ev: Event, ord: Orders, n: nat)
    requires ValidEvent(sch, dyn, ev) && OrdersOf(ev, ord) && n < |EncEvent(sch, dyn, ev, ord)|
    ensures DecEvent(sch, dyn, EncEvent(sch, dyn, ev, ord)[..n]) == Failed(UnexpectedEOF)
  {
    var bs := EncEvent(sch, dyn, ev, ord);
    hide EncEvent, DecVersioned, DecEvent, ValidEvent, OrdersOf, StoredEvent;
    EventReadsBack(sch, dyn, ev, ord, []);
    assert bs + [] == bs;
    PartIsRefused(sch, dyn, bs, StoredEvent(sch, ev), n);
  }

  lemma PartIsRefused(sch: Schema, dyn: Dyn, bs: Bytes, ev: Event, n: nat)
    requires DecEvent(sch, dyn, bs) == Got(ev, []) && n < |bs|
    ensures DecEvent(sch, dyn, bs[..n]) == Failed(UnexpectedEOF)
  {
    hide DecVersioned;
    if n > 0 {
      var part, more := bs[..n], bs[n..];
      assert bs[0] == part[0] && part[1..] + more == bs[1..];
      VersionedIsSteady(sch, dyn, bs[0], part[1..], more);
      ShorterIsRefused(DecVersioned(sch, dyn, bs[0], part[1..]), DecVersioned(sch, dyn, bs[0], bs[1..]), more, ev);
    }
  }

  /** The same for a stored record. */
  lemma TruncatedRecordIsRefused(sch: Schema, dyn: Dyn, row: Row, n: nat)
    requires ValidRow(sch, dyn, row) && n < |StoreRecord(dyn, row)|
    ensures LoadRecord(sch, dyn, StoreRecord(dyn, row)[..n]) == Failed(UnexpectedEOF)
  {
    var bs := StoreRecord(dyn, row);
    var part, more := bs[..n], bs[n..];
    RecordReadsBack(sch, dyn, row);
    hide StoreRecord, DecRow, ValidRow;
    if n > 0 {
      assert bs[0] == part[0] && part[1..] + more == bs[1..];
      RowIsSteady(sch, dyn, bs[0], part[1..], more);
      ShorterIsRefused(DecRow(sch, dyn, bs[0], part[1..]), DecRow(sch, dyn, bs[0], bs[1..]), more, Copy(row));
    }
  }

  /* ---------- data of another application ---------- */

  /** A codec is unknown exactly if the first byte says so. */
  lemma UnknownCodecExactlyIf(sch: Schema, dyn: Dyn, bs: Bytes)
    ensures DecEvent(sch, dyn, bs) == Failed(UnknownCodec) <==> bs != [] && bs[0] > 2
    ensures LoadRecord(sch, dyn, bs) == Failed(UnknownCodec) <==> bs != [] && bs[0] > 2
  {
    if bs != [] {
      VersionedIsSteady(sch, dyn, bs[0], bs[1..], []);
      RowIsSteady(sch, dyn, bs[0], bs[1..], []);
    }
    hide DecVersioned, DecRow;
  }

  /** What a row needs of the application that reads it. */
  function NotFound(sch: Schema, row: Row): Option<Error> {
    if row.qname == NULL_QNAME then None
    else if row.qname !in sch.names then Some(NameNotFound)
    else if row.qname !in sch.types then Some(TypeNotFound)
    else if row.container != 0 && row.container !in sch.containers then Some(ContainerNotFound)
    else None
  }

  /** A row that one application stored is loaded by another exactly if that knows its name, its type and its
      container; otherwise the error says which of them is the first that it does not know. */
  lemma ForeignRowReadsExactlyIf(sch: Schema, other: Schema, dyn: Dyn, row: Row, rest: Bytes)
    requires ValidRow(sch, dyn, row)
    ensures DecRow(other, dyn, CODEC_RDB_2, EncRow(dyn, row) + rest)
      == match NotFound(other, row) case Some(e) => Failed(e) case None => Got(row.(nils := {}), rest)
  {
    if NotFound(other, row).None? {
      KnownRowIsValid(sch, other, dyn, row);
      RowReadsBack(other, dyn, row, rest);
    } else {
      var b := dyn.enc(row.fields);
      var tail := BigEndian(|b|, 4) + (b + rest);
      RowSplit(dyn, row, rest);
      Uint16ReadsBack(row.qname, EncSysFields(row) + tail);
      if row.qname in other.names && row.qname in other.types {
        UnknownContainer(sch, other, dyn, row, NULL_ROW.(qname := row.qname), tail);
      }
    }
    hide EncRow, EncSysFields, DecUint, BigEndian, DecSysFields, DecBytes, ValidRow;
  }

  lemma KnownRowIsValid(sch: Schema, other: Schema, dyn: Dyn, row: Row)
    requires ValidRow(sch, dyn, row) && NotFound(other, row).None?
    ensures ValidRow(other, dyn, row)
  {
  }

  lemma UnknownContainer(sch: Schema, other: Schema, dyn: Dyn, row: Row, from: Row, rest: Bytes)
    requires ValidRow(sch, dyn, row) && row.qname != NULL_QNAME && from == NULL_ROW.(qname := row.qname)
    requires row.qname in other.types && row.container != 0 && row.container !in other.containers
    ensures DecSysFields(other, CODEC_RDB_2, from, EncSysFields(row) + rest) == Failed(ContainerNotFound)
  {
    var tail := (if !row.active then EncBool(false) else []) + rest;
    SysFieldsSplit(row, rest);
    MaskBits(row);
    Pow256Values();
    Uint16ReadsBack(SysMask(row), EncIf(row.id, 8) + (EncIf(row.parent, 8) + (EncIf(row.container, 2) + tail)));
    IfReadsBack(row.id, 8, EncIf(row.parent, 8) + (EncIf(row.container, 2) + tail));
    IfReadsBack(row.parent, 8, EncIf(row.container, 2) + tail);
    IfReadsBack(row.container, 2, tail);
    SysFieldsParts(other, CODEC_RDB_2, from, EncSysFields(row) + rest);
    hide EncSysFields, DecSysFields, DecUint, BigEndian, EncIf, DecIf, DecBool, HasBit, SysMask, EncBool, Faithful, Pow256;
  }

  /** What is wrong with an index of an emptied field. */
  function IndexError(fields: seq<FieldDef>, i: nat): Option<Error> {
    if i >= |fields| then Some(OutOfBounds)
    else if fields[i].kind.StringKind? || fields[i].kind.BytesKind? then None
    else Some(WrongType)
  }

  function FirstError(fields: seq<FieldDef>, indexes: seq<nat>): Option<Error> {
    if indexes == [] then None
    else if IndexError(fields, indexes[0]).Some? then IndexError(fields, indexes[0])
    else FirstError(fields, indexes[1..])
  }

  function NamesAt(fields: seq<FieldDef>, indexes: seq<nat>): set<Field>
    requires forall i | i in indexes :: i < |fields|
  {
    set i | i in indexes :: fields[i].name
  }

  lemma NamesAtCons(fields: seq<FieldDef>, indexes: seq<nat>, before: set<Field>)
    requires indexes != [] && indexes[0] < |fields| && forall i | i in indexes[1..] :: i < |fields|
    ensures forall i | i in indexes :: i < |fields|
    ensures before + {fields[indexes[0]].name} + NamesAt(fields, indexes[1..]) == before + NamesAt(fields, indexes)
  {
    assert indexes == [indexes[0]] + indexes[1..];
  }

  /** A list of emptied fields is read exactly if every index is that of a string or bytes field; otherwise the
      first that is not tells whether there is no such field or one of another type. */
  lemma {:induction false} IndexesReadExactlyIf(fields: seq<FieldDef>, indexes: seq<nat>, before: set<Field>, rest: Bytes)
    requires forall i | i in indexes :: i < 0x1_0000
    ensures FirstError(fields, indexes).None? ==> forall i | i in indexes :: i < |fields|
    ensures DecNils(fields, |indexes|, before, EncIndexes(indexes) + rest)
      == match FirstError(fields, indexes) case Some(e) => Failed(e) case None => Got(before + NamesAt(fields, indexes), rest)
    decreases |indexes|
  {
    hide DecUint, BigEndian;
    if indexes == [] {
      assert [] + rest == rest && before + NamesAt(fields, indexes) == before;
    } else {
      assert indexes[0] in indexes && indexes == [indexes[0]] + indexes[1..];
      EncIndexesCons(indexes[0], indexes[1..], rest);
      Uint16ReadsBack(indexes[0], EncIndexes(indexes[1..]) + rest);
      if IndexError(fields, indexes[0]).None? {
        assert forall i | i in indexes[1..] :: i in indexes;
        IndexesReadExactlyIf(fields, indexes[1..], before + {fields[indexes[0]].name}, rest);
        if FirstError(fields, indexes[1..]).None? {
          NamesAtCons(fields, indexes, before);
        }
      }
    }
    hide EncIndexes, NamesAt;
  }

  /** A list that is shorter than announced is refused as too short, whatever its indexes are. */
  lemma ShortListIsRefused(sch: Schema, dyn: Dyn, row: Row, count: nat, list: Bytes)
    requires ValidRow(sch, dyn, row) && count < 0x1_0000 && 2 * count > |list|
    ensures DecCud(sch, dyn, CODEC_RDB_2, EncRow(dyn, row) + (BigEndian(count, 2) + list)) == Failed(UnexpectedEOF)
  {
    RowReadsBack(sch, dyn, row, BigEndian(count, 2) + list);
    Uint16ReadsBack(count, list);
    hide EncRow, DecRow, DecUint, BigEndian, DecNils, ValidRow;
  }

  /** An application that does not know the stored name of an event does not load it. */
  lemma ForeignEventIsRefused(sch: Schema, other: Schema, dyn: Dyn, ev: Event, ord: Orders, rest: Bytes)
    requires ValidEvent(sch, dyn, ev) && OrdersOf(ev, ord) && StoredName(ev) !in other.names
    ensures DecEvent(other, dyn, EncEvent(sch, dyn, ev, ord) + rest) == Failed(NameNotFound)
  {
    var body := (if IsValid(ev) then EncBody(sch, dyn, ev, ord) else []) + rest;
    var tail := EncParams(ev.params) + (EncBuildError(sch, ev) + body);
    EventSplit(sch, dyn, ev, ord, rest);
    StoredNameIsKnown(sch, dyn, ev);
    Uint16ReadsBack(StoredName(ev), tail);
    hide EncEvent, EncBody, EncParams, EncBuildError, DecUint, BigEndian, DecParams, DecBuildError, DecBody, ValidEvent, OrdersOf, StoredName;
    FirstByte(CODEC_RDB_2, BigEndian(StoredName(ev), 2) + tail);
  }

  /* ---------- what was loaded is known ---------- */

  predicate KnownRow(sch: Schema, row: Row) {
    row.qname == NULL_QNAME || (row.qname in sch.names && row.qname in sch.types && (row.container == 0 || row.container in sch.containers))
  }

  predicate KnownCud(sch: Schema, row: Row) {
    KnownRow(sch, row) && forall f | f in row.nils :: IsEmptiable(UserFields(sch, row.qname), f)
  }

  predicate IsEmptiable(fields: seq<FieldDef>, f: Field) {
    exists i | 0 <= i < |fields| :: fields[i].name == f && (fields[i].kind.StringKind? || fields[i].kind.BytesKind?)
  }

  ghost predicate KnownObj(sch: Schema, o: Obj)
    decreases o
  {
    KnownRow(sch, o.row) && forall i | 0 <= i < |o.children| :: KnownObj(sch, o.children[i])
  }

  ghost predicate KnownEvent(sch: Schema, ev: Event) {
    && (ev.name == NULL_QNAME || ev.name in sch.names)
    && (!ev.valid ==> Dots(ev.err.qname) == 1)
    && KnownObj(sch, ev.arg) && KnownObj(sch, ev.unl)
    && (forall i | 0 <= i < |ev.creates| :: KnownCud(sch, ev.creates[i]))
    && (forall id | id in ev.updates :: ev.updates[id].id == id && KnownCud(sch, ev.updates[id]))
  }

  lemma MaskedIsKnown(sch: Schema, mask: nat, row: Row, bs: Bytes)
    requires row.qname in sch.types && DecMasked(sch, mask, row, bs).Got? && row.container == 0
    ensures var r := DecMasked(sch, mask, row, bs).value;
      r.qname == row.qname && r.nils == row.nils && (r.container == 0 || r.container in sch.containers)
  {
    hide DecUint, DecBool, HasBit;
  }

  lemma RowIsKnown(sch: Schema, dyn: Dyn, ver: nat, bs: Bytes)
    requires DecRow(sch, dyn, ver, bs).Got?
    ensures KnownRow(sch, DecRow(sch, dyn, ver, bs).value) && DecRow(sch, dyn, ver, bs).value.nils == {}
  {
    hide DecUint, DecSysFields, DecBytes, DecMasked;
    if DecUint(2, bs).value != NULL_QNAME {
      var row := NULL_ROW.(qname := DecUint(2, bs).value);
      var b0 := DecUint(2, bs).rest;
      SysFieldsParts(sch, ver, row, b0);
      if ver == CODEC_RAW {
        MaskedIsKnown(sch, sch.types[row.qname].sysMask, row, b0);
      } else {
        MaskedIsKnown(sch, DecUint(2, b0).value, row, DecUint(2, b0).rest);
      }
    }
  }

  lemma {:induction false} NilsAreKnown(fields: seq<FieldDef>, count: nat, nils: set<Field>, bs: Bytes)
    requires DecNils(fields, count, nils, bs).Got? && forall f | f in nils :: IsEmptiable(fields, f)
    ensures forall f | f in DecNils(fields, count, nils, bs).value :: IsEmptiable(fields, f)
    decreases count
  {
    hide DecUint;
    if count > 0 {
      NilsAreKnown(fields, count - 1, nils + {fields[DecUint(2, bs).value].name}, DecUint(2, bs).rest);
    }
  }

  lemma CudIsKnown(sch: Schema, dyn: Dyn, ver: nat, bs: Bytes)
    requires DecCud(sch, dyn, ver, bs).Got?
    ensures KnownCud(sch, DecCud(sch, dyn, ver, bs).value)
  {
    hide DecRow, DecUint, DecNils, UserFields, IsEmptiable;
    RowIsKnown(sch, dyn, ver, bs);
    var row, b0 := DecRow(sch, dyn, ver, bs).value, DecRow(sch, dyn, ver, bs).rest;
    if ver >= CODEC_RDB_2 {
      NilsAreKnown(UserFields(sch, row.qname), DecUint(2, b0).value, {}, DecUint(2, b0).rest);
    }
  }

  lemma {:induction false} ObjIsKnown(sch: Schema, dyn: Dyn, ver: nat, bs: Bytes)
    requires DecObj(sch, dyn, ver, bs).Got?
    ensures KnownObj(sch, DecObj(sch, dyn, ver, bs).value)
    decreases |bs|, 0
  {
    hide DecRow, DecUint, DecObjs, KnownRow;
    RowIsKnown(sch, dyn, ver, bs);
    var row, b0 := DecRow(sch, dyn, ver, bs).value, DecRow(sch, dyn, ver, bs).rest;
    if row.qname != NULL_QNAME {
      assert |DecUint(2, b0).rest| < |bs| by { RowAndCountShorten(sch, dyn, ver, bs); }
      ObjsAreKnown(sch, dyn, ver, DecUint(2, b0).value, DecUint(2, b0).rest);
    }
  }

  lemma {:induction false} ObjsAreKnown(sch: Schema, dyn: Dyn, ver: nat, count: nat, bs: Bytes)
    requires DecObjs(sch, dyn, ver, count, bs).Got?
    ensures var os := DecObjs(sch, dyn, ver, count, bs).value; forall i | 0 <= i < |os| :: KnownObj(sch, os[i])
    decreases |bs|, count + 1
  {
    hide DecObj, KnownObj;
    if count > 0 {
      ObjIsKnown(sch, dyn, ver, bs);
      ObjsAreKnown(sch, dyn, ver, count - 1, DecObj(sch, dyn, ver, bs).rest);
    }
  }

  lemma {:induction false} CreatesAreKnown(sch: Schema, dyn: Dyn, ver: nat, count: nat, bs: Bytes)
    requires DecCreates(sch, dyn, ver, count, bs).Got?
    ensures var rows := DecCreates(sch, dyn, ver, count, bs).value; forall i | 0 <= i < |rows| :: KnownCud(sch, rows[i])
    decreases count
  {
    hide DecCud, KnownCud;
    if count > 0 {
      CudIsKnown(sch, dyn, ver, bs);
      CreatesAreKnown(sch, dyn, ver, count - 1, DecCud(sch, dyn, ver, bs).rest);
    }
  }

  lemma {:induction false} UpdatesAreKnown(sch: Schema, dyn: Dyn, ver: nat, count: nat, updates: map<RecordId, Row>, bs: Bytes)
    requires DecUpdates(sch, dyn, ver, count, updates, bs).Got?
    requires forall id | id in updates :: updates[id].id == id && KnownCud(sch, updates[id])
    ensures var r := DecUpdates(sch, dyn, ver, count, updates, bs).value;
      forall id | id in r :: r[id].id == id && KnownCud(sch, r[id])
    decreases count
  {
    hide DecCud, KnownCud;
    if count > 0 {
      CudIsKnown(sch, dyn, ver, bs);
      var row := DecCud(sch, dyn, ver, bs).value;
      UpdatesAreKnown(sch, dyn, ver, count - 1, updates[row.id := row], DecCud(sch, dyn, ver, bs).rest);
    }
  }

  lemma BuildErrorIsKnown(bs: Bytes)
    requires DecBuildError(bs).Got?
    ensures var (valid, err) := DecBuildError(bs).value; !valid ==> Dots(err.qname) == 1
  {
    hide DecUint, DecBool, DecShortString, DecBytes, Dots;
  }

  lemma BodyIsKnown(sch: Schema, dyn: Dyn, ver: nat, from: Event, bs: Bytes)
    requires DecBody(sch, dyn, ver, from, bs).Got?
    requires (from.name == NULL_QNAME || from.name in sch.names) && (!from.valid ==> Dots(from.err.qname) == 1)
    ensures KnownEvent(sch, DecBody(sch, dyn, ver, from, bs).value)
  {
    hide DecObj, DecUint, DecCreates, DecUpdates, KnownObj, KnownCud, Dots;
    ObjIsKnown(sch, dyn, ver, bs);
    var b0 := DecObj(sch, dyn, ver, bs).rest;
    ObjIsKnown(sch, dyn, ver, b0);
    var b1 := DecObj(sch, dyn, ver, b0).rest;
    var b2 := DecUint(2, b1).rest;
    CreatesAreKnown(sch, dyn, ver, DecUint(2, b1).value, b2);
    var b3 := DecCreates(sch, dyn, ver, DecUint(2, b1).value, b2).rest;
    UpdatesAreKnown(sch, dyn, ver, DecUint(2, b3).value, map[], DecUint(2, b3).rest);
  }

  lemma NoEventIsKnown(sch: Schema)
    ensures KnownObj(sch, NULL_OBJ)
  {
  }

  /** Whatever bytes are loaded, by any codec: the event, all its rows and their containers are known to the
      application, its emptied fields are string or bytes fields of their types, every update is found under
      its own identifier, and the name of an invalid event is well formed. */
  lemma LoadedEventIsKnown(sch: Schema, dyn: Dyn, bs: Bytes)
    requires DecEvent(sch, dyn, bs).Got?
    ensures KnownEvent(sch, DecEvent(sch, dyn, bs).value)
  {
    hide DecUint, DecParams, DecBuildError, DecBody, KnownObj, KnownCud, Dots;
    var ver, b := bs[0], bs[1..];
    var name, b0 := DecUint(2, b).value, DecUint(2, b).rest;
    NoEventIsKnown(sch);
    if name != NULL_QNAME {
      var b1 := DecParams(b0).rest;
      BuildErrorIsKnown(b1);
      var (valid, err) := DecBuildError(b1).value;
      var from := NO_EVENT.(name := name, params := DecParams(b0).value, valid := valid, err := err);
      if IsValid(from) {
        BodyIsKnown(sch, dyn, ver, from, DecBuildError(b1).rest);
      }
    }
  }

  /* ---------- what is not stored ---------- */

  /** The bytes of an invalid event with an unlogged argument do not depend on the bytes that it was made from,
      and are stored under the name of errors unless the event is corrupted. */
  lemma UnloggedBytesAreNotStored(sch: Schema, dyn: Dyn, ev: Event, ord: Orders, bytes: Bytes)
    requires OrdersOf(ev, ord) && ValidParams(ev.params) && !(ev.name != 3 && ev.valid) && ev.unl.row.qname != 0
    ensures EncEvent(sch, dyn, ev, ord) == EncEvent(sch, dyn, ev.(err := ev.err.(bytes := bytes)), ord)
    ensures DecUint(2, EncEvent(sch, dyn, ev, ord)[1..]).Got?
    ensures DecUint(2, EncEvent(sch, dyn, ev, ord)[1..]).value == if ev.name == 3 then 3 else 1
  {
    var name := StoredName(ev);
    var tail := EncParams(ev.params) + EncBuildError(sch, ev);
    assert EncEvent(sch, dyn, ev, ord) == [CODEC_RDB_2] + (BigEndian(name, 2) + tail) by {
      assert EncParams(ev.params) + (EncBuildError(sch, ev) + []) == tail;
      hide EncParams, EncBuildError, BigEndian;
    }
    Uint16ReadsBack(name, tail);
    hide DecUint, BigEndian, EncParams, EncShortString, EncBool, Enumerates;
  }
}
