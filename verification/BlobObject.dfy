/** writeBLOB and ReadBLOB of pkg/iblobstoragestg with their loops, errors and the BLOB state, over a storage
    that reads a partition in the order of its clustering columns. */
module BlobObject {
  import opened Bytes
  import opened Blob
  import opened BlobOrder
  import opened BlobLayout
  import opened BlobTheorems

  datatype ReadError = NoError | EOF | Failure

  /** One read of the input, and whether the limiter and the storage accept what was read. */
  datatype Read = Read(data: Bytes, err: ReadError, limitOk: bool, stored: bool)

  /** BLOBState: the size, and whether an error was recorded. */
  datatype BlobState = BlobState(size: nat, failed: bool)

  datatype ReadResult = Ok(data: Bytes) | NotFound | Corrupted

  /** The loop of writeBLOB; without the end of the input its context was cancelled.  An error that comes
      with data is overwritten by the answers of the limiter and the storage. */
  function Process(w: Writer, blobKey: Bytes, input: seq<Read>): (Writer, bool)
    decreases |input|
  {
    if input == [] then (w, false)
    else
      var r := input[0];
      if r.data != [] then
        var bytes := w.bytes + |r.data|;
        if !r.limitOk then (w.(bytes := bytes), false)
        else if !r.stored then (w.(bytes := bytes, bucket := NextBucket(w.bucket, bytes)), false)
        else Process(Insert(w, blobKey, r.data), blobKey, input[1..])
      else if r.err.NoError? then Process(w, blobKey, input[1..])
      else (w, r.err.EOF?)
  }

  lemma ProcessStep(w: Writer, blobKey: Bytes, r: Read, rest: seq<Read>)
    ensures Process(w, blobKey, [r] + rest) ==
      if r.data != [] then
        var bytes := w.bytes + |r.data|;
        if !r.limitOk then (w.(bytes := bytes), false)
        else if !r.stored then (w.(bytes := bytes, bucket := NextBucket(w.bucket, bytes)), false)
        else Process(Insert(w, blobKey, r.data), blobKey, rest)
      else if r.err.NoError? then Process(w, blobKey, rest)
      else (w, r.err.EOF?)
  {
    assert ([r] + rest)[1..] == rest;
  }

  lemma ProcessEnd(w: Writer, blobKey: Bytes)
    ensures Process(w, blobKey, []) == (w, false)
  {
  }

  lemma InsertIs(w: Writer, blobKey: Bytes, data: Bytes)
    ensures
      var bytes := w.bytes + |data|;
      var bucket := NextBucket(w.bucket, bytes);
      Insert(w, blobKey, data) == Writer(w.store[Key(BucketKey(blobKey, bucket), ChunkColumn(w.chunk)) := data], bytes, w.chunk + 1, bucket)
  {
  }

  lemma NextBucketIs(bucket: nat, bytes: nat)
    ensures NextBucket(bucket, bytes) == if bytes > CHUNK_SIZE * BUCKET_SIZE * bucket then bucket + 1 else bucket
  {
  }

  /** The non-empty data before the end of the input. */
  function DataOf(input: seq<Read>): seq<Bytes>
    decreases |input|
  {
    if input == [] then []
    else if input[0].data != [] then [input[0].data] + DataOf(input[1..])
    else if input[0].err.NoError? then DataOf(input[1..])
    else []
  }

  ghost function ResultOf(st: Store, states: map<Bytes, BlobState>, blobKey: Bytes): ReadResult {
    var chunks := ReadAll(st, blobKey);
    if blobKey in states && states[blobKey].failed then Corrupted
    else if blobKey !in states then if chunks == [] then NotFound else Corrupted
    else if TotalSize(chunks) != states[blobKey].size then Corrupted
    else Ok(Concat(chunks))
  }

  lemma {:induction false} WrittenJoins(st: Store, blobKey: Bytes, before: seq<Bytes>, data: Bytes)
    ensures Insert(Written(st, blobKey, before), blobKey, data) == Written(st, blobKey, before + [data])
  {
    assert (before + [data])[..|before|] == before;
  }

  /** A completed write stored exactly the input. */
  lemma {:induction false} CompletedWrite(st: Store, blobKey: Bytes, before: seq<Bytes>, input: seq<Read>)
    requires Process(Written(st, blobKey, before), blobKey, input).1
    ensures Process(Written(st, blobKey, before), blobKey, input).0 == Written(st, blobKey, before + DataOf(input))
    decreases |input|
  {
    hide Insert, Written, NextBucket;
    var r := input[0];
    if r.data != [] {
      WrittenJoins(st, blobKey, before, r.data);
      CompletedWrite(st, blobKey, before + [r.data], input[1..]);
      assert before + [r.data] + DataOf(input[1..]) == before + ([r.data] + DataOf(input[1..]));
    } else if r.err.NoError? {
      CompletedWrite(st, blobKey, before, input[1..]);
    } else {
      assert before + [] == before;
    }
  }

  /** After a write: a failed one reads as corrupted; a completed one is never corrupted and gives as many
      bytes as were written; and if no bucket crosses a multiple of 256 chunk numbers, the same bytes. */
  lemma WriteThenRead(st: Store, states: map<Bytes, BlobState>, blobKey: Bytes, input: seq<Read>)
    requires Fresh(st, blobKey) && ValidChunks(DataOf(input))
    ensures
      var (w, completed) := Process(Writer(st, 0, 0, 1), blobKey, input);
      var result := ResultOf(w.store, states[blobKey := BlobState(w.bytes, !completed)], blobKey);
      var data := DataOf(input);
      && (!completed ==> result == Corrupted)
      && (completed ==> result == Ok(Concat(ReadAll(w.store, blobKey))) && w.bytes == TotalSize(data))
      && (completed && OneBlockPerBucket(data) ==> result == Ok(Concat(data)))
  {
    var (w, completed) := Process(Writer(st, 0, 0, 1), blobKey, input);
    assert Written(st, blobKey, []) == Writer(st, 0, 0, 1);
    if completed {
      CompletedWrite(st, blobKey, [], input);
      assert [] + DataOf(input) == DataOf(input);
      ReadSizeIsWrittenSize(st, blobKey, DataOf(input));
      if OneBlockPerBucket(DataOf(input)) {
        ReadBack(st, blobKey, DataOf(input));
      }
    }
    hide Process, Written, ReadAll, TotalSize, Concat, DataOf;
  }

  /** A crash leaves some first chunks, with the state as it was before the end: none, or one without a size.  Such
      a BLOB reads as not found exactly if neither state nor chunk is there, as corrupted exactly if there is a
      chunk, and as an empty BLOB exactly if the crash came after the state and before the first chunk. */
  lemma InterruptedWriteReads(st: Store, states: map<Bytes, BlobState>, blobKey: Bytes, chunks: seq<Bytes>, started: bool)
    requires Fresh(st, blobKey) && ValidChunks(chunks) && blobKey !in states
    ensures
      var found := if started then states[blobKey := BlobState(0, false)] else states;
      ResultOf(Written(st, blobKey, chunks).store, found, blobKey)
      == if chunks != [] then Corrupted else if started then Ok([]) else NotFound
  {
    ReadSizeIsWrittenSize(st, blobKey, chunks);
    NonEmptySize(chunks);
    NonEmptySize(ReadAll(Written(st, blobKey, chunks).store, blobKey));
    if chunks == [] {
      NothingIsRead(st, blobKey);
    }
    hide Written, ReadAll, ValidChunks, Fresh;
  }

  lemma NonEmptySize(chunks: seq<Bytes>)
    ensures chunks == [] ==> TotalSize(chunks) == 0 && Concat(chunks) == []
    ensures chunks != [] && ValidChunks(chunks) ==> TotalSize(chunks) > 0
  {
    if chunks != [] {
      assert ValidChunks(chunks) ==> |chunks[|chunks| - 1]| > 0;
    }
  }

  lemma NothingIsRead(st: Store, blobKey: Bytes)
    requires Fresh(st, blobKey)
    ensures ReadAll(Written(st, blobKey, []).store, blobKey) == []
  {
    FilledBuckets(st, blobKey, [], 1);
    hide Written, Fresh;
  }

  /** The loop goes on after the read: its data was accepted, or it had neither data nor an error. */
  predicate GoesOn(r: Read) {
    if r.data != [] then r.limitOk && r.stored else r.err.NoError?
  }

  /** Read `n` is the end of the input, and the loop comes to it. */
  predicate EndsAt(input: seq<Read>, n: nat) {
    n < |input| && input[n].data == [] && input[n].err.EOF? && forall i | 0 <= i < n :: GoesOn(input[i])
  }

  /** A write is completed exactly if the loop comes to the end of the input. */
  lemma {:induction false} CompletedExactlyIf(w: Writer, blobKey: Bytes, input: seq<Read>)
    ensures Process(w, blobKey, input).1 <==> exists n: nat :: EndsAt(input, n)
    decreases |input|
  {
    hide Insert, NextBucket;
    if input != [] {
      var r, rest := input[0], input[1..];
      if GoesOn(r) {
        var w' := if r.data != [] then Insert(w, blobKey, r.data) else w;
        CompletedExactlyIf(w', blobKey, rest);
        if n: nat :| EndsAt(rest, n) {
          assert forall i | 1 <= i < n + 1 :: input[i] == rest[i - 1];
          assert EndsAt(input, n + 1);
        }
        if n: nat :| EndsAt(input, n) {
          assert n > 0 && forall i | 0 <= i < n - 1 :: rest[i] == input[i + 1];
          assert EndsAt(rest, n - 1);
        }
      } else if r.data == [] && r.err.EOF? {
        assert EndsAt(input, 0);
      }
    }
  }

  /** An error that comes with data makes no difference. */
  lemma {:induction false} ErrorWithDataIsIgnored(w: Writer, blobKey: Bytes, input: seq<Read>, i: nat, err: ReadError)
    requires i < |input| && input[i].data != []
    ensures Process(w, blobKey, input[i := input[i].(err := err)]) == Process(w, blobKey, input)
    decreases |input|
  {
    hide Insert, NextBucket;
    var r := input[0];
    var changed := input[i := input[i].(err := err)];
    if i == 0 {
      assert changed[1..] == input[1..];
    } else if GoesOn(r) {
      var w' := if r.data != [] then Insert(w, blobKey, r.data) else w;
      ErrorWithDataIsIgnored(w', blobKey, input[1..], i - 1, err);
      assert changed[1..] == input[1..][i - 1 := input[1..][i - 1].(err := err)];
    }
  }

  /** So an error that the reader returns together with data is lost, and the BLOB reads as a whole one,
      exactly if all is accepted and the later reads end without an error of their own; otherwise the BLOB
      reads as corrupted. */
  lemma ErrorWithDataIsLostExactlyIf(st: Store, states: map<Bytes, BlobState>, blobKey: Bytes, input: seq<Read>, i: nat)
    requires Fresh(st, blobKey) && ValidChunks(DataOf(input))
    requires i < |input| && input[i].data != [] && input[i].err.Failure?
    ensures
      var (w, completed) := Process(Writer(st, 0, 0, 1), blobKey, input);
      var result := ResultOf(w.store, states[blobKey := BlobState(w.bytes, !completed)], blobKey);
      && result == (if exists n: nat :: EndsAt(input, n) then Ok(Concat(ReadAll(w.store, blobKey))) else Corrupted)
      && Process(Writer(st, 0, 0, 1), blobKey, input[i := input[i].(err := NoError)]) == (w, completed)
  {
    CompletedExactlyIf(Writer(st, 0, 0, 1), blobKey, input);
    ErrorWithDataIsIgnored(Writer(st, 0, 0, 1), blobKey, input, i, NoError);
    WriteThenRead(st, states, blobKey, input);
    hide Process, ResultOf, ReadAll, Concat, DataOf, EndsAt, OneBlockPerBucket, TotalSize, ValidChunks, Fresh;
  }

  /** A reader that repeats its error is reported. */
  lemma RepeatedErrorIsReported(w: Writer, blobKey: Bytes, input: seq<Read>, i: nat)
    requires i + 1 < |input| && input[i + 1].data == [] && input[i + 1].err.Failure?
    requires forall j | 0 <= j <= i :: !(input[j].data == [] && input[j].err.EOF?)
    ensures !Process(w, blobKey, input).1
  {
    CompletedExactlyIf(w, blobKey, input);
    hide Process;
    forall n: nat ensures !EndsAt(input, n) {
      assert n > i + 1 ==> !GoesOn(input[i + 1]);
    }
  }

  lemma {:induction false} ConcatJoins(a: seq<Bytes>, b: seq<Bytes>)
    ensures Concat(a + b) == Concat(a) + Concat(b)
  {
    if b == [] {
      assert a + b == a;
    } else {
      var n := |b| - 1;
      ConcatJoins(a, b[..n]);
      assert (a + b)[..|a + b| - 1] == a + b[..n];
      assert Concat(a + b) == Concat(a + b[..n]) + b[n];
      assert Concat(a) + Concat(b[..n]) + b[n] == Concat(a) + (Concat(b[..n]) + b[n]);
    }
  }

  lemma ReadFromEnd(st: Store, blobKey: Bytes, b: nat)
    requires BucketChunks(st, blobKey, b) == [] || b >= UINT64_LIMIT
    ensures ReadFrom(st, blobKey, b) == []
  {
    hide BucketChunks;
  }

  class AppStorage {
    var data: Store

    constructor ()
      ensures data == map[]
    {
      data := map[];
    }

    method Put(pKey: Bytes, cCols: Bytes, value: Bytes)
      modifies this
      ensures data == old(data)[Key(pKey, cCols) := value]
    {
      data := data[Key(pKey, cCols) := value];
    }

    /** The columns of a partition, sorted as readPartSort sorts them. */
    method SortedColumns(pKey: Bytes) returns (cols: seq<Bytes>)
      ensures cols == InReadOrder(PartitionColumns(data, pKey))
      ensures forall c | c in cols :: Key(pKey, c) in data
    {
      cols := [];
      var todo := data.Keys;
      while todo != {}
        invariant todo <= data.Keys && Ascending(cols)
        invariant forall c :: c in cols <==> Key(pKey, c) in data && Key(pKey, c) !in todo
        decreases todo
      {
        var k :| k in todo;
        todo := todo - {k};
        if k.pKey == pKey {
          cols := SortedInsert(cols, k.cCols);
        }
      }
      forall c
        ensures c in cols <==> c in PartitionColumns(data, pKey)
      {
        assert Key(pKey, c) in data ==> c in PartitionColumns(data, pKey);
      }
      IsReadOrder(PartitionColumns(data, pKey), cols);
    }

    method SortedInsert(cols: seq<Bytes>, c: Bytes) returns (r: seq<Bytes>)
      requires Ascending(cols) && c !in cols
      ensures r == BlobOrder.Inserted(cols, c) && Ascending(r) && forall x :: x in r <==> x == c || x in cols
    {
      hide *;
      InsertedAscends(cols, c);
      var i := 0;
      assert cols[0..] == cols && [] + BlobOrder.Inserted(cols, c) == BlobOrder.Inserted(cols, c);
      while i < |cols| && !Less(c, cols[i])
        invariant 0 <= i <= |cols|
        invariant BlobOrder.Inserted(cols, c) == cols[..i] + BlobOrder.Inserted(cols[i..], c)
      {
        InsertedStep(cols[..i], cols[i..], c);
        assert cols[i..][1..] == cols[i + 1..] && cols[..i + 1] == cols[..i] + [cols[i]];
        i := i + 1;
      }
      InsertedStep(cols[..i], cols[i..], c);
      r := cols[..i] + ([c] + cols[i..]);
    }
  }

  /** Insertion at the first column, or after it. */
  lemma InsertedStep(before: seq<Bytes>, cols: seq<Bytes>, c: Bytes)
    ensures cols == [] || Less(c, cols[0]) ==> before + BlobOrder.Inserted(cols, c) == before + ([c] + cols)
    ensures cols != [] && !Less(c, cols[0]) ==>
      before + BlobOrder.Inserted(cols, c) == before + [cols[0]] + BlobOrder.Inserted(cols[1..], c)
  {
    hide Less;
  }

  class BStorage {
    const blobStorage: AppStorage
    var states: map<Bytes, BlobState>

    constructor (blobStorage: AppStorage)
      ensures this.blobStorage == blobStorage && states == map[]
    {
      this.blobStorage, states := blobStorage, map[];
    }

    method WriteBLOB(blobKey: Bytes, input: seq<Read>) returns (uploadedSize: nat, completed: bool)
      modifies this`states, blobStorage
      ensures
        var (w, ok) := Process(Writer(old(blobStorage.data), 0, 0, 1), blobKey, input);
        && blobStorage.data == w.store && uploadedSize == w.bytes && completed == ok
        && states == old(states)[blobKey := BlobState(w.bytes, !ok)]
    {
      states := states[blobKey := BlobState(0, false)];
      uploadedSize, completed := WriteChunks(blobKey, input);
      states := states[blobKey := BlobState(uploadedSize, !completed)];
    }

    /** The loop of writeBLOB. */
    method WriteChunks(blobKey: Bytes, input: seq<Read>) returns (bytesRead: nat, completed: bool)
      modifies blobStorage
      ensures var (w, ok) := Process(Writer(old(blobStorage.data), 0, 0, 1), blobKey, input);
        blobStorage.data == w.store && bytesRead == w.bytes && completed == ok
    {
      hide *;
      var chunkNumber: nat, bucketNumber: nat := 0, 1;
      ghost var all := Process(Writer(blobStorage.data, 0, 0, 1), blobKey, input);
      bytesRead, completed := 0, false;
      assert input[0..] == input;
      for i := 0 to |input|
        invariant !completed
        invariant Process(Writer(blobStorage.data, bytesRead, chunkNumber, bucketNumber), blobKey, input[i..]) == all
      {
        ghost var w := Writer(blobStorage.data, bytesRead, chunkNumber, bucketNumber);
        var r := input[i];
        ProcessStep(w, blobKey, r, input[i + 1..]);
        assert input[i..] == [r] + input[i + 1..];
        if r.data != [] {
          bytesRead := bytesRead + |r.data|;
          if !r.limitOk {
            return;
          }
          NextBucketIs(bucketNumber, bytesRead);
          if bytesRead > CHUNK_SIZE * BUCKET_SIZE * bucketNumber {
            bucketNumber := bucketNumber + 1;
          }
          if !r.stored {
            return;
          }
          InsertIs(w, blobKey, r.data);
          blobStorage.Put(BucketKey(blobKey, bucketNumber), ChunkColumn(chunkNumber), r.data);
          chunkNumber := chunkNumber + 1;
        } else if !r.err.NoError? {
          completed := r.err.EOF?;
          return;
        }
      }
      ProcessEnd(Writer(blobStorage.data, bytesRead, chunkNumber, bucketNumber), blobKey);
      assert input[|input|..] == [];
    }

    /** The callback of Read for every record of one bucket. */
    method ReadBucket(blobKey: Bytes, bucket: nat) returns (chunks: seq<Bytes>)
      ensures chunks == BucketChunks(blobStorage.data, blobKey, bucket)
    {
      var pKey := BucketKey(blobKey, bucket);
      var cols := blobStorage.SortedColumns(pKey);
      chunks := [];
      for i := 0 to |cols|
        invariant |chunks| == i
        invariant forall j | 0 <= j < i :: chunks[j] == blobStorage.data[Key(pKey, cols[j])]
      {
        chunks := chunks + [blobStorage.data[Key(pKey, cols[i])]];
      }
      ValuesLength(blobStorage.data, pKey, cols);
      forall j: nat | j < |cols|
        ensures chunks[j] == Values(blobStorage.data, pKey, cols)[j]
      {
        ValuesAt(blobStorage.data, pKey, cols, j);
      }
      assert chunks == Values(blobStorage.data, pKey, cols);
    }

    /** The writes of one bucket to the output. */
    method Join(chunks: seq<Bytes>) returns (data: Bytes, size: nat)
      ensures data == Concat(chunks) && size == TotalSize(chunks)
    {
      data, size := [], 0;
      for i := 0 to |chunks|
        invariant data == Concat(chunks[..i]) && size == TotalSize(chunks[..i])
      {
        data := data + chunks[i];
        size := size + |chunks[i]|;
        assert chunks[..i + 1][..i] == chunks[..i];
      }
      assert chunks[..|chunks|] == chunks;
    }

    /** The loop over the buckets; it stops at once if there is data but no state. */
    method ReadBuckets(blobKey: Bytes, stateExists: bool) returns (data: Bytes, bytesRead: nat, orphan: bool)
      ensures orphan == (!stateExists && ReadAll(blobStorage.data, blobKey) != [])
      ensures !orphan ==>
        data == Concat(ReadAll(blobStorage.data, blobKey)) && bytesRead == TotalSize(ReadAll(blobStorage.data, blobKey))
    {
      hide BucketChunks, Concat, TotalSize, ReadFrom;
      var bucketNumber: nat := 1;
      ghost var seen: seq<Bytes> := [];
      data, bytesRead := Join([]);
      var chunks := ReadBucket(blobKey, bucketNumber);
      while chunks != [] && bucketNumber < UINT64_LIMIT
        invariant 1 <= bucketNumber <= UINT64_LIMIT
        invariant chunks == BucketChunks(blobStorage.data, blobKey, bucketNumber)
        invariant ReadAll(blobStorage.data, blobKey) == seen + ReadFrom(blobStorage.data, blobKey, bucketNumber)
        invariant data == Concat(seen) && bytesRead == TotalSize(seen)
        invariant !stateExists ==> seen == []
        decreases UINT64_LIMIT - bucketNumber
      {
        ReadFromStep(blobStorage.data, blobKey, bucketNumber);
        if !stateExists {
          return data, bytesRead, true;
        }
        var more, size := Join(chunks);
        ConcatJoins(seen, chunks);
        TotalSizeJoins(seen, chunks);
        data := data + more;
        bytesRead := bytesRead + size;
        seen := seen + chunks;
        bucketNumber := bucketNumber + 1;
        chunks := ReadBucket(blobKey, bucketNumber);
      }
      ReadFromEnd(blobStorage.data, blobKey, bucketNumber);
      assert seen + [] == seen;
      orphan := false;
    }

    /** ReadBLOB without a limiter. */
    method ReadBLOB(blobKey: Bytes) returns (result: ReadResult)
      ensures result == ResultOf(blobStorage.data, states, blobKey)
    {
      var stateExists := blobKey in states;
      if stateExists && states[blobKey].failed {
        return Corrupted;
      }
      var data, bytesRead, orphan := ReadBuckets(blobKey, stateExists);
      if orphan {
        return Corrupted;
      }
      if !stateExists {
        return NotFound;
      }
      if bytesRead != states[blobKey].size {
        return Corrupted;
      }
      return Ok(data);
    }
  }
}
