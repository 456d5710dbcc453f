/** What ReadBLOB reads, and what the partition of one bucket holds after a write. */
module BlobLayout {
  import opened Bytes
  import opened Blob
  import opened BlobOrder

  /* ---------- what ReadBLOB reads ---------- */

  ghost function PartitionColumns(st: Store, pKey: Bytes): set<Bytes> {
    set k | k in st && k.pKey == pKey :: k.cCols
  }

  function Values(st: Store, pKey: Bytes, cols: seq<Bytes>): seq<Bytes>
    requires forall c | c in cols :: Key(pKey, c) in st
  {
    if cols == [] then [] else [st[Key(pKey, cols[0])]] + Values(st, pKey, cols[1..])
  }

  ghost function BucketChunks(st: Store, blobKey: Bytes, bucket: nat): seq<Bytes> {
    var pKey := BucketKey(blobKey, bucket);
    ReadOrderAscends(PartitionColumns(st, pKey));
    Values(st, pKey, InReadOrder(PartitionColumns(st, pKey)))
  }

  /** The loop of ReadBLOB: buckets from the given one on, until one is empty. */
  ghost function ReadFrom(st: Store, blobKey: Bytes, bucket: nat): seq<Bytes>
    decreases UINT64_LIMIT - bucket
  {
    var chunks := BucketChunks(st, blobKey, bucket);
    if chunks == [] || bucket >= UINT64_LIMIT then [] else chunks + ReadFrom(st, blobKey, bucket + 1)
  }

  ghost function ReadAll(st: Store, blobKey: Bytes): seq<Bytes> {
    ReadFrom(st, blobKey, 1)
  }

  /* ---------- what a bucket holds ---------- */

  lemma BucketKeyIsInjective(blobKey: Bytes, a: nat, b: nat)
    requires a < UINT64_LIMIT && b < UINT64_LIMIT && BucketKey(blobKey, a) == BucketKey(blobKey, b)
    ensures a == b
  {
    assert BucketKey(blobKey, a)[|blobKey|..] == Column(a);
    assert BucketKey(blobKey, b)[|blobKey|..] == Column(b);
    ColumnIsInjective(a, b);
  }

  /** The key of the j-th chunk. */
  function ChunkKey(chunks: seq<Bytes>, blobKey: Bytes, j: nat): Key
    requires j < |chunks|
  {
    Key(BucketKey(blobKey, BucketOf(chunks, j)), Column(j))
  }

  predicate ChunkStored(st: Store, blobKey: Bytes, chunks: seq<Bytes>, j: nat)
    requires j < |chunks|
  {
    ChunkKey(chunks, blobKey, j) in st && st[ChunkKey(chunks, blobKey, j)] == chunks[j]
  }

  lemma PrefixKey(chunks: seq<Bytes>, blobKey: Bytes, j: nat)
    requires j < |chunks| - 1
    ensures ChunkKey(chunks[..|chunks| - 1], blobKey, j) == ChunkKey(chunks, blobKey, j)
  {
    assert chunks[..|chunks| - 1][..j + 1] == chunks[..j + 1];
  }

  lemma InsertRecord(st: Store, blobKey: Bytes, chunks: seq<Bytes>)
    requires chunks != []
    ensures var n := |chunks| - 1;
      Written(st, blobKey, chunks).store == Written(st, blobKey, chunks[..n]).store[ChunkKey(chunks, blobKey, n) := chunks[n]]
  {
    var n := |chunks| - 1;
    WrittenCounts(st, blobKey, chunks[..n]);
    assert chunks[..n + 1] == chunks;
    hide LittleEndian, TotalSize;
  }

  /** Every chunk is stored under its bucket and number. */
  lemma {:induction false} WrittenChunk(st: Store, blobKey: Bytes, chunks: seq<Bytes>, j: nat)
    requires ValidChunks(chunks) && j < |chunks|
    ensures ChunkStored(Written(st, blobKey, chunks).store, blobKey, chunks, j)
  {
    var n := |chunks| - 1;
    InsertRecord(st, blobKey, chunks);
    if j < n {
      WrittenChunk(st, blobKey, chunks[..n], j);
      PrefixKey(chunks, blobKey, j);
      if Column(j) == Column(n) {
        ColumnIsInjective(j, n);
      }
    }
    hide BucketOf, Written, BucketKey, Column;
  }

  /** Nothing but the chunks is stored. */
  lemma {:induction false} WrittenKey(st: Store, blobKey: Bytes, chunks: seq<Bytes>, k: Key) returns (j: nat)
    requires k in Written(st, blobKey, chunks).store && k !in st
    ensures j < |chunks| && k == ChunkKey(chunks, blobKey, j)
  {
    var n := |chunks| - 1;
    InsertRecord(st, blobKey, chunks);
    if k == ChunkKey(chunks, blobKey, n) {
      j := n;
    } else {
      j := WrittenKey(st, blobKey, chunks[..n], k);
      PrefixKey(chunks, blobKey, j);
    }
  }

  lemma {:induction false} StartsAscend(chunks: seq<Bytes>, b: nat, c: nat)
    requires b <= c
    ensures Start(chunks, b) <= Start(chunks, c)
  {
    if chunks != [] {
      StartsAscend(chunks[..|chunks| - 1], b, c);
    }
  }

  lemma BucketIsSmall(chunks: seq<Bytes>, j: nat)
    requires ValidChunks(chunks) && j < |chunks|
    ensures 1 <= BucketOf(chunks, j) < UINT64_LIMIT
  {
    LastBucketIsRoundedSize(chunks[..j + 1]);
  }

  lemma InBucket(chunks: seq<Bytes>, b: nat, j: nat)
    requires ValidChunks(chunks) && j < |chunks|
    ensures Start(chunks, b) <= Start(chunks, b + 1)
    ensures BucketOf(chunks, j) == b <==> Start(chunks, b) <= j < Start(chunks, b + 1)
  {
    StartSplits(chunks, b, j);
    StartSplits(chunks, b + 1, j);
    StartsAscend(chunks, b, b + 1);
  }

  lemma ColumnInRange(from: nat, to: nat, j: nat)
    requires from <= j < to
    ensures Column(j) in Columns(from, to)
  {
    assert Columns(from, to)[j - from] == Column(j);
  }

  ghost predicate SameElements(a: set<Bytes>, b: seq<Bytes>) {
    forall c :: c in a <==> c in b
  }

  lemma ColumnOfBucket(st: Store, blobKey: Bytes, chunks: seq<Bytes>, b: nat, c: Bytes)
    requires ValidChunks(chunks) && Fresh(st, blobKey) && b < UINT64_LIMIT
    requires Key(BucketKey(blobKey, b), c) in Written(st, blobKey, chunks).store
    ensures Start(chunks, b) <= Start(chunks, b + 1)
    ensures c in Columns(Start(chunks, b), Start(chunks, b + 1))
  {
    StartsAscend(chunks, b, b + 1);
    var k := Key(BucketKey(blobKey, b), c);
    var j := WrittenKey(st, blobKey, chunks, k);
    BucketIsSmall(chunks, j);
    BucketKeyIsInjective(blobKey, b, BucketOf(chunks, j));
    InBucket(chunks, b, j);
    ColumnInRange(Start(chunks, b), Start(chunks, b + 1), j);
  }

  lemma ColumnIsStored(st: Store, blobKey: Bytes, chunks: seq<Bytes>, b: nat, j: nat)
    requires ValidChunks(chunks) && Start(chunks, b) <= j < Start(chunks, b + 1)
    ensures j < |chunks|
    ensures var k := Key(BucketKey(blobKey, b), Column(j));
      k in Written(st, blobKey, chunks).store && Written(st, blobKey, chunks).store[k] == chunks[j]
  {
    InBucket(chunks, b, j);
    WrittenChunk(st, blobKey, chunks, j);
  }

  /** The columns of bucket b are those of the chunk numbers from Start(b) up to Start(b + 1). */
  lemma BucketColumns(st: Store, blobKey: Bytes, chunks: seq<Bytes>, b: nat)
    requires ValidChunks(chunks) && Fresh(st, blobKey) && b < UINT64_LIMIT
    ensures Start(chunks, b) <= Start(chunks, b + 1)
    ensures SameElements(PartitionColumns(Written(st, blobKey, chunks).store, BucketKey(blobKey, b)),
                         Columns(Start(chunks, b), Start(chunks, b + 1)))
  {
    StartsAscend(chunks, b, b + 1);
    hide Start, Column, BucketKey, Written;
    var pKey := BucketKey(blobKey, b);
    var from, to := Start(chunks, b), Start(chunks, b + 1);
    forall c | c in PartitionColumns(Written(st, blobKey, chunks).store, pKey)
      ensures c in Columns(from, to)
    {
      ColumnOfBucket(st, blobKey, chunks, b, c);
    }
    forall i | 0 <= i < to - from
      ensures Columns(from, to)[i] in PartitionColumns(Written(st, blobKey, chunks).store, pKey)
    {
      ColumnIsStored(st, blobKey, chunks, b, from + i);
    }
  }

  /* ---------- one bucket ---------- */

  lemma {:induction false} ValuesLength(st: Store, pKey: Bytes, cols: seq<Bytes>)
    requires forall c | c in cols :: Key(pKey, c) in st
    ensures |Values(st, pKey, cols)| == |cols|
  {
    if cols != [] {
      ValuesLength(st, pKey, cols[1..]);
    }
  }

  lemma {:induction false} ValuesAt(st: Store, pKey: Bytes, cols: seq<Bytes>, i: nat)
    requires (forall c | c in cols :: Key(pKey, c) in st) && i < |cols|
    ensures i < |Values(st, pKey, cols)| && Values(st, pKey, cols)[i] == st[Key(pKey, cols[i])]
  {
    if i > 0 {
      ValuesAt(st, pKey, cols[1..], i - 1);
    }
  }

  lemma ColumnsAt(from: nat, to: nat, i: nat)
    requires i < to - from
    ensures Columns(from, to)[i] == Column(from + i)
  {
  }

  /** The values under the columns of a range of chunk numbers are the chunks. */
  lemma RangeValues(st: Store, blobKey: Bytes, chunks: seq<Bytes>, b: nat)
    requires ValidChunks(chunks) && Fresh(st, blobKey) && b < UINT64_LIMIT
    ensures
      var st' := Written(st, blobKey, chunks).store;
      var from, to := Start(chunks, b), Start(chunks, b + 1);
      && from <= to
      && (forall c | c in Columns(from, to) :: Key(BucketKey(blobKey, b), c) in st')
      && Values(st', BucketKey(blobKey, b), Columns(from, to)) == chunks[from..to]
  {
    var from, to := Start(chunks, b), Start(chunks, b + 1);
    assert to <= |chunks|;
    hide *;
    var st' := Written(st, blobKey, chunks).store;
    var pKey := BucketKey(blobKey, b);
    BucketColumns(st, blobKey, chunks, b);
    var cols := Columns(from, to);
    forall c | c in cols
      ensures Key(pKey, c) in st'
    {
      StoredColumn(st', pKey, cols, c);
    }
    ValuesLength(st', pKey, cols);
    var values := Values(st', pKey, cols);
    forall i | 0 <= i < |values|
      ensures values[i] == chunks[from..to][i]
    {
      ValuesAt(st', pKey, cols, i);
      ColumnsAt(from, to, i);
      ColumnIsStored(st, blobKey, chunks, b, from + i);
    }
    assert values == chunks[from..to];
  }

  lemma StoredColumn(st: Store, pKey: Bytes, cols: seq<Bytes>, c: Bytes)
    requires SameElements(PartitionColumns(st, pKey), cols) && c in cols
    ensures Key(pKey, c) in st
  {
    assert c in PartitionColumns(st, pKey);
  }

  /** The chunk numbers of bucket b lie in one block of 256. */
  predicate OneBlock(chunks: seq<Bytes>, b: nat) {
    Start(chunks, b) < Start(chunks, b + 1) ==> Start(chunks, b) / 256 == (Start(chunks, b + 1) - 1) / 256
  }

  lemma BucketInOrder(st: Store, blobKey: Bytes, chunks: seq<Bytes>, b: nat)
    requires ValidChunks(chunks) && Fresh(st, blobKey) && b < UINT64_LIMIT && OneBlock(chunks, b)
    ensures Start(chunks, b) <= Start(chunks, b + 1)
    ensures BucketChunks(Written(st, blobKey, chunks).store, blobKey, b) == chunks[Start(chunks, b)..Start(chunks, b + 1)]
  {
    hide Start, BucketKey, Written;
    var st' := Written(st, blobKey, chunks).store;
    var from, to := Start(chunks, b), Start(chunks, b + 1);
    RangeValues(st, blobKey, chunks, b);
    BucketColumns(st, blobKey, chunks, b);
    if from < to {
      ColumnsAscendExactlyIfOneBlock(from, to);
    }
    IsReadOrder(PartitionColumns(st', BucketKey(blobKey, b)), Columns(from, to));
  }
}
