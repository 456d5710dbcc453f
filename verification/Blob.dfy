/** The layout of BLOBs in pkg/iblobstoragestg.  A BLOB is cut into chunks of at most CHUNK_SIZE bytes, the
    chunks are numbered and put into buckets, and a bucket is a partition of the storage, whose records
    come in the order of their clustering columns.  Numbers in keys are little endian. */
module Blob {
  import opened Bytes

  const CHUNK_SIZE := 102400
  const BUCKET_SIZE := 100
  const BUCKET_BYTES := 10_240_000
  const UINT64_SIZE := 8

  datatype Key = Key(pKey: Bytes, cCols: Bytes)
  type Store = map<Key, Bytes>

  /** newKeyWithBucketNumber, mutateBucketNumber. */
  function BucketKey(blobKey: Bytes, bucket: nat): Bytes {
    blobKey + LittleEndian(bucket, UINT64_SIZE)
  }

  function ChunkColumn(chunk: nat): Bytes {
    LittleEndian(chunk, UINT64_SIZE)
  }

  /** The variables of writeBLOB's loop, and the storage. */
  datatype Writer = Writer(store: Store, bytes: nat, chunk: nat, bucket: nat)

  function NextBucket(bucket: nat, bytes: nat): nat {
    if bytes > CHUNK_SIZE * BUCKET_SIZE * bucket then bucket + 1 else bucket
  }

  function Insert(w: Writer, blobKey: Bytes, data: Bytes): Writer {
    var bytes := w.bytes + |data|;
    var bucket := NextBucket(w.bucket, bytes);
    Writer(w.store[Key(BucketKey(blobKey, bucket), ChunkColumn(w.chunk)) := data], bytes, w.chunk + 1, bucket)
  }

  function Written(st: Store, blobKey: Bytes, chunks: seq<Bytes>): Writer {
    if chunks == [] then Writer(st, 0, 0, 1)
    else Insert(Written(st, blobKey, chunks[..|chunks| - 1]), blobKey, chunks[|chunks| - 1])
  }

  /** The reader returns non-empty chunks that fit the buffer; chunk and bucket numbers are uint64. */
  predicate ValidChunks(chunks: seq<Bytes>) {
    (forall i | 0 <= i < |chunks| :: 0 < |chunks[i]| <= CHUNK_SIZE) && |chunks| + 2 < UINT64_LIMIT
  }

  predicate Fresh(st: Store, blobKey: Bytes) {
    forall k | k in st :: forall b: nat | b < UINT64_LIMIT :: k.pKey != BucketKey(blobKey, b)
  }

  function TotalSize(chunks: seq<Bytes>): nat {
    if chunks == [] then 0 else TotalSize(chunks[..|chunks| - 1]) + |chunks[|chunks| - 1]|
  }

  function Concat(chunks: seq<Bytes>): Bytes {
    if chunks == [] then [] else Concat(chunks[..|chunks| - 1]) + chunks[|chunks| - 1]
  }

  /** The bucket of the last chunk. */
  function LastBucket(chunks: seq<Bytes>): nat {
    if chunks == [] then 1 else NextBucket(LastBucket(chunks[..|chunks| - 1]), TotalSize(chunks))
  }

  function BucketOf(chunks: seq<Bytes>, j: nat): nat
    requires j < |chunks|
  {
    LastBucket(chunks[..j + 1])
  }

  /* ---------- buckets are filled one after the other ---------- */

  lemma {:induction false} WrittenCounts(st: Store, blobKey: Bytes, chunks: seq<Bytes>)
    ensures var w := Written(st, blobKey, chunks);
      w.bytes == TotalSize(chunks) && w.chunk == |chunks| && w.bucket == LastBucket(chunks)
  {
    if chunks != [] {
      WrittenCounts(st, blobKey, chunks[..|chunks| - 1]);
    }
  }

  /** The bucket number is the total size in buckets, rounded up: no bucket is skipped. */
  lemma {:induction false} LastBucketIsRoundedSize(chunks: seq<Bytes>)
    requires ValidChunks(chunks)
    ensures 1 <= LastBucket(chunks) <= |chunks| + 1
    ensures TotalSize(chunks) <= BUCKET_BYTES * LastBucket(chunks)
    ensures chunks != [] ==> BUCKET_BYTES * (LastBucket(chunks) - 1) < TotalSize(chunks)
  {
    if chunks != [] {
      LastBucketIsRoundedSize(chunks[..|chunks| - 1]);
    }
  }

  lemma BucketStep(chunks: seq<Bytes>, j: nat)
    requires ValidChunks(chunks) && j + 1 < |chunks|
    ensures BucketOf(chunks, j) <= BucketOf(chunks, j + 1) <= BucketOf(chunks, j) + 1
  {
    assert chunks[..j + 2][..j + 1] == chunks[..j + 1];
  }

  lemma {:induction false} BucketsAscend(chunks: seq<Bytes>, i: nat, j: nat)
    requires ValidChunks(chunks) && i <= j < |chunks|
    ensures BucketOf(chunks, i) <= BucketOf(chunks, j)
    decreases j - i
  {
    if i < j {
      BucketStep(chunks, i);
      BucketsAscend(chunks, i + 1, j);
    }
  }

  lemma FirstBucket(chunks: seq<Bytes>)
    requires ValidChunks(chunks) && chunks != []
    ensures BucketOf(chunks, 0) == 1
  {
    LastBucketIsRoundedSize(chunks[..1]);
    assert chunks[..1][..0] == [] && TotalSize(chunks[..1]) == |chunks[0]|;
  }

  /** The number of chunks in the buckets below b: where bucket b starts. */
  function Start(chunks: seq<Bytes>, b: nat): (i: nat)
    ensures i <= |chunks|
  {
    if chunks == [] then 0
    else Start(chunks[..|chunks| - 1], b) + if LastBucket(chunks) < b then 1 else 0
  }

  lemma {:induction false} StartSplits(chunks: seq<Bytes>, b: nat, j: nat)
    requires ValidChunks(chunks) && j < |chunks|
    ensures j < Start(chunks, b) <==> BucketOf(chunks, j) < b
  {
    var n := |chunks| - 1;
    var rest := chunks[..n];
    assert chunks[..n + 1] == chunks;
    if n > 0 {
      var k := if j < n then j else n - 1;
      StartSplits(rest, b, k);
      assert rest[..k + 1] == chunks[..k + 1];
      BucketsAscend(chunks, k, n);
      if LastBucket(chunks) < b {
        AllBelow(rest, b);
      }
    }
  }

  lemma {:induction false} AllBelow(chunks: seq<Bytes>, b: nat)
    requires ValidChunks(chunks) && (chunks != [] ==> LastBucket(chunks) < b)
    ensures Start(chunks, b) == |chunks|
  {
    if |chunks| > 1 {
      var n := |chunks| - 1;
      assert chunks[..n + 1] == chunks && chunks[..n][..n] == chunks[..n];
      BucketsAscend(chunks, n - 1, n);
      AllBelow(chunks[..n], b);
    }
  }
}
