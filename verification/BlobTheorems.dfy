/** Main results about BLOBs: the reader undoes the writer, except that chunk numbers are read in the order
    of their little-endian bytes. */
module BlobTheorems {
  import opened Bytes
  import opened Blob
  import opened BlobOrder
  import opened BlobLayout

  /* ---------- all buckets ---------- */

  lemma {:induction false} StartOfAll(chunks: seq<Bytes>, b: nat)
    requires ValidChunks(chunks)
    ensures b <= 1 ==> Start(chunks, b) == 0
    ensures b > LastBucket(chunks) ==> Start(chunks, b) == |chunks|
  {
    if b > LastBucket(chunks) {
      AllBelow(chunks, b);
    }
    if b <= 1 && chunks != [] {
      LastBucketIsRoundedSize(chunks);
      LastBucketIsRoundedSize(chunks[..|chunks| - 1]);
      StartOfAll(chunks[..|chunks| - 1], b);
    }
  }

  /** Buckets 1 to the last one all hold chunks. */
  lemma NoBucketIsSkipped(chunks: seq<Bytes>, b: nat)
    requires ValidChunks(chunks) && chunks != [] && 1 <= b <= LastBucket(chunks)
    ensures Start(chunks, b) < Start(chunks, b + 1)
  {
    var n := |chunks| - 1;
    assert chunks[..n + 1] == chunks;
    FirstBucket(chunks);
    var j := ChunkOfBucket(chunks, b, n);
    InBucket(chunks, b, j);
  }

  /** Since the bucket number grows by at most one per chunk, every number is taken. */
  lemma {:induction false} ChunkOfBucket(chunks: seq<Bytes>, b: nat, j: nat) returns (i: nat)
    requires ValidChunks(chunks) && j < |chunks| && 1 <= b <= BucketOf(chunks, j)
    ensures i < |chunks| && BucketOf(chunks, i) == b
    decreases j
  {
    if BucketOf(chunks, j) == b || j == 0 {
      FirstBucket(chunks);
      i := j;
    } else {
      BucketStep(chunks, j - 1);
      i := ChunkOfBucket(chunks, b, j - 1);
    }
  }

  /** The buckets that ReadBLOB reads are exactly those that were filled: 1 to k hold chunks, k + 1 does not. */
  lemma FilledBuckets(st: Store, blobKey: Bytes, chunks: seq<Bytes>, b: nat)
    requires ValidChunks(chunks) && Fresh(st, blobKey) && 1 <= b < UINT64_LIMIT
    ensures PartitionColumns(Written(st, blobKey, chunks).store, BucketKey(blobKey, b)) != {}
      <==> chunks != [] && b <= LastBucket(chunks)
  {
    BucketColumns(st, blobKey, chunks, b);
    var from, to := Start(chunks, b), Start(chunks, b + 1);
    if chunks != [] && b <= LastBucket(chunks) {
      NoBucketIsSkipped(chunks, b);
      assert Columns(from, to)[0] in Columns(from, to);
    } else if chunks != [] {
      StartOfAll(chunks, b);
      StartOfAll(chunks, b + 1);
    }
  }

  /** The chunk numbers of every bucket lie in one block of 256. */
  ghost predicate OneBlockPerBucket(chunks: seq<Bytes>) {
    forall b: nat :: OneBlock(chunks, b)
  }

  lemma ReadFromStep(st: Store, blobKey: Bytes, b: nat)
    requires b < UINT64_LIMIT
    ensures ReadFrom(st, blobKey, b)
      == if BucketChunks(st, blobKey, b) == [] then [] else BucketChunks(st, blobKey, b) + ReadFrom(st, blobKey, b + 1)
  {
  }

  lemma SplitSeq(chunks: seq<Bytes>, i: nat, j: nat)
    requires i <= j <= |chunks|
    ensures chunks[i..j] + chunks[j..] == chunks[i..]
    ensures i < j ==> chunks[i..j] != []
  {
  }

  lemma PastTheEnd(st: Store, blobKey: Bytes, chunks: seq<Bytes>, b: nat)
    requires ValidChunks(chunks) && Fresh(st, blobKey) && 1 <= b < UINT64_LIMIT
    requires b > LastBucket(chunks) || chunks == []
    ensures ReadFrom(Written(st, blobKey, chunks).store, blobKey, b) == []
    ensures chunks[Start(chunks, b)..] == []
  {
    StartOfAll(chunks, b);
    StartOfAll(chunks, b + 1);
    assert Start(chunks, b) == Start(chunks, b + 1) == |chunks|;
    hide *;
    ReadFromStep(Written(st, blobKey, chunks).store, blobKey, b);
    BucketSize(st, blobKey, chunks, b);
  }

  lemma OneBlockAt(chunks: seq<Bytes>, b: nat)
    ensures OneBlockPerBucket(chunks) ==> OneBlock(chunks, b)
  {
  }

  lemma {:induction false} ReadFromInOrder(st: Store, blobKey: Bytes, chunks: seq<Bytes>, b: nat)
    requires ValidChunks(chunks) && Fresh(st, blobKey) && OneBlockPerBucket(chunks)
    requires 1 <= b <= LastBucket(chunks) + 1 < UINT64_LIMIT
    ensures ReadFrom(Written(st, blobKey, chunks).store, blobKey, b) == chunks[Start(chunks, b)..]
    decreases LastBucket(chunks) + 1 - b
  {
    hide *;
    OneBlockAt(chunks, b);
    if b > LastBucket(chunks) || chunks == [] {
      PastTheEnd(st, blobKey, chunks, b);
    } else {
      ReadFromStep(Written(st, blobKey, chunks).store, blobKey, b);
      BucketInOrder(st, blobKey, chunks, b);
      NoBucketIsSkipped(chunks, b);
      ReadFromInOrder(st, blobKey, chunks, b + 1);
      SplitSeq(chunks, Start(chunks, b), Start(chunks, b + 1));
    }
  }

  /** A BLOB whose buckets each lie in one block of 256 chunk numbers is read back as it was written. */
  lemma ReadBack(st: Store, blobKey: Bytes, chunks: seq<Bytes>)
    requires ValidChunks(chunks) && Fresh(st, blobKey) && OneBlockPerBucket(chunks)
    ensures ReadAll(Written(st, blobKey, chunks).store, blobKey) == chunks
  {
    LastBucketIsRoundedSize(chunks);
    ReadFromInOrder(st, blobKey, chunks, 1);
    StartOfAll(chunks, 1);
  }

  /** In particular any BLOB of at most 256 chunks. */
  lemma SmallBlobReadBack(st: Store, blobKey: Bytes, chunks: seq<Bytes>)
    requires ValidChunks(chunks) && Fresh(st, blobKey) && |chunks| <= 256
    ensures ReadAll(Written(st, blobKey, chunks).store, blobKey) == chunks
  {
    LastBucketIsRoundedSize(chunks);
    forall b: nat
      ensures OneBlock(chunks, b)
    {
      assert Start(chunks, b + 1) <= 256;
    }
    ReadBack(st, blobKey, chunks);
  }

  /* ---------- sizes do not depend on the order ---------- */

  function Without<T>(s: seq<T>, i: nat): seq<T>
    requires i < |s|
  {
    s[..i] + s[i + 1..]
  }

  lemma {:induction false} TotalSizeWithout(chunks: seq<Bytes>, i: nat)
    requires i < |chunks|
    ensures TotalSize(Without(chunks, i)) + |chunks[i]| == TotalSize(chunks)
  {
    var n := |chunks| - 1;
    if i < n {
      TotalSizeWithout(chunks[..n], i);
      assert Without(chunks, i)[..n - 1] == Without(chunks[..n], i);
      assert Without(chunks, i)[n - 1] == chunks[n];
    } else {
      assert Without(chunks, i) == chunks[..n];
    }
  }

  lemma {:induction false} TotalSizeJoins(a: seq<Bytes>, b: seq<Bytes>)
    ensures TotalSize(a + b) == TotalSize(a) + TotalSize(b)
  {
    if b == [] {
      assert a + b == a;
    } else {
      var n := |b| - 1;
      TotalSizeJoins(a, b[..n]);
      assert (a + b)[..|a + b| - 1] == a + b[..n];
    }
  }

  predicate Distinct<T(==)>(s: seq<T>) {
    forall i, j | 0 <= i < j < |s| :: s[i] != s[j]
  }

  lemma WithoutAt<T>(s: seq<T>, i: nat, j: nat)
    requires i < |s| && j < |s| - 1
    ensures Without(s, i)[j] == s[if j < i then j else j + 1]
  {
  }

  lemma ValuesWithout(st: Store, pKey: Bytes, cols: seq<Bytes>, i: nat)
    requires (forall c | c in cols :: Key(pKey, c) in st) && i < |cols|
    ensures forall c | c in Without(cols, i) :: Key(pKey, c) in st
    ensures i < |Values(st, pKey, cols)|
    ensures Values(st, pKey, Without(cols, i)) == Without(Values(st, pKey, cols), i)
  {
    var less := Without(cols, i);
    assert forall c | c in less :: c in cols;
    hide Values;
    ValuesLength(st, pKey, cols);
    ValuesLength(st, pKey, less);
    var rest := Without(Values(st, pKey, cols), i);
    assert |less| == |cols| - 1 == |rest|;
    hide Without;
    forall j | 0 <= j < |less|
      ensures Values(st, pKey, less)[j] == rest[j]
    {
      ValuesAt(st, pKey, less, j);
      ValuesAt(st, pKey, cols, if j < i then j else j + 1);
      WithoutAt(cols, i, j);
      WithoutAt(Values(st, pKey, cols), i, j);
    }
  }

  lemma WithoutElements(a: seq<Bytes>, i: nat)
    requires Distinct(a) && i < |a|
    ensures Distinct(Without(a, i))
    ensures forall x :: x in Without(a, i) <==> x in a && x != a[i]
  {
    var w := Without(a, i);
    forall x | x in a && x != a[i]
      ensures x in w
    {
      var j :| 0 <= j < |a| && a[j] == x;
      assert w[if j < i then j else j - 1] == x;
    }
    forall x | x in w
      ensures x in a && x != a[i]
    {
      var j :| 0 <= j < |w| && w[j] == x;
      assert a[if j < i then j else j + 1] == x;
    }
  }

  /** Two enumerations of the same columns without repetition give the same size. */
  lemma {:induction false} SameSize(st: Store, pKey: Bytes, a: seq<Bytes>, b: seq<Bytes>)
    requires Distinct(a) && Distinct(b) && forall x :: x in a <==> x in b
    requires forall c | c in a :: Key(pKey, c) in st
    ensures TotalSize(Values(st, pKey, a)) == TotalSize(Values(st, pKey, b)) && |a| == |b|
    decreases |a|
  {
    if a == [] {
      if b != [] { var x := SomeElement(b); }
    } else {
      assert a[0] in a;
      var i :| 0 <= i < |b| && b[i] == a[0];
      WithoutElements(a, 0);
      WithoutElements(b, i);
      SameSize(st, pKey, Without(a, 0), Without(b, i));
      ValuesWithout(st, pKey, a, 0);
      ValuesWithout(st, pKey, b, i);
      ValuesAt(st, pKey, a, 0);
      ValuesAt(st, pKey, b, i);
      TotalSizeWithout(Values(st, pKey, a), 0);
      TotalSizeWithout(Values(st, pKey, b), i);
      hide Values, TotalSize, Without, Distinct;
    }
  }

  lemma AscendingIsDistinct(cols: seq<Bytes>)
    requires Ascending(cols)
    ensures Distinct(cols)
  {
    forall i, j | 0 <= i < j < |cols|
      ensures cols[i] != cols[j]
    {
      LessIsStrict(cols[i]);
    }
  }

  lemma ColumnsAreDistinct(from: nat, to: nat)
    requires from <= to <= UINT64_LIMIT
    ensures Distinct(Columns(from, to))
  {
    var cols := Columns(from, to);
    forall i, j | 0 <= i < j < |cols|
      ensures cols[i] != cols[j]
    {
      if cols[i] == cols[j] {
        ColumnIsInjective(from + i, from + j);
      }
    }
  }

  lemma BucketSize(st: Store, blobKey: Bytes, chunks: seq<Bytes>, b: nat)
    requires ValidChunks(chunks) && Fresh(st, blobKey) && b < UINT64_LIMIT
    ensures Start(chunks, b) <= Start(chunks, b + 1)
    ensures TotalSize(BucketChunks(Written(st, blobKey, chunks).store, blobKey, b))
         == TotalSize(chunks[Start(chunks, b)..Start(chunks, b + 1)])
    ensures |BucketChunks(Written(st, blobKey, chunks).store, blobKey, b)| == Start(chunks, b + 1) - Start(chunks, b)
  {
    var from, to := Start(chunks, b), Start(chunks, b + 1);
    assert to <= |chunks|;
    hide Start, BucketKey, Written, Less;
    var st' := Written(st, blobKey, chunks).store;
    var pKey := BucketKey(blobKey, b);
    RangeValues(st, blobKey, chunks, b);
    BucketColumns(st, blobKey, chunks, b);
    var cols := InReadOrder(PartitionColumns(st', pKey));
    ReadOrderAscends(PartitionColumns(st', pKey));
    AscendingIsDistinct(cols);
    ColumnsAreDistinct(from, to);
    ValuesLength(st', pKey, cols);
    SameSize(st', pKey, cols, Columns(from, to));
    hide InReadOrder, Ascending, Distinct, TotalSize;
  }

  lemma {:induction false} ReadFromSize(st: Store, blobKey: Bytes, chunks: seq<Bytes>, b: nat)
    requires ValidChunks(chunks) && Fresh(st, blobKey) && 1 <= b <= LastBucket(chunks) + 1 < UINT64_LIMIT
    ensures TotalSize(ReadFrom(Written(st, blobKey, chunks).store, blobKey, b)) == TotalSize(chunks[Start(chunks, b)..])
    decreases LastBucket(chunks) + 1 - b
  {
    hide *;
    if b > LastBucket(chunks) || chunks == [] {
      PastTheEnd(st, blobKey, chunks, b);
    } else {
      var st' := Written(st, blobKey, chunks).store;
      var from, to := Start(chunks, b), Start(chunks, b + 1);
      ReadFromStep(st', blobKey, b);
      BucketSize(st, blobKey, chunks, b);
      NoBucketIsSkipped(chunks, b);
      ReadFromSize(st, blobKey, chunks, b + 1);
      TotalSizeJoins(BucketChunks(st', blobKey, b), ReadFrom(st', blobKey, b + 1));
      TotalSizeJoins(chunks[from..to], chunks[to..]);
      SplitSeq(chunks, from, to);
    }
  }

  /** However many chunks there are, ReadBLOB counts exactly the bytes that writeBLOB counted. */
  lemma ReadSizeIsWrittenSize(st: Store, blobKey: Bytes, chunks: seq<Bytes>)
    requires ValidChunks(chunks) && Fresh(st, blobKey)
    ensures var w := Written(st, blobKey, chunks);
      TotalSize(ReadAll(w.store, blobKey)) == w.bytes == TotalSize(chunks)
  {
    LastBucketIsRoundedSize(chunks);
    ReadFromSize(st, blobKey, chunks, 1);
    StartOfAll(chunks, 1);
    WrittenCounts(st, blobKey, chunks);
    assert chunks[0..] == chunks;
  }

  /* ---------- where the order is lost ---------- */

  /** In a bucket that crosses a multiple of 256 the chunk numbers are not read in order. */
  lemma CrossedBlockIsOutOfOrder(st: Store, blobKey: Bytes, chunks: seq<Bytes>, b: nat)
    requires ValidChunks(chunks) && Fresh(st, blobKey) && b < UINT64_LIMIT
    ensures Start(chunks, b) <= Start(chunks, b + 1)
    ensures
      InReadOrder(PartitionColumns(Written(st, blobKey, chunks).store, BucketKey(blobKey, b))) == Columns(Start(chunks, b), Start(chunks, b + 1))
      <==> OneBlock(chunks, b)
  {
    var from, to := Start(chunks, b), Start(chunks, b + 1);
    hide Start, BucketKey, Written, Less;
    var set_ := PartitionColumns(Written(st, blobKey, chunks).store, BucketKey(blobKey, b));
    BucketColumns(st, blobKey, chunks, b);
    ReadOrderAscends(set_);
    if from < to {
      ColumnsAscendExactlyIfOneBlock(from, to);
    }
    if OneBlock(chunks, b) {
      IsReadOrder(set_, Columns(from, to));
    }
  }

  /** The reads of bucket b stand where its chunks stand. */
  lemma {:induction false} BucketStandsAt(st: Store, blobKey: Bytes, chunks: seq<Bytes>, a: nat, b: nat)
    requires ValidChunks(chunks) && Fresh(st, blobKey) && chunks != []
    requires 1 <= a <= b <= LastBucket(chunks) && LastBucket(chunks) + 1 < UINT64_LIMIT
    ensures Start(chunks, a) <= Start(chunks, b) <= Start(chunks, b + 1)
    ensures
      var st' := Written(st, blobKey, chunks).store;
      var i, j := Start(chunks, b) - Start(chunks, a), Start(chunks, b + 1) - Start(chunks, a);
      j <= |ReadFrom(st', blobKey, a)| && ReadFrom(st', blobKey, a)[i..j] == BucketChunks(st', blobKey, b)
    decreases b - a
  {
    hide *;
    var st' := Written(st, blobKey, chunks).store;
    ReadFromStep(st', blobKey, a);
    BucketSize(st, blobKey, chunks, a);
    NoBucketIsSkipped(chunks, a);
    if a < b {
      BucketStandsAt(st, blobKey, chunks, a + 1, b);
      SliceAfter(BucketChunks(st', blobKey, a), ReadFrom(st', blobKey, a + 1),
                 Start(chunks, b) - Start(chunks, a + 1), Start(chunks, b + 1) - Start(chunks, a + 1));
    }
  }

  lemma SliceAfter(head: seq<Bytes>, tail: seq<Bytes>, i: nat, j: nat)
    requires i <= j <= |tail|
    ensures (head + tail)[|head| + i..|head| + j] == tail[i..j]
  {
  }

  lemma ColumnAt(c: Bytes, from: nat, to: nat) returns (k: nat)
    requires from <= to && c in Columns(from, to)
    ensures from <= k < to && c == Column(k)
  {
    var i :| 0 <= i < to - from && Columns(from, to)[i] == c;
    k := from + i;
  }

  /** With chunks that all differ, a value tells its column. */
  lemma ValueTellsColumn(st: Store, blobKey: Bytes, chunks: seq<Bytes>, b: nat, c: Bytes, j: nat)
    requires ValidChunks(chunks) && Distinct(chunks)
    requires Start(chunks, b) <= j < Start(chunks, b + 1)
    requires c in Columns(Start(chunks, b), Start(chunks, b + 1))
    requires var st' := Written(st, blobKey, chunks).store;
      var k := Key(BucketKey(blobKey, b), c);
      k in st' && st'[k] == chunks[j]
    ensures c == Column(j)
  {
    hide *;
    var i := ColumnAt(c, Start(chunks, b), Start(chunks, b + 1));
    ColumnIsStored(st, blobKey, chunks, b, i);
    ColumnIsStored(st, blobKey, chunks, b, j);
    DistinctAt(chunks, i, j);
  }

  lemma DistinctAt(s: seq<Bytes>, i: nat, j: nat)
    requires Distinct(s) && i < |s| && j < |s| && s[i] == s[j]
    ensures i == j
  {
  }

  lemma SameElementsIn(a: set<Bytes>, b: seq<Bytes>, c: Bytes)
    ensures SameElements(a, b) && c in a ==> c in b
  {
  }

  lemma BucketValues(st: Store, blobKey: Bytes, b: nat)
    ensures var pKey := BucketKey(blobKey, b);
      var cols := InReadOrder(PartitionColumns(st, pKey));
      && (forall c | c in cols :: c in PartitionColumns(st, pKey) && Key(pKey, c) in st)
      && BucketChunks(st, blobKey, b) == Values(st, pKey, cols)
  {
    ReadOrderAscends(PartitionColumns(st, BucketKey(blobKey, b)));
    hide InReadOrder, Less, Values;
  }

  lemma OrderedColumn(st: Store, blobKey: Bytes, chunks: seq<Bytes>, b: nat, i: nat)
    requires ValidChunks(chunks) && Fresh(st, blobKey) && b < UINT64_LIMIT && Distinct(chunks)
    requires var from, to := Start(chunks, b), Start(chunks, b + 1);
      from <= to && BucketChunks(Written(st, blobKey, chunks).store, blobKey, b) == chunks[from..to] && i < to - from
    ensures
      var cols := InReadOrder(PartitionColumns(Written(st, blobKey, chunks).store, BucketKey(blobKey, b)));
      && |cols| == Start(chunks, b + 1) - Start(chunks, b)
      && cols[i] == Columns(Start(chunks, b), Start(chunks, b + 1))[i]
  {
    hide *;
    var st' := Written(st, blobKey, chunks).store;
    var pKey := BucketKey(blobKey, b);
    var cols := InReadOrder(PartitionColumns(st', pKey));
    BucketValues(st', blobKey, b);
    BucketColumns(st, blobKey, chunks, b);
    ValuesLength(st', pKey, cols);
    ValuesAt(st', pKey, cols, i);
    assert cols[i] in cols;
    SameElementsIn(PartitionColumns(st', pKey), Columns(Start(chunks, b), Start(chunks, b + 1)), cols[i]);
    ValueTellsColumn(st, blobKey, chunks, b, cols[i], Start(chunks, b) + i);
    ColumnsAt(Start(chunks, b), Start(chunks, b + 1), i);
  }

  /** With chunks that all differ, the values of a bucket tell the order of its columns. */
  lemma ValuesTellOrder(st: Store, blobKey: Bytes, chunks: seq<Bytes>, b: nat)
    requires ValidChunks(chunks) && Fresh(st, blobKey) && b < UINT64_LIMIT && Distinct(chunks)
    requires Start(chunks, b) < Start(chunks, b + 1)
    requires BucketChunks(Written(st, blobKey, chunks).store, blobKey, b) == chunks[Start(chunks, b)..Start(chunks, b + 1)]
    ensures OneBlock(chunks, b)
  {
    var from, to := Start(chunks, b), Start(chunks, b + 1);
    hide *;
    var cols := InReadOrder(PartitionColumns(Written(st, blobKey, chunks).store, BucketKey(blobKey, b)));
    OrderedColumn(st, blobKey, chunks, b, 0);
    forall i: nat | i < to - from
      ensures cols[i] == Columns(from, to)[i]
    {
      OrderedColumn(st, blobKey, chunks, b, i);
    }
    assert cols == Columns(from, to);
    CrossedBlockIsOutOfOrder(st, blobKey, chunks, b);
  }

  /** A BLOB whose chunks all differ is read back as it was written exactly if no bucket crosses a multiple
      of 256 chunk numbers. */
  lemma ReadBackExactlyIf(st: Store, blobKey: Bytes, chunks: seq<Bytes>)
    requires ValidChunks(chunks) && Fresh(st, blobKey) && Distinct(chunks)
    ensures ReadAll(Written(st, blobKey, chunks).store, blobKey) == chunks <==> OneBlockPerBucket(chunks)
  {
    if OneBlockPerBucket(chunks) {
      ReadBack(st, blobKey, chunks);
    } else if ReadAll(Written(st, blobKey, chunks).store, blobKey) == chunks {
      forall b: nat
        ensures OneBlock(chunks, b)
      {
        if !OneBlock(chunks, b) {
          ReadBackMeansOneBlock(st, blobKey, chunks, b);
        }
      }
    }
    hide Written, ReadAll, OneBlock;
  }

  lemma ReadBackMeansOneBlock(st: Store, blobKey: Bytes, chunks: seq<Bytes>, b: nat)
    requires ValidChunks(chunks) && Fresh(st, blobKey) && Distinct(chunks) && !OneBlock(chunks, b)
    ensures ReadAll(Written(st, blobKey, chunks).store, blobKey) != chunks
  {
    hide *;
    var st' := Written(st, blobKey, chunks).store;
    CrossingBucketIsFilled(chunks, b);
    LastBucketIsRoundedSize(chunks);
    LimitOfChunks(chunks);
    BucketStandsAt(st, blobKey, chunks, 1, b);
    AllIsFromOne(st', blobKey);
    StartOfAll(chunks, 1);
    if ReadAll(st', blobKey) == chunks {
      ValuesTellOrder(st, blobKey, chunks, b);
    }
  }

  lemma LimitOfChunks(chunks: seq<Bytes>)
    ensures ValidChunks(chunks) ==> |chunks| + 2 < UINT64_LIMIT
  {
  }

  lemma AllIsFromOne(st: Store, blobKey: Bytes)
    ensures ReadAll(st, blobKey) == ReadFrom(st, blobKey, 1)
  {
    hide ReadFrom;
  }

  lemma CrossingBucketIsFilled(chunks: seq<Bytes>, b: nat)
    requires ValidChunks(chunks) && !OneBlock(chunks, b)
    ensures chunks != [] && 1 <= b <= LastBucket(chunks) && Start(chunks, b) < Start(chunks, b + 1)
  {
    assert Start(chunks, b) < Start(chunks, b + 1);
    assert Start(chunks, b + 1) <= |chunks|;
    hide *;
    StartOfAll(chunks, 0);
    StartOfAll(chunks, 1);
    StartOfAll(chunks, b);
    StartOfAll(chunks, b + 1);
  }

  /** Full chunks, as a reader that fills the buffer gives them. */
  predicate FullChunks(chunks: seq<Bytes>) {
    forall i | 0 <= i < |chunks| :: |chunks[i]| == CHUNK_SIZE
  }

  lemma {:induction false} FullChunksBucket(chunks: seq<Bytes>)
    requires FullChunks(chunks) && ValidChunks(chunks)
    ensures TotalSize(chunks) == CHUNK_SIZE * |chunks|
    ensures chunks != [] ==> LastBucket(chunks) == (|chunks| - 1) / BUCKET_SIZE + 1
  {
    if chunks != [] {
      var n := |chunks| - 1;
      FullChunksBucket(chunks[..n]);
      LastBucketIsRoundedSize(chunks);
    }
  }

  /** A BLOB of more than 256 full chunks, 25 MiB, is always read out of order: its third bucket crosses
      the number 256. */
  lemma BigBlobIsOutOfOrder(st: Store, blobKey: Bytes, chunks: seq<Bytes>)
    requires ValidChunks(chunks) && Fresh(st, blobKey) && FullChunks(chunks) && |chunks| > 256
    ensures !OneBlock(chunks, 3)
    ensures Start(chunks, 3) <= Start(chunks, 4)
    ensures InReadOrder(PartitionColumns(Written(st, blobKey, chunks).store, BucketKey(blobKey, 3))) != Columns(Start(chunks, 3), Start(chunks, 4))
  {
    FullChunksBucket(chunks[..256]);
    FullChunksBucket(chunks[..257]);
    assert BucketOf(chunks, 255) == 3 && BucketOf(chunks, 256) == 3;
    InBucket(chunks, 3, 255);
    InBucket(chunks, 3, 256);
    assert !OneBlock(chunks, 3);
    hide *;
    CrossedBlockIsOutOfOrder(st, blobKey, chunks, 3);
  }
}
