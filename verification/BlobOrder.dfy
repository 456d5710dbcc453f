/** The order of clustering columns, and of chunk numbers written in little endian. */
module BlobOrder {
  import opened Bytes

  /** Lexicographic order of byte strings. */
  predicate Less(a: Bytes, b: Bytes) {
    b != [] && (a == [] || a[0] < b[0] || (a[0] == b[0] && Less(a[1..], b[1..])))
  }

  lemma {:induction false} LessIsStrict(a: Bytes)
    ensures !Less(a, a)
  {
    if a != [] {
      LessIsStrict(a[1..]);
    }
  }

  lemma {:induction false} LessIsTransitive(a: Bytes, b: Bytes, c: Bytes)
    requires Less(a, b) && Less(b, c)
    ensures Less(a, c)
  {
    if a != [] && a[0] == b[0] == c[0] {
      LessIsTransitive(a[1..], b[1..], c[1..]);
    }
  }

  lemma {:induction false} LessIsTotal(a: Bytes, b: Bytes)
    requires a != b
    ensures Less(a, b) || Less(b, a)
  {
    if a != [] && b != [] && a[0] == b[0] {
      assert a == [a[0]] + a[1..] && b == [b[0]] + b[1..];
      LessIsTotal(a[1..], b[1..]);
    }
  }

  predicate Ascending(cols: seq<Bytes>) {
    forall i, j | 0 <= i < j < |cols| :: Less(cols[i], cols[j])
  }

  function Inserted(cols: seq<Bytes>, c: Bytes): seq<Bytes> {
    if cols == [] then [c]
    else if Less(c, cols[0]) then [c] + cols
    else [cols[0]] + Inserted(cols[1..], c)
  }

  lemma AscendingCons(x: Bytes, rest: seq<Bytes>)
    ensures Ascending([x] + rest) <==> Ascending(rest) && forall y | y in rest :: Less(x, y)
  {
    hide Less;
    var cols := [x] + rest;
    if Ascending(cols) {
      assert cols[0] == x && forall i | 0 <= i < |rest| :: rest[i] == cols[i + 1];
      forall y | y in rest
        ensures Less(x, y)
      {
        var i :| 0 <= i < |rest| && rest[i] == y;
        assert cols[i + 1] == y;
      }
    }
    if Ascending(rest) && forall y | y in rest :: Less(x, y) {
      forall i, j | 0 <= i < j < |cols|
        ensures Less(cols[i], cols[j])
      {
        assert cols[j] == rest[j - 1] && rest[j - 1] in rest;
        if i > 0 {
          assert cols[i] == rest[i - 1];
        }
      }
    }
  }

  lemma {:induction false} InsertedAscends(cols: seq<Bytes>, c: Bytes)
    requires Ascending(cols) && c !in cols
    ensures Ascending(Inserted(cols, c)) && forall x :: x in Inserted(cols, c) <==> x == c || x in cols
  {
    if cols == [] {
    } else {
      var rest := cols[1..];
      assert cols == [cols[0]] + rest;
      AscendingCons(cols[0], rest);
      AscendingCons(cols[0], Inserted(rest, c));
      AscendingCons(c, cols);
      LessIsTotal(c, cols[0]);
      if Less(c, cols[0]) {
        forall y | y in rest
          ensures Less(c, y)
        {
          LessIsTransitive(c, cols[0], y);
        }
      }
      hide Ascending, Less;
      InsertedAscends(rest, c);
    }
  }

  ghost function Pick(cols: set<Bytes>): (c: Bytes)
    requires cols != {}
    ensures c in cols
  {
    var c :| c in cols;
    c
  }

  /** The columns of a partition in the order in which the storage reads them. */
  ghost function InReadOrder(cols: set<Bytes>): seq<Bytes> {
    if cols == {} then [] else var c := Pick(cols); Inserted(InReadOrder(cols - {c}), c)
  }

  lemma {:induction false} ReadOrderAscends(cols: set<Bytes>)
    ensures Ascending(InReadOrder(cols)) && forall x :: x in InReadOrder(cols) <==> x in cols
  {
    if cols != {} {
      var c := Pick(cols);
      ReadOrderAscends(cols - {c});
      InsertedAscends(InReadOrder(cols - {c}), c);
    }
  }

  lemma SomeElement(cols: seq<Bytes>) returns (c: Bytes)
    requires cols != []
    ensures c in cols
  {
    c := cols[0];
  }

  /** Ascending enumerations of the same set are equal. */
  lemma {:induction false} AscendingIsUnique(a: seq<Bytes>, b: seq<Bytes>)
    requires Ascending(a) && Ascending(b) && forall x :: x in a <==> x in b
    ensures a == b
    decreases |a|
  {
    if a == [] {
      if b != [] { var x := SomeElement(b); }
    } else if b == [] {
      var x := SomeElement(a);
    } else {
      var s, t := a[1..], b[1..];
      assert a == [a[0]] + s && b == [b[0]] + t;
      AscendingCons(a[0], s);
      AscendingCons(b[0], t);
      assert a[0] in b && b[0] in a;
      if a[0] != b[0] {
        LessIsTransitive(a[0], b[0], a[0]);
        LessIsStrict(a[0]);
      }
      LessIsStrict(a[0]);
      forall x
        ensures x in s <==> x in t
      {
        assert x in a <==> x in b;
      }
      AscendingIsUnique(s, t);
    }
  }

  /** So any ascending enumeration of the columns is the read order. */
  lemma IsReadOrder(cols: set<Bytes>, a: seq<Bytes>)
    requires Ascending(a) && forall x :: x in a <==> x in cols
    ensures a == InReadOrder(cols)
  {
    ReadOrderAscends(cols);
    AscendingIsUnique(a, InReadOrder(cols));
  }

  /* ---------- little-endian numbers ---------- */

  function Column(n: nat): Bytes {
    LittleEndian(n, 8)
  }

  lemma {:induction false} LittleEndianIsInjective(m: nat, n: nat, size: nat)
    requires m < Pow256(size) && n < Pow256(size) && LittleEndian(m, size) == LittleEndian(n, size)
    ensures m == n
  {
    if size > 0 {
      var a, b := LittleEndian(m, size), LittleEndian(n, size);
      assert a[0] == m % 256 && b[0] == n % 256;
      assert a[1..] == LittleEndian(m / 256, size - 1) && b[1..] == LittleEndian(n / 256, size - 1);
      LittleEndianIsInjective(m / 256, n / 256, size - 1);
    }
  }

  lemma ColumnIsInjective(m: nat, n: nat)
    requires m < UINT64_LIMIT && n < UINT64_LIMIT && Column(m) == Column(n)
    ensures m == n
  {
    Pow256Values();
    LittleEndianIsInjective(m, n, 8);
  }

  /** Within a block of 256 numbers the columns come in numerical order. */
  lemma SameBlockAscends(m: nat, n: nat)
    requires m < n && m / 256 == n / 256
    ensures Less(Column(m), Column(n))
  {
    assert Column(m)[0] == m % 256 && Column(n)[0] == n % 256;
  }

  /** The first number of a block comes before its predecessor. */
  lemma NewBlockDescends(n: nat)
    requires n > 0 && n % 256 == 0
    ensures Less(Column(n), Column(n - 1))
  {
    assert Column(n)[0] == 0 && Column(n - 1)[0] == 255;
  }

  function Columns(from: nat, to: nat): (cols: seq<Bytes>)
    requires from <= to
    ensures |cols| == to - from
  {
    seq(to - from, i requires 0 <= i < to - from => Column(from + i))
  }

  /** The columns of consecutive numbers ascend exactly if the numbers are in one block of 256. */
  lemma ColumnsAscendExactlyIfOneBlock(from: nat, to: nat)
    requires from < to
    ensures Ascending(Columns(from, to)) <==> from / 256 == (to - 1) / 256
  {
    var cols := Columns(from, to);
    if from / 256 == (to - 1) / 256 {
      forall i, j | 0 <= i < j < |cols|
        ensures Less(cols[i], cols[j])
      {
        SameBlockAscends(from + i, from + j);
      }
    } else {
      var n := (to - 1) / 256 * 256;
      assert from < n <= to - 1 && n % 256 == 0;
      NewBlockDescends(n);
      if Ascending(cols) {
        assert Less(cols[n - 1 - from], cols[n - from]);
        LessIsTransitive(Column(n), Column(n - 1), Column(n));
        LessIsStrict(Column(n));
      }
    }
  }
}
