/** Byte strings, the order bbolt keeps its keys in, and the big-endian
    counters that goydb writes into keys. */
module ByteStrings {
  type byte = x: int | 0 <= x < 256
  type Bytes = seq<byte>

  datatype Option<+T> = None | Some(value: T)

  /** Three-way lexicographic comparison, as bytes.Compare and strings.Compare. */
  function Compare(a: Bytes, b: Bytes): int {
    if a == [] then (if b == [] then 0 else -1)
    else if b == [] then 1
    else if a[0] < b[0] then -1
    else if a[0] > b[0] then 1
    else Compare(a[1..], b[1..])
  }

  predicate AtMost(a: Bytes, b: Bytes) {
    Compare(a, b) <= 0
  }

  predicate Before(a: Bytes, b: Bytes) {
    Compare(a, b) < 0
  }

  lemma {:induction false} CompareSwap(a: Bytes, b: Bytes)
    ensures Compare(a, b) == -Compare(b, a)
    ensures Compare(a, b) == 0 <==> a == b
  {
    if a != [] && b != [] && a[0] == b[0] {
      CompareSwap(a[1..], b[1..]);
      assert a == [a[0]] + a[1..] && b == [b[0]] + b[1..];
    }
  }

  /** The first bytes decide; if they are the same, what follows; nothing comes before
      something. */
  lemma FirstByteDecides(x: byte, a: Bytes, y: byte, b: Bytes)
    ensures Before([x] + a, [y] + b) <==> x < y || (x == y && Before(a, b))
    ensures Before([], [x] + a) && !Before([x] + a, []) && !Before([], [])
  {
    assert ([x] + a)[1..] == a && ([y] + b)[1..] == b;
  }

  lemma {:induction false} CompareTransitive(a: Bytes, b: Bytes, c: Bytes)
    requires AtMost(a, b) && AtMost(b, c)
    ensures AtMost(a, c)
    ensures Before(a, b) || Before(b, c) ==> Before(a, c)
  {
    if a != [] && b != [] && c != [] && a[0] == b[0] == c[0] {
      CompareTransitive(a[1..], b[1..], c[1..]);
    }
  }

  /** A key never sorts before one of its prefixes. */
  lemma {:induction false} PrefixFirst(p: Bytes, k: Bytes)
    requires p <= k
    ensures AtMost(p, k)
  {
    if p != [] {
      assert p[0] == k[0] && p[1..] <= k[1..];
      PrefixFirst(p[1..], k[1..]);
    }
  }

  /** Keys sharing a prefix are contiguous: a scan that starts at the prefix and
      stops at the first key without it has missed none. */
  lemma {:induction false} PrefixContiguous(p: Bytes, m: Bytes, k: Bytes)
    requires AtMost(p, m) && AtMost(m, k) && p <= k
    ensures p <= m
  {
    if p != [] {
      assert p[0] == k[0] && p[1..] <= k[1..];
      assert m != [] && m[0] == p[0];
      PrefixContiguous(p[1..], m[1..], k[1..]);
      assert p == [p[0]] + p[1..] && m == [m[0]] + m[1..];
    }
  }

  lemma {:induction false} ComparePrepend(p: Bytes, a: Bytes, b: Bytes)
    ensures Compare(p + a, p + b) == Compare(a, b)
  {
    if p == [] {
      assert p + a == a && p + b == b;
    } else {
      assert (p + a)[1..] == p[1..] + a && (p + b)[1..] == p[1..] + b;
      ComparePrepend(p[1..], a, b);
    }
  }

  lemma {:induction false} CompareAppend(a: Bytes, b: Bytes, x: Bytes, y: Bytes)
    requires |a| == |b|
    ensures Compare(a + x, b + y) == if a == b then Compare(x, y) else Compare(a, b)
  {
    if a == [] {
      assert a + x == x && b + y == y;
    } else {
      assert (a + x)[1..] == a[1..] + x && (b + y)[1..] == b[1..] + y;
      assert a == [a[0]] + a[1..] && b == [b[0]] + b[1..];
      CompareAppend(a[1..], b[1..], x, y);
    }
  }

  /** The split of a byte string at a known length is unique. */
  lemma AppendInjective(a: Bytes, b: Bytes, x: Bytes, y: Bytes)
    requires a + x == b + y
    requires |a| == |b| || |x| == |y|
    ensures a == b && x == y
  {
    assert a == (a + x)[..|a|] && b == (b + y)[..|b|];
    assert x == (a + x)[|a|..] && y == (b + y)[|b|..];
  }

  /******* Big-endian integers *******/

  function Pow256(width: nat): nat {
    if width == 0 then 1 else 256 * Pow256(width - 1)
  }

  /** The low `width` bytes of n, most significant first. */
  function BigEndian(n: nat, width: nat): (b: Bytes)
    ensures |b| == width
  {
    if width == 0 then [] else BigEndian(n / 256, width - 1) + [n % 256]
  }

  function FromBigEndian(b: Bytes): nat {
    if b == [] then 0 else 256 * FromBigEndian(b[..|b| - 1]) + b[|b| - 1]
  }

  lemma {:induction false} BigEndianRoundTrip(n: nat, width: nat)
    requires n < Pow256(width)
    ensures FromBigEndian(BigEndian(n, width)) == n
  {
    if width != 0 {
      assert n / 256 < Pow256(width - 1);
      BigEndianRoundTrip(n / 256, width - 1);
      var b := BigEndian(n, width);
      assert b[..|b| - 1] == BigEndian(n / 256, width - 1);
    }
  }

  /** Byte order of equally wide big-endian integers is numeric order. */
  lemma {:induction false} BigEndianOrder(m: nat, n: nat, width: nat)
    requires m < Pow256(width) && n < Pow256(width)
    ensures Before(BigEndian(m, width), BigEndian(n, width)) <==> m < n
  {
    if width != 0 {
      assert m / 256 < Pow256(width - 1) && n / 256 < Pow256(width - 1);
      var a, b := BigEndian(m / 256, width - 1), BigEndian(n / 256, width - 1);
      BigEndianOrder(m / 256, n / 256, width - 1);
      BigEndianRoundTrip(m / 256, width - 1);
      BigEndianRoundTrip(n / 256, width - 1);
      LastDecides(a, b, m % 256, n % 256);
      DigitsDecide(m, n);
    }
  }

  lemma LastDecides(a: Bytes, b: Bytes, x: byte, y: byte)
    requires |a| == |b|
    ensures Before(a + [x], b + [y]) <==> Before(a, b) || (a == b && x < y)
  {
    CompareAppend(a, b, [x], [y]);
    CompareSwap(a, b);
  }

  lemma DigitsDecide(m: nat, n: nat)
    ensures m < n <==> m / 256 < n / 256 || (m / 256 == n / 256 && m % 256 < n % 256)
  {
    assert m == 256 * (m / 256) + m % 256 && n == 256 * (n / 256) + n % 256;
  }

  const U64: nat := 0x1_0000_0000_0000_0000
  const U16: nat := 0x1_0000

  lemma Widths()
    ensures Pow256(8) == U64 && Pow256(2) == U16
  {
    assert Pow256(2) == 256 * Pow256(1) && Pow256(1) == 256 * Pow256(0);
    assert Pow256(4) == 256 * Pow256(3) && Pow256(3) == 256 * Pow256(2);
    assert Pow256(6) == 256 * Pow256(5) && Pow256(5) == 256 * Pow256(4);
    assert Pow256(8) == 256 * Pow256(7) && Pow256(7) == 256 * Pow256(6);
  }

  /** The 8-byte key of a sequence number; a number of 2^64 or more wraps. */
  function U64Key(n: nat): (b: Bytes)
    ensures |b| == 8
  {
    BigEndian(n, 8)
  }

  /** The 2-byte length trailer; a length of 2^16 or more is truncated. */
  function U16Key(n: nat): (b: Bytes)
    ensures |b| == 2
  {
    BigEndian(n, 2)
  }

  lemma U64KeyOrder(m: nat, n: nat)
    requires m < U64 && n < U64
    ensures Before(U64Key(m), U64Key(n)) <==> m < n
    ensures U64Key(m) == U64Key(n) <==> m == n
    ensures FromBigEndian(U64Key(m)) == m
  {
    Widths();
    BigEndianOrder(m, n, 8);
    BigEndianRoundTrip(m, 8);
    BigEndianRoundTrip(n, 8);
  }

  lemma U16KeyInjective(m: nat, n: nat)
    requires m < U16 && n < U16
    ensures U16Key(m) == U16Key(n) <==> m == n
    ensures FromBigEndian(U16Key(m)) == m
  {
    Widths();
    BigEndianRoundTrip(m, 2);
    BigEndianRoundTrip(n, 2);
  }
}
