/** Revision strings: a decimal generation, a dash and a content hash. */
module Revisions {
  import opened ByteStrings

  const DASH: byte := 45
  const PLUS: byte := 43

  /** Position of the first dash, or the length when there is none. */
  function DashIndex(s: Bytes): (i: nat)
    ensures i <= |s|
    ensures DASH !in s[..i]
    ensures i < |s| ==> s[i] == DASH
  {
    if s == [] || s[0] == DASH then 0
    else
      var i := 1 + DashIndex(s[1..]);
      assert s[..i] == [s[0]] + s[1..][..i - 1];
      i
  }

  lemma {:induction false} FirstDash(s: Bytes, i: nat)
    requires i < |s| && s[i] == DASH && DASH !in s[..i]
    ensures DashIndex(s) == i
  {
    if i > 0 {
      assert s[0] in s[..i];
      assert s[1..][..i - 1] == s[..i][1..];
      FirstDash(s[1..], i - 1);
    }
  }

  function GenPart(r: Bytes): Bytes {
    r[..DashIndex(r)]
  }

  /** What follows the first dash; empty when there is none. */
  function HashPart(r: Bytes): Bytes {
    var i := DashIndex(r);
    if i < |r| then r[i + 1..] else []
  }

  predicate IsDigit(c: byte) {
    48 <= c <= 57
  }

  function ParseDigits(s: Bytes): Option<nat> {
    if s == [] then Some(0)
    else match ParseDigits(s[..|s| - 1])
      case None => None
      case Some(n) => if IsDigit(s[|s| - 1]) then Some(10 * n + (s[|s| - 1] - 48)) else None
  }

  /** strconv.ParseInt in base 10: an optional sign and at least one digit. */
  function ParseInt(s: Bytes): Option<int> {
    var signed := s != [] && (s[0] == DASH || s[0] == PLUS);
    var digits := if signed then s[1..] else s;
    if digits == [] then None
    else match ParseDigits(digits)
      case None => None
      case Some(n) => var m: int := n; Some(if signed && s[0] == DASH then -m else m)
  }

  /** strconv.Atoi with its error dropped. */
  function Atoi(s: Bytes): int {
    match ParseInt(s)
    case None => 0
    case Some(n) => n
  }

  function Digits(n: nat): (s: Bytes)
    ensures s != []
    ensures forall i :: 0 <= i < |s| ==> IsDigit(s[i])
  {
    if n < 10 then [48 + n] else Digits(n / 10) + [48 + n % 10]
  }

  /** strconv.Itoa. */
  function Itoa(n: int): Bytes {
    if n < 0 then [DASH] + Digits(-n) else Digits(n)
  }

  lemma {:induction false} DigitsParse(n: nat)
    ensures ParseDigits(Digits(n)) == Some(n)
  {
    var s := Digits(n);
    if n < 10 {
      assert s[..|s| - 1] == [];
    } else {
      assert s[..|s| - 1] == Digits(n / 10);
      DigitsParse(n / 10);
    }
  }

  lemma AtoiItoa(n: int)
    ensures ParseInt(Itoa(n)) == Some(n)
    ensures Atoi(Itoa(n)) == n
  {
    if n < 0 { NegativeBack(-n, Digits(-n)); } else { DigitsBack(n, Digits(n)); }
  }

  lemma NegativeBack(n: nat, s: Bytes)
    requires s == Digits(n)
    ensures ParseInt([DASH] + s) == Some(0 - n)
  {
    DigitsParse(n);
    assert ([DASH] + s)[1..] == s;
  }

  lemma DigitsBack(n: nat, s: Bytes)
    requires s == Digits(n)
    ensures ParseInt(s) == Some(n)
  {
    DigitsParse(n);
    assert IsDigit(s[0]);
  }

  function Format(gen: int, hash: Bytes): Bytes {
    Itoa(gen) + [DASH] + hash
  }

  function Gen(r: Bytes): int {
    Atoi(GenPart(r))
  }

  /** "n-hash" with n in the form Itoa prints. */
  predicate WellFormed(r: Bytes) {
    Gen(r) >= 0 && r == Format(Gen(r), HashPart(r))
  }

  lemma FormatParse(gen: nat, hash: Bytes)
    ensures GenPart(Format(gen, hash)) == Itoa(gen)
    ensures Gen(Format(gen, hash)) == gen && HashPart(Format(gen, hash)) == hash
    ensures WellFormed(Format(gen, hash))
  {
    var g := Digits(gen);
    var r := Format(gen, hash);
    assert r[|g|] == DASH;
    assert r[..|g|] == g && r[|g| + 1..] == hash;
    FirstDash(r, |g|);
    AtoiItoa(gen);
  }

  lemma GenNonNegative(r: Bytes)
    ensures Gen(r) >= 0
  {
    var g := GenPart(r);
    if g != [] { assert g[0] in g; }
  }

  /** Higher generation first, then the hash in byte order. */
  function CompareRevs(a: Bytes, b: Bytes): int {
    if Gen(a) != Gen(b) then Gen(a) - Gen(b)
    else Compare(HashPart(a), HashPart(b))
  }

  predicate NotAbove(a: Bytes, b: Bytes) {
    CompareRevs(a, b) <= 0
  }

  /** The ordering is a total preorder on all strings and tells any two
      well-formed revisions apart. */
  lemma CompareRevsOrder(a: Bytes, b: Bytes, c: Bytes)
    ensures NotAbove(a, a)
    ensures NotAbove(a, b) || NotAbove(b, a)
    ensures CompareRevs(a, b) > 0 <==> !NotAbove(a, b)
    ensures CompareRevs(a, b) < 0 <==> CompareRevs(b, a) > 0
    ensures NotAbove(a, b) && NotAbove(b, c) ==> NotAbove(a, c)
    ensures WellFormed(a) && WellFormed(b) && NotAbove(a, b) && NotAbove(b, a) ==> a == b
  {
    var x, y, z := HashPart(a), HashPart(b), HashPart(c);
    CompareSwap(x, x);
    CompareSwap(x, y);
    if AtMost(x, y) && AtMost(y, z) { CompareTransitive(x, y, z); }
  }

  /** slices.MaxFunc over compareRevs: the first maximal element. */
  /** The higher generation is above; of the same generation, the greater hash. */
  lemma GenerationsDecide(m: nat, h: Bytes, n: nat, k: Bytes)
    ensures NotAbove(Format(m, h), Format(n, k)) <==> m < n || (m == n && AtMost(h, k))
  {
    FormatParse(m, h);
    FormatParse(n, k);
  }

  /** Decimal digits, the most significant first. */
  lemma DigitsAreDecimal(n: nat, d: nat)
    requires d < 10
    ensures Itoa(d) == [48 + d]
    ensures n > 0 ==> Itoa(10 * n + d) == Itoa(n) + [48 + d]
  {
  }

  function WinnerRev(revs: seq<Bytes>): (w: Bytes)
    requires revs != []
    ensures w in revs
    ensures forall r :: r in revs ==> NotAbove(r, w)
  {
    if |revs| == 1 then
      CompareRevsOrder(revs[0], revs[0], revs[0]);
      revs[0]
    else
      var last := revs[|revs| - 1];
      var m := WinnerRev(revs[..|revs| - 1]);
      var w := if CompareRevs(last, m) > 0 then last else m;
      assert forall r | r in revs :: NotAbove(r, w) by {
        forall r | r in revs ensures NotAbove(r, w) {
          CompareRevsOrder(last, m, m);
          CompareRevsOrder(last, last, last);
          CompareRevsOrder(r, m, last);
          assert r == last || r in revs[..|revs| - 1];
        }
      }
      w
  }

  /** On well-formed revisions the winner depends only on which ones compete. */
  lemma WinnerUnique(revs: seq<Bytes>, m: Bytes)
    requires m in revs
    requires forall r :: r in revs ==> WellFormed(r) && NotAbove(r, m)
    ensures WinnerRev(revs) == m
  {
    CompareRevsOrder(WinnerRev(revs), m, m);
  }

  /** The generation a local edit of rev gets. The source slices at the dash,
      so it demands one. */
  function NextGeneration(rev: Option<Bytes>): (n: int)
    requires rev.Some? ==> DASH in rev.value
    ensures n >= 1
  {
    match rev
    case None => 1
    case Some(r) =>
      GenNonNegative(r);
      match ParseInt(GenPart(r))
      case None => 1
      case Some(n) => n + 1
  }

  /** Editing a well-formed revision raises its generation by exactly one, so
      the new revision beats every revision the old one was not below. */
  lemma EditBeats(prev: Bytes, hash: Bytes, other: Bytes)
    requires WellFormed(prev) && NotAbove(other, prev)
    ensures DASH in prev
    ensures var rev := Format(NextGeneration(Some(prev)), hash);
            WellFormed(rev) && Gen(rev) == Gen(prev) + 1 && !NotAbove(rev, other) && rev != other
  {
    var g := Gen(prev);
    FormatParse(g, HashPart(prev));
    AtoiItoa(g);
    FormatParse(g + 1, hash);
    assert prev[|Itoa(g)|] == DASH;
    assert NextGeneration(Some(prev)) == g + 1;
  }
}
