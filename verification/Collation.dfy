/** The order of view keys, and the ranges a view query selects by it. */
module Collation {
  import opened ByteStrings
  import opened Documents

  function Rank(j: Json): nat {
    match j
    case Null => 0
    case Bool(_) => 1
    case Num(_) => 2
    case Str(_) => 3
    case Arr(_) => 4
    case Obj(_) => 5
  }

  function Sign(less: bool, equal: bool): int {
    if less then -1 else if equal then 0 else 1
  }

  /** null, booleans, numbers, strings, arrays element by element, objects; any two
      objects compare equal. */
  function ViewKeyCmp(a: Json, b: Json): int
    decreases a
  {
    if Rank(a) != Rank(b) then Sign(Rank(a) < Rank(b), false)
    else match a
      case Null => 0
      case Bool(x) => Sign(!x && b.b, x == b.b)
      case Num(x) => Sign(x < b.n, x == b.n)
      case Str(x) => Compare(x, b.s)
      case Arr(xs) => CompareItems(xs, b.items, 0)
      case Obj(_) => 0
  }

  /** The first difference decides, then the length. */
  function CompareItems(xs: seq<Json>, ys: seq<Json>, i: nat): int
    requires i <= |xs| && i <= |ys|
    decreases xs, |xs| - i
  {
    if i == |xs| || i == |ys| then Sign(|xs| < |ys|, |xs| == |ys|)
    else
      var c := ViewKeyCmp(xs[i], ys[i]);
      if c != 0 then c else CompareItems(xs, ys, i + 1)
  }

  /******* A total preorder *******/

  lemma {:induction false} CompareBounded(a: Bytes, b: Bytes)
    ensures -1 <= Compare(a, b) <= 1
  {
    if a != [] && b != [] { CompareBounded(a[1..], b[1..]); }
  }

  lemma {:induction false} CmpSwap(a: Json, b: Json)
    ensures ViewKeyCmp(a, b) == -ViewKeyCmp(b, a)
    ensures -1 <= ViewKeyCmp(a, b) <= 1
    decreases a
  {
    if a.Str? && b.Str? {
      CompareSwap(a.s, b.s);
      CompareBounded(a.s, b.s);
    }
    if a.Arr? && b.Arr? { ItemsSwap(a.items, b.items, 0); }
  }

  lemma {:induction false} ItemsSwap(xs: seq<Json>, ys: seq<Json>, i: nat)
    requires i <= |xs| && i <= |ys|
    ensures CompareItems(xs, ys, i) == -CompareItems(ys, xs, i)
    ensures -1 <= CompareItems(xs, ys, i) <= 1
    decreases xs, |xs| - i
  {
    if i < |xs| && i < |ys| {
      CmpSwap(xs[i], ys[i]);
      ItemsSwap(xs, ys, i + 1);
    }
  }

  ghost predicate Chains(ab: int, bc: int, ac: int) {
    ab <= 0 && bc <= 0 ==> ac <= 0 && (ab < 0 || bc < 0 ==> ac < 0)
  }

  lemma {:induction false} CmpTransitive(a: Json, b: Json, c: Json)
    ensures Chains(ViewKeyCmp(a, b), ViewKeyCmp(b, c), ViewKeyCmp(a, c))
    decreases a
  {
    if a.Str? && b.Str? && c.Str? && AtMost(a.s, b.s) && AtMost(b.s, c.s) { CompareTransitive(a.s, b.s, c.s); }
    if a.Arr? && b.Arr? && c.Arr? { ItemsTransitive(a.items, b.items, c.items, 0); }
  }

  lemma {:induction false} ItemsTransitive(xs: seq<Json>, ys: seq<Json>, zs: seq<Json>, i: nat)
    requires i <= |xs| && i <= |ys| && i <= |zs|
    ensures Chains(CompareItems(xs, ys, i), CompareItems(ys, zs, i), CompareItems(xs, zs, i))
    decreases xs, |xs| - i
  {
    if i < |xs| && i < |ys| && i < |zs| {
      CmpTransitive(xs[i], ys[i], zs[i]);
      CmpEqual(xs[i], ys[i], zs[i]);
      ItemsTransitive(xs, ys, zs, i + 1);
    }
  }

  /** Keys that compare equal are equal to the same keys. */
  lemma {:induction false} CmpEqual(a: Json, b: Json, c: Json)
    ensures ViewKeyCmp(a, b) == 0 && ViewKeyCmp(b, c) == 0 ==> ViewKeyCmp(a, c) == 0
    decreases a
  {
    if a.Str? && b.Str? && c.Str? { CompareSwap(a.s, b.s); CompareSwap(b.s, c.s); CompareSwap(a.s, c.s); }
    if a.Arr? && b.Arr? && c.Arr? { ItemsEqual(a.items, b.items, c.items, 0); }
  }

  lemma {:induction false} ItemsEqual(xs: seq<Json>, ys: seq<Json>, zs: seq<Json>, i: nat)
    requires i <= |xs| && i <= |ys| && i <= |zs|
    ensures CompareItems(xs, ys, i) == 0 && CompareItems(ys, zs, i) == 0 ==> CompareItems(xs, zs, i) == 0
    decreases xs, |xs| - i
  {
    if i < |xs| && i < |ys| && i < |zs| {
      CmpEqual(xs[i], ys[i], zs[i]);
      ItemsEqual(xs, ys, zs, i + 1);
    }
  }

  /** Reflexive, total, sign-antisymmetric and transitive, however deep the arrays. */
  lemma CollationIsTotalPreorder(a: Json, b: Json, c: Json)
    ensures ViewKeyCmp(a, a) == 0
    ensures ViewKeyCmp(a, b) == -ViewKeyCmp(b, a)
    ensures ViewKeyCmp(a, b) <= 0 || ViewKeyCmp(b, a) <= 0
    ensures ViewKeyCmp(a, b) <= 0 && ViewKeyCmp(b, c) <= 0 ==> ViewKeyCmp(a, c) <= 0
    ensures ViewKeyCmp(a, b) < 0 && ViewKeyCmp(b, c) <= 0 ==> ViewKeyCmp(a, c) < 0
    ensures ViewKeyCmp(a, b) <= 0 && ViewKeyCmp(b, c) < 0 ==> ViewKeyCmp(a, c) < 0
  {
    CmpSwap(a, a);
    CmpSwap(a, b);
    CmpTransitive(a, b, c);
  }

  /** Two keys that compare equal are the same key up to what objects hold. */
  predicate Alike(a: Json, b: Json)
    decreases a
  {
    Rank(a) == Rank(b) &&
    match a
    case Null => true
    case Bool(x) => x == b.b
    case Num(x) => x == b.n
    case Str(x) => x == b.s
    case Arr(xs) => |xs| == |b.items| && forall i :: 0 <= i < |xs| ==> Alike(xs[i], b.items[i])
    case Obj(_) => true
  }

  lemma {:induction false} EqualIsAlike(a: Json, b: Json)
    ensures ViewKeyCmp(a, b) == 0 <==> Alike(a, b)
    decreases a
  {
    if a.Str? && b.Str? { CompareSwap(a.s, b.s); }
    if a.Arr? && b.Arr? { ItemsAlike(a.items, b.items, 0); }
  }

  lemma {:induction false} ItemsAlike(xs: seq<Json>, ys: seq<Json>, i: nat)
    requires i <= |xs| && i <= |ys|
    ensures CompareItems(xs, ys, i) == 0 <==> |xs| == |ys| && forall j :: i <= j < |xs| ==> Alike(xs[j], ys[j])
    decreases xs, |xs| - i
  {
    if i < |xs| && i < |ys| {
      EqualIsAlike(xs[i], ys[i]);
      ItemsAlike(xs, ys, i + 1);
    }
  }

  /******* Ranges *******/

  /** A range as the query gives it; a null bound is no bound. */
  datatype Range = Range(startKey: Json, endKey: Json, exclusiveEnd: bool, descending: bool)

  predicate InRange(r: Range, key: Json) {
    if r.descending then
      && (r.startKey != Null ==> ViewKeyCmp(key, r.startKey) <= 0)
      && (r.endKey != Null ==>
            if r.exclusiveEnd then ViewKeyCmp(key, r.endKey) > 0 else ViewKeyCmp(key, r.endKey) >= 0)
    else
      && (r.startKey != Null ==> ViewKeyCmp(key, r.startKey) >= 0)
      && (r.endKey != Null ==>
            if r.exclusiveEnd then ViewKeyCmp(key, r.endKey) < 0 else ViewKeyCmp(key, r.endKey) <= 0)
  }

  /** The same interval walked the other way. */
  function Reversed(r: Range): Range {
    Range(r.endKey, r.startKey, r.exclusiveEnd, !r.descending)
  }

  /** The closed range between the bounds. */
  predicate Within(r: Range, key: Json) {
    InRange(r.(exclusiveEnd := false), key)
  }

  predicate At(bound: Json, key: Json) {
    bound != Null && ViewKeyCmp(key, bound) == 0
  }

  /** The bounds leave no key strictly between them and both of them out, or there
      is none. */
  predicate Collapses(r: Range) {
    || (r.startKey == Null && r.endKey == Null)
    || (r.startKey != Null && r.endKey != Null
        && if r.descending then ViewKeyCmp(r.startKey, r.endKey) <= 0 else ViewKeyCmp(r.startKey, r.endKey) >= 0)
  }

  /** Walked the other way with its bounds swapped, a range selects a key or not as
      before, unless the end is exclusive and the key is at just one of the bounds. */
  lemma ReversedKey(r: Range, key: Json)
    ensures (InRange(r, key) <==> InRange(Reversed(r), key))
            <==> !(r.exclusiveEnd && Within(r, key) && At(r.startKey, key) != At(r.endKey, key))
  {
  }

  /** So the two ways select the same rows, whatever rows there are, exactly when the
      end is included, there is no bound, or the bounds do not leave room for one of
      them. */
  lemma ReversedRange(r: Range)
    ensures (forall key :: InRange(r, key) <==> InRange(Reversed(r), key)) <==> !r.exclusiveEnd || Collapses(r)
  {
    if !r.exclusiveEnd || Collapses(r) {
      forall key ensures InRange(r, key) <==> InRange(Reversed(r), key) {
        ReversedKey(r, key);
        if Collapses(r) && Within(r, key) { AtBoth(r, key); }
      }
    } else {
      var bound := if r.startKey == Null then r.endKey else r.startKey;
      ReversedKey(r, bound);
      CmpSwap(bound, bound);
      CmpSwap(r.startKey, r.endKey);
      assert Within(r, bound) && At(r.startKey, bound) != At(r.endKey, bound);
    }
  }

  /** In a collapsed range a key is at both bounds. */
  lemma AtBoth(r: Range, key: Json)
    requires Collapses(r) && Within(r, key)
    ensures At(r.startKey, key) == At(r.endKey, key)
  {
    CmpSwap(key, r.startKey);
    CmpSwap(key, r.endKey);
    CmpSwap(r.startKey, r.endKey);
    CollationIsTotalPreorder(r.startKey, key, r.endKey);
    CollationIsTotalPreorder(r.endKey, key, r.startKey);
    CollationIsTotalPreorder(r.startKey, r.endKey, key);
    CollationIsTotalPreorder(r.endKey, r.startKey, key);
  }

  /******* Which key comes first *******/

  /** Null comes before booleans, then numbers, strings, arrays and objects. */
  lemma TypesInOrder(a: Json, b: Json)
    ensures a.Null? && !b.Null? ==> ViewKeyCmp(a, b) < 0
    ensures a.Bool? && (b.Num? || b.Str? || b.Arr? || b.Obj?) ==> ViewKeyCmp(a, b) < 0
    ensures a.Num? && (b.Str? || b.Arr? || b.Obj?) ==> ViewKeyCmp(a, b) < 0
    ensures a.Str? && (b.Arr? || b.Obj?) ==> ViewKeyCmp(a, b) < 0
    ensures a.Arr? && b.Obj? ==> ViewKeyCmp(a, b) < 0
  {
  }

  /** False comes before true, numbers go by size, strings by their bytes; any two nulls
      or objects are even. */
  lemma ValuesInOrder(x: int, y: int, s: Bytes, t: Bytes, f: map<Bytes, Json>, g: map<Bytes, Json>)
    ensures ViewKeyCmp(Bool(false), Bool(true)) < 0
    ensures ViewKeyCmp(Num(x), Num(y)) < 0 <==> x < y
    ensures ViewKeyCmp(Num(x), Num(y)) == 0 <==> x == y
    ensures ViewKeyCmp(Str(s), Str(t)) < 0 <==> Before(s, t)
    ensures ViewKeyCmp(Str(s), Str(t)) == 0 <==> s == t
    ensures ViewKeyCmp(Obj(f), Obj(g)) == 0
  {
    CompareSwap(s, t);
  }

  /** The first k items compare even. */
  ghost predicate EvenUpTo(xs: seq<Json>, ys: seq<Json>, k: nat) {
    k <= |xs| && k <= |ys| && forall i :: 0 <= i < k ==> ViewKeyCmp(xs[i], ys[i]) == 0
  }

  lemma {:induction false} SkipEven(xs: seq<Json>, ys: seq<Json>, i: nat, k: nat)
    requires EvenUpTo(xs, ys, k) && i <= k
    ensures CompareItems(xs, ys, i) == CompareItems(xs, ys, k)
    decreases k - i
  {
    if i < k { SkipEven(xs, ys, i + 1, k); }
  }

  /** The first items that differ decide between two arrays, and without such the
      shorter one comes first. */
  lemma ArraysInOrder(xs: seq<Json>, ys: seq<Json>, k: nat)
    requires EvenUpTo(xs, ys, k)
    ensures k < |xs| && k < |ys| && ViewKeyCmp(xs[k], ys[k]) != 0 ==>
              ViewKeyCmp(Arr(xs), Arr(ys)) == ViewKeyCmp(xs[k], ys[k])
    ensures k == |xs| < |ys| ==> ViewKeyCmp(Arr(xs), Arr(ys)) < 0
    ensures k == |xs| == |ys| ==> ViewKeyCmp(Arr(xs), Arr(ys)) == 0
  {
    SkipEven(xs, ys, 0, k);
  }

  /** A proper prefix comes first. */
  lemma PrefixInOrder(xs: seq<Json>, ys: seq<Json>)
    requires xs <= ys && xs != ys
    ensures ViewKeyCmp(Arr(xs), Arr(ys)) < 0
  {
    forall i | 0 <= i < |xs| ensures ViewKeyCmp(xs[i], ys[i]) == 0 { CmpSwap(xs[i], xs[i]); }
    ArraysInOrder(xs, ys, |xs|);
  }

  /** Which numbers a range of numbers selects. */
  lemma NumbersInRange(from: int, to: int, k: int)
    ensures InRange(Range(Num(from), Num(to), false, false), Num(k)) <==> from <= k <= to
    ensures InRange(Range(Num(from), Num(to), true, false), Num(k)) <==> from <= k < to
    ensures InRange(Range(Num(from), Num(to), false, true), Num(k)) <==> to <= k <= from
    ensures InRange(Range(Num(from), Num(to), true, true), Num(k)) <==> to < k <= from
  {
  }

  /** A bound that is not given does not restrict; given, it is compared with every
      key, of whatever type. */
  lemma OpenRanges(bound: Json, exclusiveEnd: bool, key: Json)
    requires bound != Null
    ensures InRange(Range(Null, Null, exclusiveEnd, false), key) && InRange(Range(Null, Null, exclusiveEnd, true), key)
    ensures InRange(Range(bound, Null, exclusiveEnd, false), key) <==> ViewKeyCmp(bound, key) <= 0
    ensures InRange(Range(bound, Null, exclusiveEnd, true), key) <==> ViewKeyCmp(key, bound) <= 0
    ensures InRange(Range(Null, bound, false, false), key) <==> ViewKeyCmp(key, bound) <= 0
    ensures InRange(Range(Null, bound, true, false), key) <==> ViewKeyCmp(key, bound) < 0
    ensures InRange(Range(Null, bound, false, true), key) <==> ViewKeyCmp(bound, key) <= 0
    ensures InRange(Range(Null, bound, true, true), key) <==> ViewKeyCmp(bound, key) < 0
  {
    CmpSwap(bound, key);
  }

  /** A range is what both of its bounds select. */
  lemma RangeIsBoth(r: Range, key: Json)
    ensures InRange(r, key) <==> InRange(r.(endKey := Null), key) && InRange(r.(startKey := Null), key)
  {
  }
}
