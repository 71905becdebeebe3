/** The ascending key sequence of a bucket, which is what a cursor walks. */
module SortedKeys {
  import opened ByteStrings

  ghost predicate Ascending(s: seq<Bytes>) {
    forall i, j :: 0 <= i < j < |s| ==> Before(s[i], s[j])
  }

  ghost predicate IsLeast(k: Bytes, ks: set<Bytes>) {
    k in ks && forall o :: o in ks ==> AtMost(k, o)
  }

  lemma {:induction false} LeastExists(ks: set<Bytes>)
    requires ks != {}
    ensures exists k :: IsLeast(k, ks)
  {
    var x :| x in ks;
    var rest := ks - {x};
    if rest == {} {
      forall o | o in ks ensures AtMost(x, o) { assert o !in rest; CompareSwap(x, x); }
      assert IsLeast(x, ks);
    } else {
      LeastExists(rest);
      var m :| IsLeast(m, rest);
      var k := if AtMost(x, m) then x else m;
      forall o | o in ks ensures AtMost(k, o) {
        CompareSwap(x, x);
        CompareSwap(x, m);
        if o in rest && AtMost(x, m) { CompareTransitive(x, m, o); }
      }
      assert IsLeast(k, ks);
    }
  }

  lemma LeastUnique(a: Bytes, b: Bytes, ks: set<Bytes>)
    requires IsLeast(a, ks) && IsLeast(b, ks)
    ensures a == b
  {
    CompareSwap(a, b);
  }

  function Least(ks: set<Bytes>): (k: Bytes)
    requires ks != {}
    ensures IsLeast(k, ks)
  {
    LeastExists(ks);
    assert forall a, b | IsLeast(a, ks) && IsLeast(b, ks) :: a == b by {
      forall a, b | IsLeast(a, ks) && IsLeast(b, ks) ensures a == b { LeastUnique(a, b, ks); }
    }
    assert forall a | a in ks && (forall o :: o in ks ==> AtMost(a, o)) :: IsLeast(a, ks);
    var k :| k in ks && forall o :: o in ks ==> AtMost(k, o);
    k
  }

  /** The keys in ascending byte order. */
  function Sorted(ks: set<Bytes>): (s: seq<Bytes>)
    ensures forall k :: k in s <==> k in ks
    ensures |s| == |ks|
  {
    if ks == {} then []
    else
      var least := Least(ks);
      [least] + Sorted(ks - {least})
  }

  lemma {:induction false} SortedAscending(ks: set<Bytes>)
    ensures Ascending(Sorted(ks))
  {
    if ks != {} {
      var least := Least(ks);
      SortedAscending(ks - {least});
      LeastFirst(least, Sorted(ks - {least}));
    }
  }

  lemma LeastFirst(k: Bytes, rest: seq<Bytes>)
    requires Ascending(rest)
    requires forall o :: o in rest ==> AtMost(k, o) && o != k
    ensures Ascending([k] + rest)
  {
    forall j | 0 <= j < |rest| ensures Before(k, rest[j]) {
      assert rest[j] in rest;
      CompareSwap(k, rest[j]);
    }
  }

  lemma SomeMember(s: seq<Bytes>)
    ensures s != [] ==> exists k :: k in s
  {
    if s != [] { assert s[0] in s; }
  }

  /** An ascending sequence is determined by its elements. */
  lemma {:induction false} AscendingUnique(s: seq<Bytes>, t: seq<Bytes>)
    requires Ascending(s) && Ascending(t)
    requires forall k :: k in s <==> k in t
    ensures s == t
  {
    if s == [] || t == [] {
      SomeMember(s);
      SomeMember(t);
    } else {
      AscendingHead(s, t);
      AscendingHead(t, s);
      CompareSwap(s[0], t[0]);
      forall k ensures k in s[1..] <==> k in t[1..] {
        TailMembers(s, k);
        TailMembers(t, k);
      }
      AscendingUnique(s[1..], t[1..]);
      assert s == [s[0]] + s[1..] && t == [t[0]] + t[1..];
    }
  }

  lemma AscendingHead(s: seq<Bytes>, t: seq<Bytes>)
    requires Ascending(s) && Ascending(t) && s != [] && t != []
    requires forall k :: k in s <==> k in t
    ensures AtMost(s[0], t[0])
  {
    assert t[0] in t;
    var i :| 0 <= i < |s| && s[i] == t[0];
    CompareSwap(s[0], s[0]);
  }

  lemma TailMembers(s: seq<Bytes>, k: Bytes)
    requires Ascending(s) && s != []
    ensures k in s[1..] <==> k in s && k != s[0]
  {
    if k in s[1..] {
      var i :| 0 <= i < |s[1..]| && s[1..][i] == k;
      CompareSwap(s[0], k);
      assert s[i + 1] == k;
    }
  }

  /** Where Seek(k) lands: the number of keys before k. */
  function SeekIndex(s: seq<Bytes>, k: Bytes): (i: nat)
    ensures i <= |s|
  {
    if s == [] || !Before(s[0], k) then 0 else 1 + SeekIndex(s[1..], k)
  }

  lemma {:induction false} SeekLands(s: seq<Bytes>, k: Bytes, j: nat)
    requires j <= SeekIndex(s, k) && j < |s|
    ensures Before(s[j], k) <==> j < SeekIndex(s, k)
  {
    if j > 0 { SeekLands(s[1..], k, j - 1); }
  }

  /** On an ascending sequence everything from the landing place on is at least k. */
  lemma SeekSplits(s: seq<Bytes>, k: Bytes, j: nat)
    requires Ascending(s) && j < |s|
    ensures j < SeekIndex(s, k) <==> Before(s[j], k)
  {
    var i := SeekIndex(s, k);
    if j <= i { SeekLands(s, k, j); }
    if i < j {
      SeekLands(s, k, i);
      CompareSwap(s[i], k);
      CompareSwap(s[j], k);
      if Before(s[j], k) { CompareTransitive(s[i], s[j], k); }
    }
  }
}
