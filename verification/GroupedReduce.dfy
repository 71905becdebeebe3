/** The built-in reducers: one total a group, the groups given by keys cut short. */
module GroupedReduce {
  import opened BatchedReduce
  import opened ByteStrings
  import opened Collation
  import opened Documents

  /** Which keys fall into one group. */
  datatype Level = Whole | UpTo(n: nat) | Exact

  function Collapse(level: Level, key: Json): Json {
    match level
    case Whole => Null
    case UpTo(n) => if key.Arr? && n < |key.items| then Arr(key.items[..n]) else key
    case Exact => key
  }

  /** A running total under its key. */
  type Total = (Json, int)

  function Find(ts: seq<Total>, key: Json): (i: int)
    ensures -1 <= i < |ts|
  {
    if ts == [] then -1
    else if ts[|ts| - 1].0 == key then |ts| - 1
    else Find(ts[..|ts| - 1], key)
  }

  lemma {:induction false} FindIs(ts: seq<Total>, key: Json)
    ensures var i := Find(ts, key);
            if i >= 0 then ts[i].0 == key else forall j :: 0 <= j < |ts| ==> ts[j].0 != key
  {
    if ts != [] && ts[|ts| - 1].0 != key { FindIs(ts[..|ts| - 1], key); }
  }

  function Added(ts: seq<Total>, key: Json, v: int): seq<Total> {
    var i := Find(ts, key);
    if i >= 0 then ts[i := (key, ts[i].1 + v)] else ts + [(key, v)]
  }

  /** One total a group, in order of first appearance. */
  function Totals(level: Level, rows: seq<Total>): seq<Total> {
    if rows == [] then []
    else
      var n := |rows| - 1;
      Added(Totals(level, rows[..n]), Collapse(level, rows[n].0), rows[n].1)
  }

  function SumOf(rows: seq<Total>): int {
    if rows == [] then 0 else SumOf(rows[..|rows| - 1]) + rows[|rows| - 1].1
  }

  /** The sum over the rows of one group. */
  function GroupSum(level: Level, rows: seq<Total>, key: Json): int {
    if rows == [] then 0
    else
      var n := |rows| - 1;
      GroupSum(level, rows[..n], key) + (if Collapse(level, rows[n].0) == key then rows[n].1 else 0)
  }

  ghost predicate HasGroup(level: Level, rows: seq<Total>, key: Json) {
    exists j :: 0 <= j < |rows| && Collapse(level, rows[j].0) == key
  }

  ghost predicate Distinct(ts: seq<Total>) {
    forall i, j :: 0 <= i < j < |ts| ==> ts[i].0 != ts[j].0
  }

  /******* Each group's total *******/

  lemma HasGroupSnoc(level: Level, rows: seq<Total>, key: Json)
    requires rows != []
    ensures HasGroup(level, rows, key) <==>
            HasGroup(level, rows[..|rows| - 1], key) || Collapse(level, rows[|rows| - 1].0) == key
  {
    var n := |rows| - 1;
    if j :| 0 <= j < n && Collapse(level, rows[..n][j].0) == key { assert rows[j] == rows[..n][j]; }
    if j :| 0 <= j < |rows| && Collapse(level, rows[j].0) == key {
      if j < n { assert rows[..n][j] == rows[j]; }
    }
  }

  /** Every group that has a row has one total, the sum of exactly its rows, and
      there is no other total. */
  lemma {:induction false} TotalsExact(level: Level, rows: seq<Total>, key: Json)
    ensures Distinct(Totals(level, rows))
    ensures Find(Totals(level, rows), key) >= 0 <==> HasGroup(level, rows, key)
    ensures Find(Totals(level, rows), key) >= 0 ==>
              Totals(level, rows)[Find(Totals(level, rows), key)].1 == GroupSum(level, rows, key)
    ensures !HasGroup(level, rows, key) ==> GroupSum(level, rows, key) == 0
  {
    if rows != [] {
      var n := |rows| - 1;
      var last := Collapse(level, rows[n].0);
      TotalsExact(level, rows[..n], key);
      TotalsExact(level, rows[..n], last);
      HasGroupSnoc(level, rows, key);
      AddedExact(Totals(level, rows[..n]), last, rows[n].1, key);
    }
  }

  lemma AddedExact(ts: seq<Total>, k: Json, v: int, key: Json)
    requires Distinct(ts)
    ensures Distinct(Added(ts, k, v))
    ensures Find(Added(ts, k, v), key) >= 0 <==> Find(ts, key) >= 0 || k == key
    ensures var i, j := Find(ts, key), Find(Added(ts, k, v), key);
            j >= 0 ==> Added(ts, k, v)[j].1 == (if i >= 0 then ts[i].1 else 0) + (if k == key then v else 0)
  {
    var a := Added(ts, k, v);
    var i := Find(ts, k);
    FindIs(ts, k);
    FindIs(ts, key);
    FindIs(a, key);
    if i >= 0 {
      assert a[i].0 == k;
    } else {
      assert a[|ts|] == (k, v);
    }
    var j := Find(ts, key);
    if j >= 0 { assert a[j].0 == key; }
  }

  /******* Nothing is lost *******/

  lemma {:induction false} SumUpdate(ts: seq<Total>, i: nat, v: int)
    requires i < |ts|
    ensures SumOf(ts[i := (ts[i].0, ts[i].1 + v)]) == SumOf(ts) + v
  {
    var n := |ts| - 1;
    var u := ts[i := (ts[i].0, ts[i].1 + v)];
    if i < n {
      SumUpdate(ts[..n], i, v);
      assert u[..n] == ts[..n][i := (ts[i].0, ts[i].1 + v)];
    } else {
      assert u[..n] == ts[..n];
    }
  }

  lemma SumAdded(ts: seq<Total>, key: Json, v: int)
    ensures SumOf(Added(ts, key, v)) == SumOf(ts) + v
  {
    var i := Find(ts, key);
    FindIs(ts, key);
    if i >= 0 {
      SumUpdate(ts, i, v);
    } else {
      assert (ts + [(key, v)])[..|ts|] == ts;
    }
  }

  /** The group totals add up to the ungrouped sum at every level. */
  lemma {:induction false} TotalsConserve(level: Level, rows: seq<Total>)
    ensures SumOf(Totals(level, rows)) == SumOf(rows)
  {
    if rows != [] {
      var n := |rows| - 1;
      TotalsConserve(level, rows[..n]);
      SumAdded(Totals(level, rows[..n]), Collapse(level, rows[n].0), rows[n].1);
    }
  }

  /******* Levels *******/

  /** Whether `fine` tells at least as many keys apart as `coarse`. */
  predicate Refines(fine: Level, coarse: Level) {
    match coarse
    case Whole => true
    case UpTo(m) => fine == Exact || (fine.UpTo? && m <= fine.n)
    case Exact => fine == Exact
  }

  lemma CollapseTwice(fine: Level, coarse: Level, key: Json)
    requires Refines(fine, coarse)
    ensures Collapse(coarse, Collapse(fine, key)) == Collapse(coarse, key)
  {
    if coarse.UpTo? && fine.UpTo? && key.Arr? && fine.n < |key.items| {
      assert key.items[..fine.n][..coarse.n] == key.items[..coarse.n];
    }
  }

  lemma TotalsSnoc(level: Level, rows: seq<Total>, row: Total)
    ensures Totals(level, rows + [row]) == Added(Totals(level, rows), Collapse(level, row.0), row.1)
  {
    assert (rows + [row])[..|rows|] == rows;
  }

  /** Where a key is found does not change by adding. */
  lemma FindAfter(ts: seq<Total>, a: Json, v: int, b: Json)
    ensures Find(ts, b) >= 0 ==> Find(Added(ts, a, v), b) == Find(ts, b)
    ensures a != b ==> Find(Added(ts, a, v), b) == Find(ts, b)
  {
    var i := Find(ts, a);
    FindIs(ts, a);
    if i >= 0 {
      FindUpdated(ts, i, (a, ts[i].1 + v), b);
    } else {
      FindSnoc(ts, (a, v), b);
    }
  }

  lemma {:induction false} FindUpdated(ts: seq<Total>, i: nat, t: Total, b: Json)
    requires i < |ts| && ts[i].0 == t.0
    ensures Find(ts[i := t], b) == Find(ts, b)
  {
    var n := |ts| - 1;
    if i < n {
      FindUpdated(ts[..n], i, t, b);
      assert ts[i := t][..n] == ts[..n][i := t];
    } else {
      assert ts[i := t][..n] == ts[..n];
    }
  }

  lemma FindSnoc(ts: seq<Total>, t: Total, b: Json)
    ensures Find(ts + [t], b) == if t.0 == b then |ts| else Find(ts, b)
  {
    assert (ts + [t])[..|ts|] == ts;
  }

  lemma UpdateUpdate<T>(s: seq<T>, i: nat, x: T, j: nat, y: T)
    requires i < |s| && j < |s|
    ensures i == j ==> s[i := x][j := y] == s[j := y]
    ensures i != j ==> s[i := x][j := y] == s[j := y][i := x]
  {
  }

  lemma SnocUpdate<T>(s: seq<T>, x: T, j: nat, y: T)
    requires j < |s|
    ensures (s + [x])[j := y] == s[j := y] + [x]
  {
  }

  /** Adding to a group twice is adding the sum. */
  lemma AddedSame(ts: seq<Total>, k: Json, v: int, w: int)
    ensures Added(Added(ts, k, v), k, w) == Added(ts, k, v + w)
  {
    var i := Find(ts, k);
    FindAfter(ts, k, v, k);
    if i >= 0 {
      UpdateUpdate(ts, i, (k, ts[i].1 + v), i, (k, ts[i].1 + v + w));
    } else {
      FindSnoc(ts, (k, v), k);
    }
  }

  lemma AddedAt(ts: seq<Total>, k: Json, v: int, i: int)
    requires i == Find(ts, k)
    ensures Added(ts, k, v) == if i >= 0 then ts[i := (k, ts[i].1 + v)] else ts + [(k, v)]
  {
  }

  lemma ApartUpdated(ts: seq<Total>, i: nat, j: nat, a: Json, v: int, b: Json, w: int)
    requires i < |ts| && j < |ts| && i != j && Find(ts, a) == i && Find(ts, b) == j && ts[i].0 == a && ts[j].0 == b
    ensures Added(Added(ts, a, v), b, w) == ts[j := (b, ts[j].1 + w)][i := (a, ts[i].1 + v)]
  {
    var x := ts[i := (a, ts[i].1 + v)];
    FindUpdated(ts, i, (a, ts[i].1 + v), b);
    AddedAt(ts, a, v, i);
    AddedAt(x, b, w, j);
    UpdateUpdate(ts, i, (a, ts[i].1 + v), j, (b, ts[j].1 + w));
  }

  lemma ApartAppended(ts: seq<Total>, j: nat, a: Json, v: int, b: Json, w: int)
    requires j < |ts| && Find(ts, a) < 0 && Find(ts, b) == j && ts[j].0 == b && a != b
    ensures Added(Added(ts, a, v), b, w) == ts[j := (b, ts[j].1 + w)] + [(a, v)]
    ensures Added(Added(ts, b, w), a, v) == ts[j := (b, ts[j].1 + w)] + [(a, v)]
  {
    FindSnoc(ts, (a, v), b);
    AddedAt(ts, a, v, -1);
    AddedAt(ts + [(a, v)], b, w, j);
    SnocUpdate(ts, (a, v), j, (b, ts[j].1 + w));
    FindUpdated(ts, j, (b, ts[j].1 + w), a);
    AddedAt(ts, b, w, j);
    AddedAt(ts[j := (b, ts[j].1 + w)], a, v, -1);
  }

  /** An existing group can be added to before or after another. */
  lemma AddedApart(ts: seq<Total>, a: Json, v: int, b: Json, w: int)
    requires a != b && Find(ts, b) >= 0
    ensures Added(Added(ts, a, v), b, w) == Added(Added(ts, b, w), a, v)
  {
    var i, j := Find(ts, a), Find(ts, b);
    FindIs(ts, a);
    FindIs(ts, b);
    if i >= 0 {
      ApartUpdated(ts, i, j, a, v, b, w);
      ApartUpdated(ts, j, i, b, w, a, v);
      UpdateUpdate(ts, i, (a, ts[i].1 + v), j, (b, ts[j].1 + w));
    } else {
      ApartAppended(ts, j, a, v, b, w);
    }
  }

  lemma AddedSwap(ts: seq<Total>, key: Json, v: int, last: Json, x: int)
    requires key == last || Find(ts, key) >= 0
    ensures Added(Added(ts, key, v), last, x) == Added(Added(ts, last, x), key, v)
  {
    if key == last {
      AddedSame(ts, key, v, x);
      AddedSame(ts, key, x, v);
    } else {
      AddedApart(ts, last, x, key, v);
    }
  }

  lemma TotalsOf(level: Level, rows: seq<Total>, head: seq<Total>, last: Total)
    requires rows == head + [last]
    ensures Totals(level, rows) == Added(Totals(level, head), Collapse(level, last.0), last.1)
  {
    TotalsSnoc(level, head, last);
  }

  lemma HasTotal(level: Level, rows: seq<Total>, i: nat)
    requires i < |rows|
    ensures Find(Totals(level, rows), Collapse(level, rows[i].0)) >= 0
  {
    TotalsExact(level, rows, Collapse(level, rows[i].0));
  }

  lemma UpdateEarlier(level: Level, head: seq<Total>, last: Total, i: nat, t: Total, v: int)
    requires i < |head| && Totals(level, head[i := t]) == Added(Totals(level, head), Collapse(level, head[i].0), v)
    ensures Totals(level, head[i := t] + [last]) == Added(Totals(level, head + [last]), Collapse(level, head[i].0), v)
  {
    TotalsOf(level, head + [last], head, last);
    TotalsOf(level, head[i := t] + [last], head[i := t], last);
    HasTotal(level, head, i);
    AddedSwap(Totals(level, head), Collapse(level, head[i].0), v, Collapse(level, last.0), last.1);
  }

  lemma UpdateLast(level: Level, rows: seq<Total>, rows': seq<Total>, head: seq<Total>, last: Total, t: Total, v: int)
    requires rows == head + [last] && rows' == head + [t] && t == (last.0, last.1 + v)
    ensures Totals(level, rows') == Added(Totals(level, rows), Collapse(level, last.0), v)
  {
    TotalsOf(level, rows, head, last);
    TotalsOf(level, rows', head, t);
    AddedSame(Totals(level, head), Collapse(level, last.0), last.1, v);
  }

  /** Adding to one row adds to its group. */
  lemma {:induction false} TotalsUpdate(level: Level, ts: seq<Total>, i: nat, t: Total, v: int)
    requires i < |ts| && t == (ts[i].0, ts[i].1 + v)
    ensures Totals(level, ts[i := t]) == Added(Totals(level, ts), Collapse(level, ts[i].0), v)
  {
    var n := |ts| - 1;
    var head, last := ts[..n], ts[n];
    SetSplits(ts, i, t);
    if i < n {
      TotalsUpdate(level, head, i, t, v);
      UpdateEarlier(level, head, last, i, t, v);
    } else {
      UpdateLast(level, ts, ts[i := t], head, last, t, v);
    }
  }

  lemma SetSplits(ts: seq<Total>, i: nat, t: Total)
    requires i < |ts|
    ensures var n := |ts| - 1;
            && ts == ts[..n] + [ts[n]]
            && ts[i := t] == (if i < n then ts[..n][i := t] + [ts[n]] else ts[..n] + [t])
  {
  }

  /** Grouping the groups of a finer level gives the coarser level's groups. */
  lemma {:induction false} TotalsRegroup(fine: Level, coarse: Level, rows: seq<Total>)
    requires Refines(fine, coarse)
    ensures Totals(coarse, Totals(fine, rows)) == Totals(coarse, rows)
  {
    if rows != [] {
      var n := |rows| - 1;
      TotalsRegroup(fine, coarse, rows[..n]);
      CollapseTwice(fine, coarse, rows[n].0);
      RegroupAdded(coarse, Totals(fine, rows[..n]), Collapse(fine, rows[n].0), rows[n].1);
    }
  }

  lemma RegroupAdded(coarse: Level, ts: seq<Total>, key: Json, v: int)
    ensures Totals(coarse, Added(ts, key, v)) == Added(Totals(coarse, ts), Collapse(coarse, key), v)
  {
    var i := Find(ts, key);
    AddedAt(ts, key, v, i);
    FindIs(ts, key);
    if i >= 0 {
      TotalsUpdate(coarse, ts, i, (key, ts[i].1 + v), v);
    } else {
      TotalsSnoc(coarse, ts, (key, v));
    }
  }

  /******* The reducers *******/

  /** Integers add; a value that is no integer leaves the other as it is. */
  function ScalarAdd(cur: Json, add: Json): Json {
    if cur.Num? && add.Num? then Num(cur.n + add.n) else cur
  }

  function AtOrZero(items: seq<Json>, i: nat): Json {
    if i < |items| then items[i] else Num(0)
  }

  /** Arrays add item by item, the shorter padded with zeros. */
  function SumAdd(cur: Json, add: Json): Json {
    if cur.Arr? || add.Arr? then
      var c := if cur.Arr? then cur.items else [cur];
      var a := if add.Arr? then add.items else [add];
      var n := if |a| > |c| then |a| else |c|;
      Arr(seq(n, i requires 0 <= i < n => ScalarAdd(AtOrZero(c, i), AtOrZero(a, i))))
    else ScalarAdd(cur, add)
  }

  /** The index of a key, the last one looked at first; -1 if there is none. */
  method IndexOf(keys: seq<Json>, key: Json) returns (idx: int)
    requires forall i, j :: 0 <= i < j < |keys| ==> keys[i] != keys[j]
    ensures -1 <= idx < |keys|
    ensures idx >= 0 ==> keys[idx] == key
    ensures idx < 0 ==> key !in keys
  {
    var n := |keys|;
    if n > 0 && keys[n - 1] == key { return n - 1; }
    for i := 0 to n
      invariant key !in keys[..i]
    {
      if keys[i] == key { return i; }
    }
    assert keys[..n] == keys;
    idx := -1;
  }

  class Count {
    var keys: seq<Json>
    var counts: seq<int>

    constructor ()
      ensures Valid() && State() == []
    {
      keys, counts := [], [];
    }

    ghost predicate Valid()
      reads this
    {
      |keys| == |counts| && forall i, j :: 0 <= i < j < |keys| ==> keys[i] != keys[j]
    }

    ghost function State(): (ts: seq<Total>)
      reads this
      requires Valid()
      ensures |ts| == |keys| && forall i :: 0 <= i < |ts| ==> ts[i] == (keys[i], counts[i])
    {
      seq(|keys|, i requires 0 <= i < |keys| && Valid() reads this => (keys[i], counts[i]))
    }

    method Reduce(key: Json)
      requires Valid()
      modifies this
      ensures Valid() && State() == Added(old(State()), key, 1)
    {
      var idx := IndexOf(keys, key);
      ghost var before := State();
      FoundAt(before, key, idx);
      if idx >= 0 {
        counts := counts[idx := counts[idx] + 1];
      } else {
        keys, counts := keys + [key], counts + [1];
      }
    }
  }

  ghost predicate AllIntegers(values: seq<Json>) {
    forall i :: 0 <= i < |values| ==> values[i].Num?
  }

  ghost function Sums(keys: seq<Json>, values: seq<Json>): (ts: seq<Total>)
    requires |keys| == |values| && AllIntegers(values)
    ensures |ts| == |keys| && forall i :: 0 <= i < |ts| ==> ts[i] == (keys[i], values[i].n)
  {
    seq(|keys|, i requires 0 <= i < |keys| => (keys[i], values[i].n))
  }

  ghost predicate DistinctJson(keys: seq<Json>) {
    forall i, j :: 0 <= i < j < |keys| ==> keys[i] != keys[j]
  }

  lemma SumsReplaced(keys: seq<Json>, values: seq<Json>, idx: nat, v: int)
    requires |keys| == |values| && AllIntegers(values) && DistinctJson(keys) && idx < |keys|
    ensures var after := values[idx := Num(values[idx].n + v)];
            AllIntegers(after) && Sums(keys, after) == Added(Sums(keys, values), keys[idx], v)
  {
    FoundAt(Sums(keys, values), keys[idx], idx);
  }

  lemma SumsExtended(keys: seq<Json>, values: seq<Json>, key: Json, v: int)
    requires |keys| == |values| && AllIntegers(values) && DistinctJson(keys) && key !in keys
    ensures AllIntegers(values + [Num(v)]) && Sums(keys + [key], values + [Num(v)]) == Added(Sums(keys, values), key, v)
  {
    FoundAt(Sums(keys, values), key, -1);
  }

  class Sum {
    var keys: seq<Json>
    var values: seq<Json>

    constructor ()
      ensures Valid() && keys == [] && values == []
    {
      keys, values := [], [];
    }

    ghost predicate Valid()
      reads this
    {
      |keys| == |values| && DistinctJson(keys)
    }

    ghost predicate Integers()
      reads this
    {
      AllIntegers(values)
    }

    ghost function State(): (ts: seq<Total>)
      reads this
      requires Valid() && Integers()
    {
      Sums(keys, values)
    }

    method Reduce(key: Json, value: Json)
      requires Valid()
      modifies this
      ensures Valid() && keys == (if key in old(keys) then old(keys) else old(keys) + [key])
      ensures forall i :: 0 <= i < |old(keys)| ==>
                values[i] == if keys[i] == key then SumAdd(old(values)[i], value) else old(values)[i]
      ensures key !in old(keys) ==> values[|keys| - 1] == value
      ensures value.Num? && old(Integers()) ==> Integers() && State() == Added(old(State()), key, value.n)
    {
      var idx := IndexOf(keys, key);
      if idx >= 0 {
        if value.Num? && Integers() { SumsReplaced(keys, values, idx, value.n); }
        values := values[idx := SumAdd(values[idx], value)];
      } else {
        if value.Num? && Integers() { SumsExtended(keys, values, key, value.n); }
        keys, values := keys + [key], values + [value];
      }
    }
  }

  lemma FoundAt(ts: seq<Total>, key: Json, i: int)
    requires Distinct(ts) && -1 <= i < |ts|
    requires if i >= 0 then ts[i].0 == key else forall j :: 0 <= j < |ts| ==> ts[j].0 != key
    ensures Find(ts, key) == i
  {
    FindIs(ts, key);
  }

  /******* The reduce query *******/

  datatype Query = Query(range: Range, startDocID: Bytes, endDocID: Bytes, level: Level)

  /** The row is within the bounds of the query, keys compared by collation. */
  predicate Selects(q: Query, row: Row) {
    && InRange(q.range, row.key)
    && (q.startDocID != [] ==> !Before(row.id, q.startDocID))
    && (q.endDocID != [] ==> !Before(q.endDocID, row.id))
  }

  /** The selected rows, each counted once. */
  function Ones(q: Query, rows: seq<Row>): seq<Total> {
    if rows == [] then []
    else
      var n := |rows| - 1;
      Ones(q, rows[..n]) + (if Selects(q, rows[n]) then [(rows[n].key, 1)] else [])
  }

  /** The selected rows with their values. */
  function Integers(q: Query, rows: seq<Row>): seq<Total>
    requires forall i :: 0 <= i < |rows| ==> rows[i].value.Num?
  {
    if rows == [] then []
    else
      var n := |rows| - 1;
      Integers(q, rows[..n]) + (if Selects(q, rows[n]) then [(rows[n].key, rows[n].value.n)] else [])
  }

  /** The filter, the collapsing of the key and the reducer, row by row. */
  method CountDocs(rows: seq<Row>, q: Query) returns (r: Count)
    ensures fresh(r) && r.Valid() && r.State() == Totals(q.level, Ones(q, rows))
  {
    r := new Count();
    for i := 0 to |rows|
      invariant fresh(r) && r.Valid() && r.State() == Totals(q.level, Ones(q, rows[..i]))
    {
      assert rows[..i + 1][..i] == rows[..i];
      if Selects(q, rows[i]) {
        TotalsSnoc(q.level, Ones(q, rows[..i]), (rows[i].key, 1));
        r.Reduce(Collapse(q.level, rows[i].key));
      } else {
        assert Ones(q, rows[..i + 1]) == Ones(q, rows[..i]);
      }
    }
    assert rows[..|rows|] == rows;
  }

  /** The values of one group added up in row order; None if it has no row. */
  function GroupValue(q: Query, rows: seq<Row>, key: Json): Option<Json> {
    if rows == [] then None
    else
      var n := |rows| - 1;
      var before := GroupValue(q, rows[..n], key);
      if !Selects(q, rows[n]) || Collapse(q.level, rows[n].key) != key then before
      else if before.Some? then Some(SumAdd(before.value, rows[n].value))
      else Some(rows[n].value)
  }

  /** Each group with a row has one value, and there is no other. */
  ghost predicate GroupValues(q: Query, rows: seq<Row>, keys: seq<Json>, values: seq<Json>) {
    && |keys| == |values|
    && (forall key :: key in keys <==> GroupValue(q, rows, key).Some?)
    && forall i :: 0 <= i < |keys| ==> GroupValue(q, rows, keys[i]) == Some(values[i])
  }

  ghost predicate IntegerRows(rows: seq<Row>) {
    forall i :: 0 <= i < |rows| ==> rows[i].value.Num?
  }

  lemma GroupValuesNext(q: Query, rows: seq<Row>, row: Row, keys: seq<Json>, values: seq<Json>, keys': seq<Json>,
                        values': seq<Json>, key: Json)
    requires GroupValues(q, rows, keys, values) && Selects(q, row) && key == Collapse(q.level, row.key)
    requires DistinctJson(keys) && |keys'| == |values'|
    requires keys' == if key in keys then keys else keys + [key]
    requires forall i :: 0 <= i < |keys| ==> values'[i] == if keys[i] == key then SumAdd(values[i], row.value) else values[i]
    requires key !in keys ==> values'[|keys|] == row.value
    ensures GroupValues(q, rows + [row], keys', values')
  {
    assert (rows + [row])[..|rows|] == rows;
  }

  lemma UnselectedSame(q: Query, rows: seq<Row>, row: Row)
    requires !Selects(q, row)
    ensures forall key :: GroupValue(q, rows + [row], key) == GroupValue(q, rows, key)
    ensures IntegerRows(rows) && row.value.Num? ==> Integers(q, rows + [row]) == Integers(q, rows)
  {
    assert (rows + [row])[..|rows|] == rows;
  }

  lemma IntegersNext(q: Query, rows: seq<Row>, row: Row)
    requires IntegerRows(rows) && row.value.Num? && IntegerRows(rows + [row]) && Selects(q, row)
    ensures Totals(q.level, Integers(q, rows + [row]))
         == Added(Totals(q.level, Integers(q, rows)), Collapse(q.level, row.key), row.value.n)
  {
    assert (rows + [row])[..|rows|] == rows;
    TotalsSnoc(q.level, Integers(q, rows), (row.key, row.value.n));
  }

  /** What the reducer holds after some rows. */
  ghost predicate SumsUp(r: Sum, q: Query, rows: seq<Row>)
    reads r
  {
    && r.Valid() && GroupValues(q, rows, r.keys, r.values)
    && (IntegerRows(rows) ==> r.Integers() && r.State() == Totals(q.level, Integers(q, rows)))
  }

  method SumRow(r: Sum, q: Query, row: Row, ghost rows: seq<Row>)
    requires SumsUp(r, q, rows)
    modifies r
    ensures SumsUp(r, q, rows + [row])
  {
    assert IntegerRows(rows + [row]) ==> IntegerRows(rows) && row.value.Num? by {
      assert forall i :: 0 <= i < |rows| ==> rows[i] == (rows + [row])[i];
      assert (rows + [row])[|rows|] == row;
    }
    if Selects(q, row) {
      var key := Collapse(q.level, row.key);
      ghost var keys, values := r.keys, r.values;
      if IntegerRows(rows + [row]) { IntegersNext(q, rows, row); }
      r.Reduce(key, row.value);
      GroupValuesNext(q, rows, row, keys, values, r.keys, r.values, key);
    } else {
      UnselectedSame(q, rows, row);
    }
  }

  method SumDocs(rows: seq<Row>, q: Query) returns (r: Sum)
    ensures fresh(r) && r.Valid() && GroupValues(q, rows, r.keys, r.values)
    ensures IntegerRows(rows) ==> r.Integers() && r.State() == Totals(q.level, Integers(q, rows))
  {
    r := new Sum();
    for i := 0 to |rows|
      invariant fresh(r) && SumsUp(r, q, rows[..i])
    {
      assert rows[..i + 1] == rows[..i] + [rows[i]];
      SumRow(r, q, rows[i], rows[..i]);
    }
    assert rows[..|rows|] == rows;
  }

  /******* What a total counts *******/

  /** The key belongs to the group: there is one for all keys, or one for each key, or
      one for each choice of the first n items. */
  ghost predicate InGroup(level: Level, key: Json, group: Json) {
    match level
    case Whole => group == Null
    case Exact => group == key
    case UpTo(n) =>
      if key.Arr? then group.Arr? && group.items <= key.items && (|group.items| == n || (|group.items| < n && group == key))
      else group == key
  }

  lemma CollapseIsGroup(level: Level, key: Json, group: Json)
    ensures Collapse(level, key) == group <==> InGroup(level, key, group)
  {
  }

  /** Within the key range, and within the bounds on the document's ID that are set,
      both of them inclusive. */
  ghost predicate Asked(q: Query, row: Row) {
    && InRange(q.range, row.key)
    && (q.startDocID == [] || AtMost(q.startDocID, row.id)) && (q.endDocID == [] || AtMost(row.id, q.endDocID))
  }

  lemma SelectsAsked(q: Query, row: Row)
    ensures Selects(q, row) <==> Asked(q, row)
  {
    CompareSwap(row.id, q.startDocID);
    CompareSwap(q.endDocID, row.id);
  }

  /** The rows of a group that are asked for. */
  ghost function RowsOf(q: Query, rows: seq<Row>, group: Json): set<int> {
    set i | 0 <= i < |rows| && Asked(q, rows[i]) && InGroup(q.level, rows[i].key, group)
  }

  lemma RowsOfSnoc(q: Query, rows: seq<Row>, group: Json)
    requires rows != []
    ensures var n := |rows| - 1;
            var more := Asked(q, rows[n]) && InGroup(q.level, rows[n].key, group);
            && |RowsOf(q, rows, group)| == |RowsOf(q, rows[..n], group)| + (if more then 1 else 0)
            && (RowsOf(q, rows, group) != {} <==> RowsOf(q, rows[..n], group) != {} || more)
  {
    var n := |rows| - 1;
    var more := Asked(q, rows[n]) && InGroup(q.level, rows[n].key, group);
    forall i ensures i in RowsOf(q, rows, group) <==> i in RowsOf(q, rows[..n], group) || (more && i == n) {}
    OneMore(RowsOf(q, rows[..n], group), n, more, RowsOf(q, rows, group));
  }

  lemma OneMore(a: set<int>, n: int, more: bool, b: set<int>)
    requires n !in a && forall i :: i in b <==> i in a || (more && i == n)
    ensures |b| == |a| + (if more then 1 else 0) && (b != {} <==> a != {} || more)
  {
    var sum := if more then a + {n} else a;
    forall i ensures i in b <==> i in sum {}
    assert b == sum;
  }

  lemma CountedNext(level: Level, ts: seq<Total>, key: Json, group: Json)
    ensures GroupSum(level, ts + [(key, 1)], group) == GroupSum(level, ts, group) + (if InGroup(level, key, group) then 1 else 0)
    ensures HasGroup(level, ts + [(key, 1)], group) <==> HasGroup(level, ts, group) || InGroup(level, key, group)
  {
    assert (ts + [(key, 1)])[..|ts|] == ts;
    HasGroupSnoc(level, ts + [(key, 1)], group);
    CollapseIsGroup(level, key, group);
  }

  lemma {:induction false} OnesCounted(q: Query, rows: seq<Row>, group: Json)
    ensures GroupSum(q.level, Ones(q, rows), group) == |RowsOf(q, rows, group)|
    ensures HasGroup(q.level, Ones(q, rows), group) <==> RowsOf(q, rows, group) != {}
  {
    if rows != [] {
      var n := |rows| - 1;
      OnesCounted(q, rows[..n], group);
      RowsOfSnoc(q, rows, group);
      SelectsAsked(q, rows[n]);
      CountedNext(q.level, Ones(q, rows[..n]), rows[n].key, group);
      assert Ones(q, rows[..n]) + [] == Ones(q, rows[..n]);
    }
  }

  /** A grouped count gives each group that has a row asked for the number of such rows,
      and has no other group. */
  lemma CountsRows(q: Query, rows: seq<Row>, group: Json)
    ensures var ts := Totals(q.level, Ones(q, rows));
            && Distinct(ts)
            && (RowsOf(q, rows, group) != {} ==> (group, |RowsOf(q, rows, group)|) in ts)
            && (RowsOf(q, rows, group) == {} ==> forall n :: (group, n) !in ts)
  {
    var ts := Totals(q.level, Ones(q, rows));
    TotalsExact(q.level, Ones(q, rows), group);
    OnesCounted(q, rows, group);
    FindIs(ts, group);
    if RowsOf(q, rows, group) != {} {
      assert ts[Find(ts, group)] == (group, |RowsOf(q, rows, group)|);
    }
  }

  /******* What is summed *******/

  ghost function NumberAt(items: seq<Json>, i: nat): int {
    if i < |items| && items[i].Num? then items[i].n else 0
  }

  ghost predicate Numbers(items: seq<Json>) {
    forall i :: 0 <= i < |items| ==> items[i].Num?
  }

  /** Arrays of numbers add item by item, a missing item counting as zero. */
  lemma ArraysAdd(a: seq<Json>, b: seq<Json>)
    requires Numbers(a) && Numbers(b)
    ensures var r := SumAdd(Arr(a), Arr(b));
            && r.Arr? && Numbers(r.items) && |a| <= |r.items| && |b| <= |r.items| && (|r.items| == |a| || |r.items| == |b|)
            && forall i :: 0 <= i < |r.items| ==> r.items[i].n == NumberAt(a, i) + NumberAt(b, i)
  {
    var r := SumAdd(Arr(a), Arr(b));
    forall i | 0 <= i < |r.items| ensures r.items[i] == Num(NumberAt(a, i) + NumberAt(b, i)) {
      ItemAdds(a, b, i);
    }
  }

  lemma ItemAdds(a: seq<Json>, b: seq<Json>, i: nat)
    requires i < |a| || i < |b|
    ensures SumAdd(Arr(a), Arr(b)).items[i] == ScalarAdd(AtOrZero(a, i), AtOrZero(b, i))
  {
    var n := if |b| > |a| then |b| else |a|;
    assert SumAdd(Arr(a), Arr(b)) == Arr(seq(n, i requires 0 <= i < n => ScalarAdd(AtOrZero(a, i), AtOrZero(b, i))));
  }

  /** Numbers add; a number is added to the first item of an array; anything else
      changes nothing. */
  lemma OthersAdd(x: int, y: int, items: seq<Json>, other: Json)
    requires Numbers(items) && items != []
    ensures SumAdd(Num(x), Num(y)) == Num(x + y)
    ensures SumAdd(Arr(items), Num(y)) == Arr(items[0 := Num(items[0].n + y)])
    ensures SumAdd(Num(x), Arr(items)) == Arr(items[0 := Num(x + items[0].n)])
    ensures !other.Num? && !other.Arr? ==> SumAdd(Num(x), other) == Num(x) && SumAdd(other, Num(y)) == other
  {
    AsArray(Arr(items), Num(y));
    AsArray(Num(x), Arr(items));
    ArraysAdd(items, [Num(y)]);
    ArraysAdd([Num(x)], items);
    assert SumAdd(Arr(items), Arr([Num(y)])).items == items[0 := Num(items[0].n + y)];
    assert SumAdd(Arr([Num(x)]), Arr(items)).items == items[0 := Num(x + items[0].n)];
  }

  lemma AsArray(a: Json, b: Json)
    ensures a.Arr? && b.Num? ==> SumAdd(a, b) == SumAdd(a, Arr([b]))
    ensures a.Num? && b.Arr? ==> SumAdd(a, b) == SumAdd(Arr([a]), b)
  {
  }
}
