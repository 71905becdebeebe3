/** Reducing view rows with a script, a batch at a time, and reducing the partial
    results again. */
module BatchedReduce {
  import opened ByteStrings
  import opened Documents

  /** A view row, or a partial result under its key. */
  datatype Row = Row(key: Json, id: Bytes, value: Json)

  /** The script: first over keys and document IDs with their values, then over
      partial results alone. */
  datatype Script = Script(first: (seq<(Json, Bytes)>, seq<Json>) -> Json, again: seq<Json> -> Json)

  const REDUCE_OVER: nat := 1000

  function PairsOf(rows: seq<Row>): (p: seq<(Json, Bytes)>)
    ensures |p| == |rows| && forall i :: 0 <= i < |p| ==> p[i] == (rows[i].key, rows[i].id)
  {
    seq(|rows|, i requires 0 <= i < |rows| => (rows[i].key, rows[i].id))
  }

  function ValuesOf(rows: seq<Row>): (v: seq<Json>)
    ensures |v| == |rows| && forall i :: 0 <= i < |v| ==> v[i] == rows[i].value
  {
    seq(|rows|, i requires 0 <= i < |rows| => rows[i].value)
  }

  /******* Batches *******/

  /** The batches closed so far and the one being filled. */
  datatype Groups = Groups(closed: seq<seq<Row>>, open: seq<Row>)

  /** A batch is closed when it is full or the key changes. */
  function Fed(g: Groups, row: Row, size: nat): Groups
    requires size > 0
  {
    if g.open != [] && (|g.open| == size || g.open[|g.open| - 1].key != row.key)
    then Groups(g.closed + [g.open], [row])
    else Groups(g.closed, g.open + [row])
  }

  function Grouped(rows: seq<Row>, size: nat): Groups
    requires size > 0
  {
    if rows == [] then Groups([], [])
    else Fed(Grouped(rows[..|rows| - 1], size), rows[|rows| - 1], size)
  }

  function Batches(rows: seq<Row>, size: nat): seq<seq<Row>>
    requires size > 0
  {
    var g := Grouped(rows, size);
    g.closed + (if g.open == [] then [] else [g.open])
  }

  function First(script: Script, batch: seq<Row>): Row
    requires batch != []
  {
    Row(batch[0].key, [], script.first(PairsOf(batch), ValuesOf(batch)))
  }

  function Again(script: Script, batch: seq<Row>): Row
    requires batch != []
  {
    Row(batch[0].key, [], script.again(ValuesOf(batch)))
  }

  ghost predicate Filled(batches: seq<seq<Row>>) {
    forall i :: 0 <= i < |batches| ==> batches[i] != []
  }

  function Partials(script: Script, batches: seq<seq<Row>>, again: bool): (p: seq<Row>)
    requires Filled(batches)
    ensures |p| == |batches|
    ensures forall i :: 0 <= i < |p| ==> p[i] == if again then Again(script, batches[i]) else First(script, batches[i])
  {
    seq(|batches|, i requires 0 <= i < |batches| => if again then Again(script, batches[i]) else First(script, batches[i]))
  }

  lemma {:induction false} GroupedFilled(rows: seq<Row>, size: nat)
    requires size > 0
    ensures Filled(Grouped(rows, size).closed) && Filled(Batches(rows, size))
    ensures rows != [] ==>
              && Grouped(rows, size).open != []
              && Grouped(rows, size).open[|Grouped(rows, size).open| - 1] == rows[|rows| - 1]
  {
    if rows != [] { GroupedFilled(rows[..|rows| - 1], size); }
  }

  /******* The result *******/

  predicate HasKey(rows: seq<Row>, key: Json) {
    exists i :: 0 <= i < |rows| && rows[i].key == key
  }

  /** Some key has more than one partial result. */
  predicate Repeats(rows: seq<Row>) {
    exists i, j :: 0 <= i < j < |rows| && rows[i].key == rows[j].key
  }

  function Replaced(rows: seq<Row>, row: Row): (r: seq<Row>)
    ensures |r| == |rows|
    ensures forall i :: 0 <= i < |r| ==>
              r[i] == if rows[i].key == row.key then Row(row.key, [], row.value) else rows[i]
  {
    seq(|rows|, i requires 0 <= i < |rows| => if rows[i].key == row.key then Row(row.key, [], row.value) else rows[i])
  }

  /** One row a key, in order of first appearance, with the last value. */
  function Deduplicated(rows: seq<Row>): seq<Row> {
    if rows == [] then []
    else
      var n := |rows| - 1;
      var d := Deduplicated(rows[..n]);
      if HasKey(d, rows[n].key) then Replaced(d, rows[n]) else d + [Row(rows[n].key, [], rows[n].value)]
  }

  function ReduceAll(script: Script, rows: seq<Row>, size: nat): seq<Row>
    requires size > 0
  {
    GroupedFilled(rows, size);
    var once := Partials(script, Batches(rows, size), false);
    GroupedFilled(once, size);
    if Repeats(once) then Deduplicated(once + Partials(script, Batches(once, size), true)) else Deduplicated(once)
  }

  /******* The reducer *******/

  function Zip(keys: seq<Json>, ids: seq<Bytes>): (p: seq<(Json, Bytes)>)
    requires |keys| == |ids|
    ensures |p| == |keys| && forall i :: 0 <= i < |p| ==> p[i] == (keys[i], ids[i])
  {
    seq(|keys|, i requires 0 <= i < |keys| => (keys[i], ids[i]))
  }

  class Reducer {
    const script: Script
    const size: nat
    var keys: seq<Json>
    var docIDs: seq<Bytes>
    var values: seq<Json>
    var reduced: seq<Row>
    ghost var fed: seq<Row>

    constructor (script: Script)
      ensures Valid() && fed == [] && this.script == script && size == REDUCE_OVER
    {
      this.script, size := script, REDUCE_OVER;
      keys, docIDs, values, reduced, fed := [], [], [], [], [];
    }

    /** The first pass has got as far as the rows fed. */
    ghost predicate Valid()
      reads this
    {
      size > 0 && At(Grouped(fed, size), [], false)
    }

    /** The closed batches are reduced, after what was there before; the buffers hold
        the open one. */
    ghost predicate At(g: Groups, base: seq<Row>, again: bool)
      reads this
    {
      && Filled(g.closed) && reduced == base + Partials(script, g.closed, again)
      && |g.open| <= size && Buffered(g.open, again)
    }

    ghost predicate Buffered(open: seq<Row>, again: bool)
      reads this
    {
      && |keys| == |values| == |open|
      && (forall i :: 0 <= i < |open| ==> keys[i] == open[i].key && values[i] == open[i].value)
      && (!again ==> |docIDs| == |open| && forall i :: 0 <= i < |open| ==> docIDs[i] == open[i].id)
    }

    method Reduce(doc: Row)
      requires Valid()
      modifies this
      ensures Valid() && fed == old(fed) + [doc]
    {
      assert (fed + [doc])[..|fed|] == fed;
      ReduceDoc(doc, false, Grouped(fed, size), []);
      fed := fed + [doc];
    }

    method ReduceDoc(doc: Row, again: bool, ghost g: Groups, ghost base: seq<Row>)
      requires size > 0 && At(g, base, again)
      modifies this`keys, this`docIDs, this`values, this`reduced
      ensures At(Fed(g, doc, size), base, again)
    {
      if |keys| > 0 { FullOrNot(|keys|, size); }
      var tooMany := |keys| > 0 && |keys| % size == 0;
      var keyChange := |keys| > 0 && keys[|keys| - 1] != doc.key;
      ghost var open := g;
      if tooMany || keyChange {
        Close(again, g, base);
        open := Groups(g.closed + [g.open], []);
      }
      keys := keys + [doc.key];
      if !again { docIDs := docIDs + [doc.id]; }
      values := values + [doc.value];
      assert At(Groups(open.closed, open.open + [doc]), base, again);
    }

    /** Reduces what is buffered and starts afresh. */
    method Close(again: bool, ghost g: Groups, ghost base: seq<Row>)
      requires g.open != [] && At(g, base, again)
      modifies this`keys, this`docIDs, this`values, this`reduced
      ensures At(Groups(g.closed + [g.open], []), base, again)
    {
      ghost var open := g.open;
      var value := Apply(again, open);
      PartialsSnoc(script, g.closed, open, again, base);
      reduced := reduced + [Row(keys[0], [], value)];
      keys, docIDs, values := [], [], [];
    }

    method Apply(again: bool, ghost open: seq<Row>) returns (value: Json)
      requires open != [] && Buffered(open, again)
      ensures value == if again then script.again(ValuesOf(open)) else script.first(PairsOf(open), ValuesOf(open))
    {
      assert values == ValuesOf(open);
      if again {
        value := script.again(values);
      } else {
        assert Zip(keys, docIDs) == PairsOf(open);
        value := script.first(Zip(keys, docIDs), values);
      }
    }

    /** Ends the first pass, reduces the partial results again if a key has several,
        and keeps the last value of each key. */
    method Result() returns (result: seq<Row>)
      requires Valid()
      modifies this`keys, this`docIDs, this`values, this`reduced
      ensures result == ReduceAll(script, fed, size)
    {
      ghost var g := Grouped(fed, size);
      if |keys| != 0 { Close(false, g, []); }
      ghost var once := Partials(script, Batches(fed, size), false);
      NothingBefore(once);
      assert reduced == once;
      var repeats := FindRepeats(reduced);
      if repeats { Rereduce(); }
      result := Deduplicate(reduced);
    }

    method Rereduce()
      requires size > 0 && keys == [] && docIDs == [] && values == []
      modifies this`keys, this`docIDs, this`values, this`reduced
      ensures Filled(Batches(old(reduced), size))
      ensures reduced == old(reduced) + Partials(script, Batches(old(reduced), size), true)
    {
      var snapshot := reduced;
      assert snapshot + [] == snapshot;
      for j := 0 to |snapshot|
        invariant At(Grouped(snapshot[..j], size), snapshot, true)
      {
        assert snapshot[..j + 1][..j] == snapshot[..j];
        ReduceDoc(snapshot[j], true, Grouped(snapshot[..j], size), snapshot);
      }
      assert snapshot[..|snapshot|] == snapshot;
      if |keys| != 0 { Close(true, Grouped(snapshot, size), snapshot); }
    }
  }

  lemma NothingBefore(rows: seq<Row>)
    ensures [] + rows == rows
  {
  }

  lemma PartialsSnoc(script: Script, batches: seq<seq<Row>>, batch: seq<Row>, again: bool, base: seq<Row>)
    requires Filled(batches) && batch != []
    ensures Filled(batches + [batch])
    ensures base + Partials(script, batches + [batch], again)
         == base + Partials(script, batches, again) + [if again then Again(script, batch) else First(script, batch)]
  {
    assert Partials(script, batches + [batch], again)
        == Partials(script, batches, again) + [if again then Again(script, batch) else First(script, batch)];
  }

  method FindRepeats(rows: seq<Row>) returns (repeats: bool)
    ensures repeats == Repeats(rows)
  {
    var seen := {};
    for j := 0 to |rows|
      invariant forall k :: k in seen <==> exists i :: 0 <= i < j && rows[i].key == k
      invariant !Repeats(rows[..j])
    {
      if rows[j].key in seen { return true; }
      seen := seen + {rows[j].key};
    }
    assert rows[..|rows|] == rows;
    repeats := false;
  }

  method Deduplicate(rows: seq<Row>) returns (ordered: seq<Row>)
    ensures ordered == Deduplicated(rows)
  {
    ordered := [];
    for j := 0 to |rows|
      invariant ordered == Deduplicated(rows[..j])
    {
      assert rows[..j + 1][..j] == rows[..j];
      if HasKey(ordered, rows[j].key) {
        ordered := Replaced(ordered, rows[j]);
      } else {
        ordered := ordered + [Row(rows[j].key, [], rows[j].value)];
      }
    }
    assert rows[..|rows|] == rows;
  }

  /******* Runs of equal keys *******/

  ghost predicate OneKey(rows: seq<Row>) {
    forall i :: 0 <= i < |rows| ==> rows[i].key == rows[0].key
  }

  /** Each key's rows arrive together, at most `longest` of them. */
  ghost predicate Runs(runs: seq<seq<Row>>, longest: nat) {
    && (forall i {:trigger runs[i]} :: 0 <= i < |runs| ==> runs[i] != [] && OneKey(runs[i]) && |runs[i]| <= longest)
    && (forall i, j :: 0 <= i < j < |runs| ==> runs[i] != [] && runs[j] != [] && runs[i][0].key != runs[j][0].key)
  }

  ghost function Flat(runs: seq<seq<Row>>): seq<Row> {
    if runs == [] then [] else Flat(runs[..|runs| - 1]) + runs[|runs| - 1]
  }

  lemma FlatSnoc(runs: seq<seq<Row>>, run: seq<Row>)
    ensures Flat(runs + [run]) == Flat(runs) + run
  {
    assert (runs + [run])[..|runs|] == runs;
  }

  lemma RunsPrefix(runs: seq<seq<Row>>, longest: nat, n: nat)
    requires Runs(runs, longest) && n <= |runs|
    ensures Runs(runs[..n], longest)
  {
  }

  /** The last row of the runs is of the last run. */
  lemma FlatLast(runs: seq<seq<Row>>, longest: nat)
    requires Runs(runs, longest) && runs != []
    ensures Flat(runs) != [] && Flat(runs)[|Flat(runs)| - 1].key == runs[|runs| - 1][0].key
  {
    var run := runs[|runs| - 1];
    assert Flat(runs)[|Flat(runs)| - 1] == run[|run| - 1];
  }

  /** A new key starts a new batch. */
  lemma {:induction false} GroupedAppend(xs: seq<Row>, ys: seq<Row>, size: nat)
    requires size > 0 && xs != [] && ys != [] && xs[|xs| - 1].key != ys[0].key
    ensures Grouped(xs + ys, size) == Groups(Batches(xs, size) + Grouped(ys, size).closed, Grouped(ys, size).open)
  {
    var n := |ys| - 1;
    var head := ys[..n];
    assert (xs + ys)[..|xs| + n] == xs + head && (xs + ys)[|xs| + n] == ys[n];
    if n == 0 {
      assert xs + head == xs;
      GroupedFilled(xs, size);
    } else {
      GroupedAppend(xs, head, size);
      GroupedFilled(head, size);
      FedAfter(Batches(xs, size), Grouped(head, size), ys[n], size);
    }
  }

  lemma FedAfter(before: seq<seq<Row>>, g: Groups, row: Row, size: nat)
    requires size > 0
    ensures var next := Fed(g, row, size);
            Fed(Groups(before + g.closed, g.open), row, size) == Groups(before + next.closed, next.open)
  {
    AssocB(before, g.closed, g.open);
  }

  lemma AssocB(a: seq<seq<Row>>, b: seq<seq<Row>>, c: seq<Row>)
    ensures (a + b) + [c] == a + (b + [c])
  {
  }

  ghost function AllBatches(runs: seq<seq<Row>>, size: nat): seq<seq<Row>>
    requires size > 0
  {
    if runs == [] then [] else AllBatches(runs[..|runs| - 1], size) + Batches(runs[|runs| - 1], size)
  }

  /** The batches of all runs are the runs' batches. */
  lemma {:induction false} RunsBatches(runs: seq<seq<Row>>, longest: nat, size: nat)
    requires size > 0 && Runs(runs, longest)
    ensures Batches(Flat(runs), size) == AllBatches(runs, size)
  {
    if runs != [] {
      var n := |runs| - 1;
      RunsPrefix(runs, longest, n);
      RunsBatches(runs[..n], longest, size);
      if n == 0 {
        assert Flat(runs) == runs[0];
        assert AllBatches(runs, size) == Batches(runs[0], size);
      } else {
        FlatLast(runs[..n], longest);
        GroupedAppend(Flat(runs[..n]), runs[n], size);
        GroupedFilled(runs[n], size);
        AssocB(Batches(Flat(runs[..n]), size), Grouped(runs[n], size).closed, Grouped(runs[n], size).open);
      }
    }
  }

  lemma FedFlat(g: Groups, row: Row, size: nat)
    requires size > 0
    ensures Flat(Fed(g, row, size).closed) + Fed(g, row, size).open == Flat(g.closed) + g.open + [row]
  {
    FlatSnoc(g.closed, g.open);
    AssocR(Flat(g.closed), g.open, [row]);
  }

  /** Batching loses and reorders nothing. */
  lemma {:induction false} GroupedFlat(rows: seq<Row>, size: nat)
    requires size > 0
    ensures Flat(Grouped(rows, size).closed) + Grouped(rows, size).open == rows
  {
    if rows != [] {
      var head, last := rows[..|rows| - 1], rows[|rows| - 1];
      GroupedFlat(head, size);
      GroupedNext(rows, head, last, size);
      HeadAndLast(rows);
      FedFlat(Grouped(head, size), last, size);
    }
  }

  lemma AssocR(a: seq<Row>, b: seq<Row>, c: seq<Row>)
    ensures (a + b) + c == a + (b + c)
  {
  }

  lemma BatchesFlat(rows: seq<Row>, size: nat)
    requires size > 0
    ensures Flat(Batches(rows, size)) == rows
  {
    var g := Grouped(rows, size);
    GroupedFlat(rows, size);
    if g.open == [] {
      assert Flat(g.closed) + [] == Flat(g.closed);
      assert Batches(rows, size) == g.closed;
    } else {
      FlatSnoc(g.closed, g.open);
    }
  }

  /** No batch is empty, too long or of two keys, and one ends early only at a new key. */
  ghost predicate WellBatched(batches: seq<seq<Row>>, size: nat) {
    && (forall i :: 0 <= i < |batches| ==> batches[i] != [] && |batches[i]| <= size && OneKey(batches[i]))
    && forall i :: 0 < i < |batches| ==> |batches[i - 1]| == size || batches[i - 1][0].key != batches[i][0].key
  }

  lemma {:induction false} GroupedWell(rows: seq<Row>, size: nat)
    requires size > 0 && rows != []
    ensures WellBatched(Grouped(rows, size).closed + [Grouped(rows, size).open], size)
  {
    var head, last := rows[..|rows| - 1], rows[|rows| - 1];
    if head != [] {
      GroupedWell(head, size);
      GroupedFilled(head, size);
      FedWell(Grouped(head, size), last, size);
    }
  }

  lemma FedWell(g: Groups, row: Row, size: nat)
    requires size > 0 && g.open != [] && WellBatched(g.closed + [g.open], size)
    ensures WellBatched(Fed(g, row, size).closed + [Fed(g, row, size).open], size)
  {
    var n, all := |g.closed|, g.closed + [g.open];
    assert all[n] == g.open;
    var next := Fed(g, row, size);
    if next.closed == g.closed {
      assert next.closed + [next.open] == all[n := g.open + [row]];
    } else {
      assert next.closed + [next.open] == all + [[row]];
    }
  }

  /** The batches are the rows in order, each as long as the batch size and the key allow. */
  lemma BatchesAre(rows: seq<Row>, size: nat)
    requires size > 0
    ensures Flat(Batches(rows, size)) == rows && WellBatched(Batches(rows, size), size)
  {
    BatchesFlat(rows, size);
    if rows != [] {
      GroupedWell(rows, size);
      GroupedFilled(rows, size);
    }
  }

  /** Repeated addition, so that no proof needs more than sums. */
  function Product(a: nat, b: nat): nat {
    if a == 0 then 0 else Product(a - 1, b) + b
  }

  lemma {:induction false} ProductGrows(a: nat, b: nat, size: nat)
    ensures a <= b ==> Product(a, size) <= Product(b, size)
    ensures a < b ==> Product(a, size) + size <= Product(b, size)
    decreases b
  {
    if a < b { ProductGrows(a, b - 1, size); }
  }

  lemma {:induction false} ProductIs(a: nat, b: nat)
    ensures Product(a, b) == a * b
  {
    if a > 0 { ProductIs(a - 1, b); }
  }

  /** On the lengths a batch can have, a remainder of zero means a full batch. */
  lemma FullOrNot(n: nat, size: nat)
    requires 0 < n <= size
    ensures n % size == 0 <==> n == size
  {
  }

  /** All of the run's rows but the last few are in full batches. */
  lemma {:induction false} RunFull(run: seq<Row>, size: nat)
    requires size > 0 && OneKey(run)
    ensures var g := Grouped(run, size);
            Product(|g.closed|, size) + |g.open| == |run| && |g.open| <= size && (run != [] ==> g.open != [])
            && forall i :: 0 <= i < |g.open| ==> g.open[i].key == run[0].key
  {
    if run != [] { RunFull(run[..|run| - 1], size); }
  }

  lemma {:induction false} ClosedKeys(run: seq<Row>, size: nat)
    requires size > 0 && OneKey(run)
    ensures var g := Grouped(run, size);
            forall i :: 0 <= i < |g.closed| ==> g.closed[i] != [] && g.closed[i][0].key == run[0].key
  {
    if run != [] {
      ClosedKeys(run[..|run| - 1], size);
      RunFull(run[..|run| - 1], size);
    }
  }

  lemma RunCount(run: seq<Row>, size: nat)
    requires size > 0 && OneKey(run) && run != [] && |run| <= Product(size, size)
    ensures 1 <= |Batches(run, size)| <= size
    ensures forall i :: 0 <= i < |Batches(run, size)| ==>
              Batches(run, size)[i] != [] && Batches(run, size)[i][0].key == run[0].key
  {
    RunFull(run, size);
    ClosedKeys(run, size);
    ProductGrows(size, |Grouped(run, size).closed|, size);
  }

  lemma FedSame(g: Groups, row: Row, size: nat)
    requires size > 0 && |g.open| < size && (g.open != [] ==> g.open[|g.open| - 1].key == row.key)
    ensures Fed(g, row, size) == Groups(g.closed, g.open + [row])
  {
  }

  lemma {:induction false} ShortRun(run: seq<Row>, size: nat)
    requires size > 0 && OneKey(run) && |run| <= size
    ensures Grouped(run, size) == Groups([], run)
    ensures run != [] ==> Batches(run, size) == [run]
  {
    if run != [] {
      var head, last := run[..|run| - 1], run[|run| - 1];
      ShortRun(head, size);
      GroupedNext(run, head, last, size);
      HeadAndLast(run);
      FedSame(Groups([], head), last, size);
    }
  }

  lemma GroupedNext(run: seq<Row>, head: seq<Row>, last: Row, size: nat)
    requires size > 0 && run != [] && head == run[..|run| - 1] && last == run[|run| - 1]
    ensures Grouped(run, size) == Fed(Grouped(head, size), last, size)
  {
  }

  lemma HeadAndLast<T>(run: seq<T>)
    requires run != []
    ensures run == run[..|run| - 1] + [run[|run| - 1]]
  {
  }

  /******* One reduce is enough *******/

  /** The script is a homomorphism for R: reducing partial results, a single one
      included, gives what reducing all their rows at once gives. */
  type Reduction = seq<Row> -> Json

  function Each(R: Reduction, parts: seq<seq<Row>>): (v: seq<Json>)
    ensures |v| == |parts| && forall i :: 0 <= i < |v| ==> v[i] == R(parts[i])
  {
    seq(|parts|, i requires 0 <= i < |parts| => R(parts[i]))
  }

  ghost predicate ReducesTo(script: Script, R: Reduction, rows: seq<Row>) {
    script.first(PairsOf(rows), ValuesOf(rows)) == R(rows)
  }

  ghost predicate RereducesTo(script: Script, R: Reduction, parts: seq<seq<Row>>) {
    script.again(Each(R, parts)) == R(Flat(parts))
  }

  ghost predicate Homomorphic(script: Script, R: Reduction) {
    && (forall rows {:trigger ReducesTo(script, R, rows)} :: rows != [] ==> ReducesTo(script, R, rows))
    && (forall parts {:trigger RereducesTo(script, R, parts)} :: parts != [] && Filled(parts) ==> RereducesTo(script, R, parts))
  }

  /** The partial results of a run. */
  ghost function PartialsOf(script: Script, run: seq<Row>, size: nat): seq<Row>
    requires size > 0
  {
    GroupedFilled(run, size);
    Partials(script, Batches(run, size), false)
  }

  lemma PartialsOfRun(script: Script, R: Reduction, run: seq<Row>, size: nat)
    requires size > 0 && Homomorphic(script, R) && OneKey(run) && run != [] && |run| <= Product(size, size)
    ensures var p := PartialsOf(script, run, size);
            && 1 <= |p| <= size && OneKey(p) && p[0].key == run[0].key
            && Again(script, p) == Row(run[0].key, [], R(run))
            && (|p| == 1 ==> p[0].value == R(run))
  {
    var batches, p := Batches(run, size), PartialsOf(script, run, size);
    GroupedFilled(run, size);
    RunCount(run, size);
    BatchesFlat(run, size);
    forall i | 0 <= i < |batches| ensures p[i].key == run[0].key && p[i].value == R(batches[i]) {
      assert ReducesTo(script, R, batches[i]);
    }
    assert ValuesOf(p) == Each(R, batches);
    assert RereducesTo(script, R, batches);
    if |p| == 1 { assert Flat(batches) == Flat(batches[..0]) + batches[0] == batches[0]; }
  }

  ghost function PartialRuns(script: Script, runs: seq<seq<Row>>, size: nat): (p: seq<seq<Row>>)
    requires size > 0
    ensures |p| == |runs| && forall i :: 0 <= i < |p| ==> p[i] == PartialsOf(script, runs[i], size)
  {
    seq(|runs|, i requires 0 <= i < |runs| => PartialsOf(script, runs[i], size))
  }

  lemma PartialsAppend(script: Script, a: seq<seq<Row>>, b: seq<seq<Row>>, again: bool)
    requires Filled(a) && Filled(b)
    ensures Filled(a + b) && Partials(script, a + b, again) == Partials(script, a, again) + Partials(script, b, again)
  {
  }

  lemma {:induction false} AllFilled(runs: seq<seq<Row>>, size: nat)
    requires size > 0
    ensures Filled(AllBatches(runs, size))
  {
    if runs != [] {
      AllFilled(runs[..|runs| - 1], size);
      GroupedFilled(runs[|runs| - 1], size);
    }
  }

  /** Reducing everything once gives the runs' partial results, run after run. */
  lemma {:induction false} OnceIsRuns(script: Script, runs: seq<seq<Row>>, size: nat)
    requires size > 0 && Filled(AllBatches(runs, size))
    ensures Partials(script, AllBatches(runs, size), false) == Flat(PartialRuns(script, runs, size))
  {
    if runs != [] {
      var n := |runs| - 1;
      AllFilled(runs[..n], size);
      GroupedFilled(runs[n], size);
      OnceIsRuns(script, runs[..n], size);
      PartialsAppend(script, AllBatches(runs[..n], size), Batches(runs[n], size), false);
      assert PartialRuns(script, runs, size)[..n] == PartialRuns(script, runs[..n], size);
    }
  }

  /** Short runs are their own batches. */
  lemma {:induction false} ShortRuns(runs: seq<seq<Row>>, size: nat)
    requires size > 0 && Runs(runs, size)
    ensures AllBatches(runs, size) == runs
  {
    if runs != [] {
      var n := |runs| - 1;
      RunsPrefix(runs, size, n);
      ShortRuns(runs[..n], size);
      assert OneKey(runs[n]) && |runs[n]| <= size;
      ShortRun(runs[n], size);
      HeadAndLast(runs);
    }
  }

  /** One row a run: its key and the last value. */
  ghost function Lasts(runs: seq<seq<Row>>): (r: seq<Row>)
    requires Filled(runs)
    ensures |r| == |runs| && forall i :: 0 <= i < |r| ==> r[i] == Row(runs[i][0].key, [], runs[i][|runs[i]| - 1].value)
  {
    seq(|runs|, i requires 0 <= i < |runs| => Row(runs[i][0].key, [], runs[i][|runs[i]| - 1].value))
  }

  lemma DeduplicatedSnoc(rows: seq<Row>, row: Row)
    ensures var d := Deduplicated(rows);
            Deduplicated(rows + [row])
            == if HasKey(d, row.key) then Replaced(d, row) else d + [Row(row.key, [], row.value)]
  {
    assert (rows + [row])[..|rows|] == rows;
  }

  lemma {:induction false} DeduplicatedRun(rows: seq<Row>, run: seq<Row>)
    requires run != [] && OneKey(run) && !HasKey(Deduplicated(rows), run[0].key)
    ensures Deduplicated(rows + run) == Deduplicated(rows) + [Row(run[0].key, [], run[|run| - 1].value)]
  {
    var head, last := run[..|run| - 1], run[|run| - 1];
    assert rows + run == (rows + head) + [last];
    DeduplicatedSnoc(rows + head, last);
    if head == [] {
      assert rows + head == rows;
    } else {
      DeduplicatedRun(rows, head);
      ReplaceLast(Deduplicated(rows), Row(run[0].key, [], head[|head| - 1].value), last);
    }
  }

  lemma ReplaceLast(d: seq<Row>, last: Row, row: Row)
    requires !HasKey(d, row.key) && last.key == row.key
    ensures HasKey(d + [last], row.key) && Replaced(d + [last], row) == d + [Row(row.key, [], row.value)]
  {
    assert (d + [last])[|d|].key == row.key;
  }

  lemma {:induction false} DeduplicatedRuns(runs: seq<seq<Row>>, longest: nat)
    requires Runs(runs, longest)
    ensures Deduplicated(Flat(runs)) == Lasts(runs)
  {
    if runs != [] {
      var n := |runs| - 1;
      RunsPrefix(runs, longest, n);
      DeduplicatedRuns(runs[..n], longest);
      LastsNext(runs, longest, n, runs[..n]);
      DeduplicatedRun(Flat(runs[..n]), runs[n]);
    }
  }

  lemma LastsNext(runs: seq<seq<Row>>, longest: nat, n: nat, before: seq<seq<Row>>)
    requires Runs(runs, longest) && n == |runs| - 1 && before == runs[..n] && Filled(before)
    ensures runs[n] != [] && OneKey(runs[n]) && !HasKey(Lasts(before), runs[n][0].key)
    ensures Lasts(runs) == Lasts(before) + [Row(runs[n][0].key, [], runs[n][|runs[n]| - 1].value)]
  {
  }

  ghost predicate DistinctKeys(rows: seq<Row>) {
    forall i, j :: 0 <= i < j < |rows| ==> rows[i].key != rows[j].key
  }

  /** The first j rows replaced. */
  ghost predicate Overwritten(d: seq<Row>, q: seq<Row>, j: nat, now: seq<Row>) {
    && |d| == |q| == |now| && j <= |q|
    && forall i :: 0 <= i < |q| ==> now[i] == if i < j then Row(q[i].key, [], q[i].value) else d[i]
  }

  ghost predicate SameKeys(d: seq<Row>, q: seq<Row>) {
    |d| == |q| && forall i :: 0 <= i < |q| ==> d[i].key == q[i].key
  }

  ghost function Extended(rows: seq<Row>, q: seq<Row>, j: nat): seq<Row>
    requires j <= |q|
  {
    rows + q[..j]
  }

  lemma ExtendedBy(rows: seq<Row>, q: seq<Row>, j: nat)
    ensures Extended(rows, q, 0) == rows && Extended(rows, q, |q|) == rows + q
    ensures j < |q| ==> Extended(rows, q, j + 1) == Extended(rows, q, j) + [q[j]]
  {
  }

  lemma {:induction false} OverwriteAll(rows: seq<Row>, d: seq<Row>, q: seq<Row>, j: nat)
    requires d == Deduplicated(rows) && j <= |q| && DistinctKeys(q) && SameKeys(d, q)
    ensures Overwritten(d, q, j, Deduplicated(Extended(rows, q, j)))
  {
    ExtendedBy(rows, q, if j > 0 then j - 1 else 0);
    if j > 0 {
      OverwriteAll(rows, d, q, j - 1);
      OverwriteStep(Extended(rows, q, j - 1), d, q, j - 1, Extended(rows, q, j));
    }
  }

  lemma OverwriteStep(before: seq<Row>, d: seq<Row>, q: seq<Row>, j: nat, after: seq<Row>)
    requires j < |q| && DistinctKeys(q) && SameKeys(d, q) && Overwritten(d, q, j, Deduplicated(before))
    requires after == before + [q[j]]
    ensures Overwritten(d, q, j + 1, Deduplicated(after))
  {
    DeduplicatedSnoc(before, q[j]);
    OverwriteNext(d, q, j, Deduplicated(before));
  }

  lemma OverwriteNext(d: seq<Row>, q: seq<Row>, j: nat, now: seq<Row>)
    requires j < |q| && Overwritten(d, q, j, now) && DistinctKeys(q) && SameKeys(d, q)
    ensures HasKey(now, q[j].key) && Overwritten(d, q, j + 1, Replaced(now, q[j]))
  {
    assert now[j].key == q[j].key;
  }

  /** One reduce of all of a key's rows. */
  ghost function Expected(R: Reduction, runs: seq<seq<Row>>): (r: seq<Row>)
    requires Filled(runs)
    ensures |r| == |runs| && forall i :: 0 <= i < |r| ==> r[i] == Row(runs[i][0].key, [], R(runs[i]))
  {
    seq(|runs|, i requires 0 <= i < |runs| => Row(runs[i][0].key, [], R(runs[i])))
  }

  lemma PartialRunsAreRuns(script: Script, R: Reduction, runs: seq<seq<Row>>, size: nat)
    requires size > 0 && Homomorphic(script, R) && Runs(runs, Product(size, size))
    ensures var p := PartialRuns(script, runs, size);
            Runs(p, size) && Filled(p) && Partials(script, p, true) == Expected(R, runs)
            && (forall i :: 0 <= i < |p| && |p[i]| == 1 ==> p[i][0].value == R(runs[i]))
            && (forall i :: 0 <= i < |p| ==> p[i][0].key == runs[i][0].key)
  {
    forall i | 0 <= i < |runs|
      ensures var p := PartialsOf(script, runs[i], size);
              && 1 <= |p| <= size && OneKey(p) && p[0].key == runs[i][0].key
              && Again(script, p) == Row(runs[i][0].key, [], R(runs[i]))
              && (|p| == 1 ==> p[0].value == R(runs[i]))
    {
      PartialsOfRun(script, R, runs[i], size);
    }
  }

  lemma KeysDiffer(runs: seq<seq<Row>>, rows: seq<Row>, longest: nat)
    requires Runs(runs, longest) && |rows| == |runs| && forall i :: 0 <= i < |runs| ==> rows[i].key == runs[i][0].key
    ensures DistinctKeys(rows)
  {
    forall i, j | 0 <= i < j < |rows| ensures rows[i].key != rows[j].key {
      assert runs[i][0].key != runs[j][0].key;
    }
  }

  lemma RepeatsIn(xs: seq<Row>, run: seq<Row>)
    ensures Repeats(xs) ==> Repeats(xs + run)
    ensures OneKey(run) && |run| > 1 ==> Repeats(xs + run)
  {
    if Repeats(xs) {
      var i, j :| 0 <= i < j < |xs| && xs[i].key == xs[j].key;
      assert (xs + run)[i].key == (xs + run)[j].key;
    }
    if OneKey(run) && |run| > 1 { assert (xs + run)[|xs|].key == (xs + run)[|xs| + 1].key; }
  }

  /** Without a repeated key every run has a single partial result. */
  lemma {:induction false} SingleIfNoRepeats(runs: seq<seq<Row>>)
    requires Filled(runs) && (forall i :: 0 <= i < |runs| ==> OneKey(runs[i])) && !Repeats(Flat(runs))
    ensures forall i :: 0 <= i < |runs| ==> |runs[i]| == 1
  {
    if runs != [] {
      var n := |runs| - 1;
      RepeatsIn(Flat(runs[..n]), runs[n]);
      SingleIfNoRepeats(runs[..n]);
    }
  }

  /** The repeated keys' results are replaced by the second reduction's. */
  lemma Rereduced(parts: seq<seq<Row>>, again: seq<Row>, size: nat)
    requires Runs(parts, size) && |again| == |parts|
    requires forall i :: 0 <= i < |parts| ==> again[i].key == parts[i][0].key && again[i].id == []
    ensures Deduplicated(Flat(parts) + again) == again
  {
    DeduplicatedRuns(parts, size);
    KeysDiffer(parts, again, size);
    OverwriteAll(Flat(parts), Lasts(parts), again, |again|);
    ExtendedBy(Flat(parts), again, 0);
  }

  lemma Reduced(parts: seq<seq<Row>>, once: seq<Row>, size: nat)
    requires Runs(parts, size) && |once| == |parts| && !Repeats(Flat(parts))
    requires forall i :: 0 <= i < |parts| ==> once[i].key == parts[i][0].key && once[i].id == []
    requires forall i :: 0 <= i < |parts| && |parts[i]| == 1 ==> parts[i][0].value == once[i].value
    ensures Deduplicated(Flat(parts)) == once
  {
    DeduplicatedRuns(parts, size);
    SingleIfNoRepeats(parts);
  }

  lemma PassesOverRuns(script: Script, runs: seq<seq<Row>>, parts: seq<seq<Row>>, size: nat)
    requires size > 0 && Runs(runs, Product(size, size)) && parts == PartialRuns(script, runs, size) && Runs(parts, size)
    ensures Filled(Batches(Flat(runs), size)) && Partials(script, Batches(Flat(runs), size), false) == Flat(parts)
    ensures Batches(Flat(parts), size) == parts
  {
    RunsBatches(runs, Product(size, size), size);
    AllFilled(runs, size);
    OnceIsRuns(script, runs, size);
    RunsBatches(parts, size, size);
    ShortRuns(parts, size);
  }

  /** For a script that is a homomorphism, when each key's rows arrive together and
      need no more than `size` batches, the result has for each key, in order, the
      reduction of all its rows, each counted once. */
  lemma BatchedReduceIsOne(script: Script, R: Reduction, runs: seq<seq<Row>>, size: nat)
    requires size > 0 && Homomorphic(script, R) && Runs(runs, size * size)
    ensures ReduceAll(script, Flat(runs), size) == Expected(R, runs)
  {
    var parts := PartialRuns(script, runs, size);
    ProductIs(size, size);
    PartialRunsAreRuns(script, R, runs, size);
    PassesOverRuns(script, runs, parts, size);
    if Repeats(Flat(parts)) {
      Rereduced(parts, Expected(R, runs), size);
    } else {
      Reduced(parts, Expected(R, runs), size);
    }
  }

  /******* Too many batches *******/

  function CountRows(): Reduction {
    rows => Num(|rows|)
  }

  function AddUp(values: seq<Json>): int {
    if values == [] then 0
    else AddUp(values[..|values| - 1]) + (if values[|values| - 1].Num? then values[|values| - 1].n else 0)
  }

  /** The script of a counting reduce: the number of rows, then the sum of the counts. */
  function CountScript(): Script {
    Script((pairs, values) => Num(|values|), values => Num(AddUp(values)))
  }

  lemma {:induction false} CountsAddUp(parts: seq<seq<Row>>)
    ensures AddUp(Each(CountRows(), parts)) == |Flat(parts)|
  {
    if parts != [] {
      var head := parts[..|parts| - 1];
      CountsAddUp(head);
      assert Each(CountRows(), parts)[..|parts| - 1] == Each(CountRows(), head);
    }
  }

  /** There is such a script: it counts. */
  lemma CountScriptCounts()
    ensures Homomorphic(CountScript(), CountRows())
  {
    forall parts | parts != [] && Filled(parts) ensures RereducesTo(CountScript(), CountRows(), parts) {
      CountsAddUp(parts);
    }
  }

  lemma {:induction false} FlatAppend(xs: seq<seq<Row>>, ys: seq<seq<Row>>)
    ensures Flat(xs + ys) == Flat(xs) + Flat(ys)
  {
    if ys == [] {
      assert xs + ys == xs;
    } else {
      var n := |ys| - 1;
      FlatAppend(xs, ys[..n]);
      assert xs + ys == (xs + ys[..n]) + [ys[n]];
      FlatSnoc(xs + ys[..n], ys[n]);
      AssocR(Flat(xs), Flat(ys[..n]), ys[n]);
    }
  }

  /** The last group of a single key's rows is what the result is made of. */
  lemma LastGroupWins(script: Script, run: seq<Row>, size: nat)
    requires size > 0 && OneKey(run) && run != [] && |PartialsOf(script, run, size)| > 1
    ensures var p := PartialsOf(script, run, size);
            && Grouped(p, size).open != []
            && Again(script, Grouped(p, size).open).value == ReduceAll(script, run, size)[0].value
            && |ReduceAll(script, run, size)| == 1
  {
    var p := PartialsOf(script, run, size);
    PartialsOneKey(script, run, size);
    RunFull(p, size);
    GroupedFilled(p, size);
    assert p[0].key == p[1].key;
    var again := Partials(script, Batches(p, size), true);
    ClosedKeys(p, size);
    forall i | 0 <= i < |again| ensures again[i].key == p[0].key {}
    LastOfAll(p, again);
  }

  lemma LastOfAll(p: seq<Row>, again: seq<Row>)
    requires p != [] && again != [] && OneKey(p) && forall i :: 0 <= i < |again| ==> again[i].key == p[0].key
    ensures Deduplicated(p + again) == [Row(p[0].key, [], again[|again| - 1].value)]
  {
    var all := p + again;
    assert OneKey(all);
    DeduplicatedWhole(all);
  }

  lemma DeduplicatedWhole(rows: seq<Row>)
    requires rows != [] && OneKey(rows)
    ensures Deduplicated(rows) == [Row(rows[0].key, [], rows[|rows| - 1].value)]
  {
    DeduplicatedRun([], rows);
    assert [] + rows == rows;
  }

  lemma PartialsOneKey(script: Script, run: seq<Row>, size: nat)
    requires size > 0 && OneKey(run) && run != []
    ensures OneKey(PartialsOf(script, run, size))
  {
    GroupedFilled(run, size);
    RunFull(run, size);
    ClosedKeys(run, size);
  }

  /** A counting script gives a key its number of rows exactly when the key has no
      more than `size` batches; beyond that all but the last group are lost. */
  lemma CountExact(script: Script, run: seq<Row>, size: nat)
    requires size > 0 && Homomorphic(script, CountRows()) && OneKey(run) && run != []
    ensures ReduceAll(script, run, size) == [Row(run[0].key, [], Num(|run|))] <==> |run| <= size * size
  {
    ProductIs(size, size);
    if |run| <= size * size {
      FlatSnoc([], run);
      assert [] + run == run && [] + [run] == [run];
      BatchedReduceIsOne(script, CountRows(), [run], size);
    } else {
      OverflowLoses(script, run, size);
    }
  }

  lemma ManyBatches(script: Script, run: seq<Row>, size: nat)
    requires size > 0 && OneKey(run) && |run| > Product(size, size)
    ensures |PartialsOf(script, run, size)| > size
  {
    RunFull(run, size);
    ProductGrows(|Grouped(run, size).closed|, size, size);
  }

  lemma OverflowLoses(script: Script, run: seq<Row>, size: nat)
    requires size > 0 && Homomorphic(script, CountRows()) && OneKey(run) && |run| > Product(size, size)
    ensures ReduceAll(script, run, size) != [Row(run[0].key, [], Num(|run|))]
  {
    var batches, p := Batches(run, size), PartialsOf(script, run, size);
    ManyBatches(script, run, size);
    LastGroupWins(script, run, size);
    PartialsOneKey(script, run, size);
    var i := LastGroup(p, size);
    GroupedFilled(run, size);
    TailCount(script, batches, p, i);
    BatchesFlat(run, size);
    TailShorter(batches, i);
  }

  /** Where the last group of a long run begins. */
  lemma LastGroup(p: seq<Row>, size: nat) returns (i: nat)
    requires size > 0 && OneKey(p) && |p| > size
    ensures 0 < i < |p| && Grouped(p, size).open == p[i..]
  {
    RunFull(p, size);
    GroupedFlat(p, size);
    i := |p| - |Grouped(p, size).open|;
  }

  lemma TailShorter(batches: seq<seq<Row>>, i: nat)
    requires Filled(batches) && 0 < i <= |batches|
    ensures |Flat(batches[i..])| < |Flat(batches)|
  {
    assert batches == batches[..i] + batches[i..];
    FlatAppend(batches[..i], batches[i..]);
    FilledFlat(batches[..i]);
  }

  lemma FilledFlat(batches: seq<seq<Row>>)
    requires Filled(batches) && batches != []
    ensures Flat(batches) != []
  {
    assert batches[|batches| - 1] != [];
  }

  lemma TailCount(script: Script, batches: seq<seq<Row>>, p: seq<Row>, i: nat)
    requires Homomorphic(script, CountRows()) && Filled(batches) && p == Partials(script, batches, false) && i < |p|
    ensures Again(script, p[i..]).value == Num(|Flat(batches[i..])|)
  {
    var tail := batches[i..];
    forall k | 0 <= k < |tail| ensures p[i..][k].value == CountRows()(tail[k]) {
      assert ReducesTo(script, CountRows(), batches[i + k]);
    }
    assert ValuesOf(p[i..]) == Each(CountRows(), tail);
    assert RereducesTo(script, CountRows(), tail);
  }
}
