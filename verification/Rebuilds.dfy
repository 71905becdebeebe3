/** Building an index over an existing database, a batch of documents at a time. */
module Rebuilds {
  import opened Batch
  import opened ByteStrings
  import opened Databases
  import opened Documents
  import opened DocStore
  import opened Effects
  import opened Engine
  import opened IndexInvariants
  import opened Indexes
  import opened Iterators
  import opened Runs
  import opened SortedKeys
  import opened StoreInvariant
  import opened Transactions
  import opened ViewRep
  import opened Writers

  const BATCH: nat := 1000

  function BatchOptions(j: nat): Options {
    Options(None, None, j * BATCH, true, true, true, false, false)
  }

  function BatchOf(cells: seq<Cell>, j: nat): seq<Document> {
    Yield(BatchOptions(j), BATCH, cells)
  }

  /******* What a batch covers *******/

  lemma {:induction false} FilterMembers(p: Cell -> bool, xs: seq<Cell>)
    ensures forall c :: c in Filter(p, xs) <==> c in xs && p(c)
  {
    if xs != [] {
      FilterMembers(p, xs[1..]);
      assert xs == [xs[0]] + xs[1..];
    }
  }

  lemma {:induction false} FilterAscending(p: Cell -> bool, xs: seq<Cell>)
    requires AscendingCells(xs)
    ensures AscendingCells(Filter(p, xs))
  {
    if xs != [] {
      FilterAscending(p, xs[1..]);
      FilterMembers(p, xs[1..]);
      if p(xs[0]) { AscendingCons(xs[0], xs[1..], Filter(p, xs[1..])); }
    }
  }

  lemma AscendingCons(c: Cell, xs: seq<Cell>, kept: seq<Cell>)
    requires AscendingCells([c] + xs) && AscendingCells(kept) && forall k :: k in kept ==> k in xs
    ensures AscendingCells([c] + kept)
  {
    forall j | 0 <= j < |kept| ensures Before(c.key, kept[j].key) {
      assert kept[j] in xs;
      var i :| 0 <= i < |xs| && xs[i] == kept[j];
      assert ([c] + xs)[0] == c && ([c] + xs)[i + 1] == xs[i];
    }
  }

  /** The entries a scan yields when nothing bounds it: the first live one, then
      those kept. */
  ghost function Yielded(o: Options, ahead: seq<Cell>): seq<Cell> {
    var first := FirstFrom(o, ahead);
    if first == [] then [] else [first[0]] + Filter(Keeping(o), first[1..])
  }

  ghost predicate Unbounded(o: Options) {
    o.endKey.None? && o.skipDeleted
  }

  lemma {:induction false} GoodIsKept(o: Options, ahead: seq<Cell>)
    requires Unbounded(o)
    ensures Good(o, ahead) == DocsOf(Filter(Keeping(o), ahead))
  {
    if ahead != [] {
      GoodHead(o, ahead);
      GoodIsKept(o, ahead[1..]);
    }
  }

  lemma ScanYields(o: Options, limit: nat, ahead: seq<Cell>)
    requires Unbounded(o) && limit > 0
    ensures Scan(o, limit, FirstFrom(o, ahead)) == DocsOf(Take(limit, Yielded(o, ahead)))
  {
    var first := FirstFrom(o, ahead);
    if first != [] {
      ScanExact(o, limit, first);
      GoodIsKept(o, first[1..]);
      HeadDocs(first[0], Filter(Keeping(o), first[1..]), limit);
    }
  }

  lemma HeadDocs(c: Cell, rest: seq<Cell>, limit: nat)
    ensures Take(limit, [c.doc] + DocsOf(rest)) == DocsOf(Take(limit, [c] + rest))
  {
    assert DocsOf([c] + rest) == [c.doc] + DocsOf(rest);
  }

  /** First passes over nothing that would be kept. */
  lemma {:induction false} FirstSplits(o: Options, ahead: seq<Cell>)
    requires o.skipDeleted
    ensures var f := |ahead| - |FirstFrom(o, ahead)|;
            0 <= f <= |ahead| && FirstFrom(o, ahead) == ahead[f..] && Filter(Keeping(o), ahead[..f]) == []
    ensures FirstFrom(o, ahead) != [] ==> FirstKeeps(o, FirstFrom(o, ahead)[0].doc)
  {
    if ahead != [] && !FirstKeeps(o, ahead[0].doc) {
      FirstSplits(o, ahead[1..]);
      var f := |ahead| - |FirstFrom(o, ahead)|;
      assert ahead[..f][1..] == ahead[1..][..f - 1];
    }
  }

  /** Every kept entry among the next `limit` raw ones is yielded, and all of them
      are when the limit was not reached. */
  lemma YieldCovers(o: Options, limit: nat, ahead: seq<Cell>, c: Cell)
    requires Unbounded(o) && limit > 0 && NextKeeps(o, c.doc)
    requires c in (if |Yielded(o, ahead)| < limit || limit >= |ahead| then ahead else ahead[..limit])
    ensures c in Take(limit, Yielded(o, ahead))
  {
    FirstSplits(o, ahead);
    var first := FirstFrom(o, ahead);
    var f := |ahead| - |first|;
    var n := if |Yielded(o, ahead)| < limit || limit >= |ahead| then |ahead| else limit;
    FilterMembers(Keeping(o), ahead[..f]);
    PrefixGrows(ahead, n, f, c);
    SplitYield(o, ahead, f, n, c);
  }

  lemma PrefixGrows<T>(xs: seq<T>, n: nat, f: nat, c: T)
    requires n <= |xs| && f <= |xs| && c in xs[..n]
    ensures n <= f ==> c in xs[..f]
  {
    if n <= f { assert xs[..n] == xs[..f][..n]; }
  }

  lemma SplitYield(o: Options, ahead: seq<Cell>, f: nat, n: nat, c: Cell)
    requires f < n <= |ahead| && FirstFrom(o, ahead) == ahead[f..] && c in ahead[..n] && c !in ahead[..f]
    requires NextKeeps(o, c.doc)
    ensures var near := [ahead[f]] + Filter(Keeping(o), ahead[f + 1..n]);
            |near| <= n - f && c in near && near <= Yielded(o, ahead)
  {
    SplitAt(ahead, f, n);
    NearKept(o, ahead[f], ahead[f + 1..n], ahead[n..], c);
  }

  lemma SplitAt<T>(xs: seq<T>, f: nat, n: nat)
    requires f < n <= |xs|
    ensures xs[f..] == [xs[f]] + (xs[f + 1..n] + xs[n..]) && xs[..n] == xs[..f] + ([xs[f]] + xs[f + 1..n])
  {
  }

  lemma NearKept(o: Options, head: Cell, near: seq<Cell>, far: seq<Cell>, c: Cell)
    requires c in [head] + near && NextKeeps(o, c.doc)
    ensures var kept := [head] + Filter(Keeping(o), near);
            |kept| <= 1 + |near| && c in kept && kept <= [head] + Filter(Keeping(o), near + far)
  {
    FilterAppend(Keeping(o), near, far);
    FilterMembers(Keeping(o), near);
  }

  lemma FirstShorter(o: Options, ahead: seq<Cell>)
    requires o.skipDeleted
    ensures |Yielded(o, ahead)| <= |ahead|
  {
    FirstSplits(o, ahead);
  }

  ghost function BatchCells(cells: seq<Cell>, j: nat): seq<Cell> {
    Take(BATCH, Yielded(BatchOptions(j), Drop(cells, j * BATCH)))
  }

  lemma BatchIs(cells: seq<Cell>, j: nat)
    ensures BatchOf(cells, j) == DocsOf(BatchCells(cells, j))
    ensures |BatchOf(cells, j)| <= BATCH
    ensures |BatchOf(cells, j)| == BATCH ==> (j + 1) * BATCH <= |cells|
  {
    var o := BatchOptions(j);
    assert AheadOf(cells, false, 0) == cells;
    assert AfterSkip(o, BATCH, cells) == Drop(cells, j * BATCH);
    ScanYields(o, BATCH, Drop(cells, j * BATCH));
    FirstShorter(o, Drop(cells, j * BATCH));
  }

  /******* The rebuild *******/

  lemma UpdateHead(i: Index, s: Store, docs: seq<Document>)
    requires docs != []
    ensures UpdateStored(i, s, docs) == DocumentStored(i, s, docs[0]) + UpdateStored(i, s, docs[1..])
  {
    var parts := seq(|docs|, d requires 0 <= d < |docs| => DocumentStored(i, s, docs[d]));
    assert parts[1..] == seq(|docs[1..]|, d requires 0 <= d < |docs[1..]| => DocumentStored(i, s, docs[1..][d]));
  }

  /** UpdateStored writes to the index's own buckets only. */
  lemma {:induction false} UpdateWithin(i: Index, s: Store, docs: seq<Document>)
    requires forall d :: d in docs ==> d.id != []
    ensures Safe(UpdateStored(i, s, docs), BucketsOf(i))
    decreases docs
  {
    if docs != [] {
      UpdateHead(i, s, docs);
      assert docs[0] in docs;
      StoredWithin(i, s, docs[0]);
      UpdateWithin(i, s, docs[1..]);
      SafeAppend(DocumentStored(i, s, docs[0]), UpdateStored(i, s, docs[1..]), BucketsOf(i));
    }
  }

  /******* One batch *******/

  /** A document an index can take in. */
  ghost predicate Storable(i: Index, d: Document) {
    ValidId(d.id) && !IsLocal(d.id) && Admits(i, d)
  }

  ghost predicate DistinctDocs(docs: seq<Document>) {
    forall a, b :: 0 <= a < b < |docs| ==> docs[a].id != docs[b].id
  }

  ghost function Merged(docs: Winners, more: seq<Document>): Winners
    decreases more
  {
    if more == [] then docs else Merged(docs[more[0].id := more[0]], more[1..])
  }

  ghost predicate Rebuildable(i: Index) {
    i.ViewIndex? || i.MangoIndex?
  }

  /** Storing a document again, or for the first time, with no removal before it. */
  lemma StoreAgain(i: Index, docs: Winners, d: Document, m: Machine)
    requires Rebuildable(i) && IndexAgrees(i, m.store, docs) && Keyed(docs) && Storable(i, d) && !m.failed
    requires Fits(Replay(DocumentStored(i, m.store, d), m).store, BucketsOf(i))
    ensures IndexAgrees(i, Replay(DocumentStored(i, m.store, d), m).store, docs[d.id := d])
  {
    match i
    case ViewIndex(_, _) => ViewStep(m.store, docs, i, false, d, m, m);
    case MangoIndex(_, _, _) => MangoStep(m.store, docs, i, false, d, m, m);
  }

  ghost predicate Fresh(snapshot: Store, current: Store, docs: seq<Document>) {
    forall d :: d in docs ==> LookAlike(snapshot, current, d.id)
  }

  lemma StillFresh(i: Index, snapshot: Store, m: Machine, docs: seq<Document>)
    requires docs != [] && DistinctDocs(docs) && !m.failed && BucketsOf(i) <= m.store.Keys
    requires forall d :: d in docs ==> Storable(i, d)
    requires Fresh(snapshot, m.store, docs)
    ensures Fresh(snapshot, Replay(DocumentStored(i, m.store, docs[0]), m).store, docs[1..])
  {
    var ops := DocumentStored(i, m.store, docs[0]);
    assert docs[0] in docs;
    StoredWithin(i, m.store, docs[0]);
    IndexOpsAbout(i, m.store, docs[0]);
    forall d | d in docs[1..] ensures LookAlike(snapshot, Replay(ops, m).store, d.id) {
      assert d in docs;
      ReplayKeepsLook(ops, m, docs[0].id, d.id);
      LookTransitive(snapshot, m.store, Replay(ops, m).store, d.id);
    }
  }

  lemma LaterFits(ops: seq<Op>, m: Machine, names: set<BucketName>)
    requires Safe(ops, names) && Fits(Replay(ops, m).store, names)
    ensures Fits(m.store, names)
  {
    ReplayGrows(ops, m);
    forall b | b in names && b in m.store ensures m.store[b].counter < U64 {
      assert b in Replay(ops, m).store;
    }
  }

  /** The rest of a batch, part of it taken in already. */
  ghost predicate Ready(i: Index, snapshot: Store, docs: seq<Document>, known: Winners, m: Machine) {
    && Rebuildable(i) && IndexAgrees(i, m.store, known) && Keyed(known) && !m.failed
    && DistinctDocs(docs) && (forall d :: d in docs ==> Storable(i, d)) && Fresh(snapshot, m.store, docs)
    && Fits(Replay(UpdateStored(i, snapshot, docs), m).store, BucketsOf(i))
  }

  lemma ReadyNext(i: Index, snapshot: Store, docs: seq<Document>, known: Winners, m: Machine, next: Machine)
    requires docs != [] && Ready(i, snapshot, docs, known, m)
    requires next == Replay(DocumentStored(i, m.store, docs[0]), m)
    ensures Ready(i, snapshot, docs[1..], known[docs[0].id := docs[0]], next)
    ensures Replay(UpdateStored(i, snapshot, docs), m) == Replay(UpdateStored(i, snapshot, docs[1..]), next)
  {
    assert docs[0] in docs;
    BatchHead(i, snapshot, docs, m);
    StoreAgain(i, known, docs[0], m);
    StillFresh(i, snapshot, m, docs);
    TailStorable(i, docs);
    KeyedMore(i, known, docs[0]);
  }

  lemma TailStorable(i: Index, docs: seq<Document>)
    requires docs != [] && DistinctDocs(docs) && forall d :: d in docs ==> Storable(i, d)
    ensures DistinctDocs(docs[1..]) && forall d :: d in docs[1..] ==> Storable(i, d)
  {
  }

  lemma KeyedMore(i: Index, known: Winners, d: Document)
    requires Keyed(known) && Storable(i, d)
    ensures Keyed(known[d.id := d])
  {
  }

  /** The batch is planned against one snapshot, yet each document is taken in as if
      by itself. */
  lemma {:induction false} StoreBatch(i: Index, snapshot: Store, docs: seq<Document>, known: Winners, m: Machine)
    requires Ready(i, snapshot, docs, known, m)
    ensures var r := Replay(UpdateStored(i, snapshot, docs), m);
            !r.failed && Keyed(Merged(known, docs)) && IndexAgrees(i, r.store, Merged(known, docs))
    decreases docs
  {
    if docs != [] {
      var next := Replay(DocumentStored(i, m.store, docs[0]), m);
      ReadyNext(i, snapshot, docs, known, m, next);
      StoreBatch(i, snapshot, docs[1..], known[docs[0].id := docs[0]], next);
    }
  }

  lemma BatchHead(i: Index, snapshot: Store, docs: seq<Document>, m: Machine)
    requires docs != [] && !m.failed && BucketsOf(i) <= m.store.Keys
    requires (forall d :: d in docs ==> d.id != []) && LookAlike(snapshot, m.store, docs[0].id)
    requires Fits(Replay(UpdateStored(i, snapshot, docs), m).store, BucketsOf(i))
    ensures var next := Replay(DocumentStored(i, m.store, docs[0]), m);
            && !next.failed && Fits(next.store, BucketsOf(i))
            && Replay(UpdateStored(i, snapshot, docs), m) == Replay(UpdateStored(i, snapshot, docs[1..]), next)
  {
    assert docs[0] in docs;
    var ops, rest := DocumentStored(i, m.store, docs[0]), UpdateStored(i, snapshot, docs[1..]);
    UpdateHead(i, snapshot, docs);
    SameIndexOps(i, snapshot, m.store, docs[0]);
    ReplayAppend(ops, rest, m);
    StoredWithin(i, m.store, docs[0]);
    UpdateWithin(i, snapshot, docs[1..]);
    ReplaySafe(ops, m);
    LaterFits(rest, Replay(ops, m), BucketsOf(i));
  }

  /******* The documents of a batch *******/

  lemma CellsAscend(entries: map<Bytes, Value>)
    ensures AscendingCells(Cells(entries))
  {
    SortedAscending(entries.Keys);
  }

  lemma CellIn(entries: map<Bytes, Value>, c: Cell)
    ensures c in Cells(entries) <==> c.key in entries && c == CellOf(c.key, entries[c.key])
  {
    var keys, cells := Sorted(entries.Keys), Cells(entries);
    if c in cells {
      var j :| 0 <= j < |cells| && cells[j] == c;
      assert keys[j] in keys;
    }
    if c.key in entries && c == CellOf(c.key, entries[c.key]) {
      assert c.key in keys;
      var j :| 0 <= j < |keys| && keys[j] == c.key;
      assert cells[j] == c;
    }
  }

  lemma {:induction false} DropAscends(cells: seq<Cell>, n: int)
    requires AscendingCells(cells)
    ensures AscendingCells(Drop(cells, n)) && forall c :: c in Drop(cells, n) ==> c in cells
  {
  }

  lemma YieldedFrom(o: Options, ahead: seq<Cell>)
    requires o.skipDeleted && AscendingCells(ahead)
    ensures AscendingCells(Yielded(o, ahead))
    ensures forall c :: c in Yielded(o, ahead) ==> c in ahead && FirstKeeps(o, c.doc)
  {
    FirstSplits(o, ahead);
    var first := FirstFrom(o, ahead);
    if first != [] {
      var f := |ahead| - |first|;
      DropAscends(ahead, f);
      assert Drop(ahead, f) == first;
      KeptFrom(o, first, first[0], first[1..]);
    }
  }

  lemma KeptFrom(o: Options, first: seq<Cell>, c: Cell, rest: seq<Cell>)
    requires o.skipDeleted && AscendingCells(first) && first == [c] + rest && FirstKeeps(o, c.doc)
    ensures var kept := [c] + Filter(Keeping(o), rest);
            AscendingCells(kept) && forall k :: k in kept ==> k in first && FirstKeeps(o, k.doc)
  {
    assert rest == Drop(first, 1);
    DropAscends(first, 1);
    FilterMembers(Keeping(o), rest);
    FilterAscending(Keeping(o), rest);
    AscendingCons(c, rest, Filter(Keeping(o), rest));
  }

  lemma TakeAscends(limit: nat, cells: seq<Cell>)
    requires AscendingCells(cells)
    ensures AscendingCells(Take(limit, cells)) && forall c :: c in Take(limit, cells) ==> c in cells
  {
  }

  lemma BatchCellsFrom(cells: seq<Cell>, j: nat)
    requires AscendingCells(cells)
    ensures AscendingCells(BatchCells(cells, j))
    ensures forall c :: c in BatchCells(cells, j) ==> c in cells && FirstKeeps(BatchOptions(j), c.doc)
  {
    var ahead := Drop(cells, j * BATCH);
    DropAscends(cells, j * BATCH);
    YieldedFrom(BatchOptions(j), ahead);
    TakeAscends(BATCH, Yielded(BatchOptions(j), ahead));
  }

  /** A live document that is stored under its own ID and takes part in indices. */
  ghost predicate LiveIn(docs: map<Bytes, Value>, d: Document) {
    && d.id in docs && docs[d.id] == Doc(d) && ValidId(d.id) && !IsLocal(d.id) && !d.deleted
  }

  /** Every document of a batch is a live one, and no two are the same. */
  lemma BatchDocs(docs: map<Bytes, Value>, j: nat)
    requires DocsOk(docs)
    ensures var batch := BatchOf(Cells(docs), j);
            DistinctDocs(batch) && forall d :: d in batch ==> LiveIn(docs, d)
  {
    var cells := Cells(docs);
    var kept := BatchCells(cells, j);
    CellsAscend(docs);
    BatchIs(cells, j);
    BatchCellsFrom(cells, j);
    forall c | c in kept ensures LiveIn(docs, c.doc) && c.doc.id == c.key { CellIn(docs, c); }
    KeyedByIds(kept);
  }

  lemma KeyedByIds(kept: seq<Cell>)
    requires AscendingCells(kept) && forall c :: c in kept ==> c.doc.id == c.key
    ensures DistinctDocs(DocsOf(kept))
  {
    var docs := DocsOf(kept);
    forall a, b | 0 <= a < b < |docs| ensures docs[a].id != docs[b].id {
      assert kept[a] in kept && kept[b] in kept;
      CompareSwap(kept[a].key, kept[b].key);
    }
  }

  /******* All batches *******/

  /** As the iterator counts its rows: all documents, less the tombstones in the
      deleted index, less the local documents. */
  function TotalRows(s: Store): int {
    |Entries(s, Docs)| - |Entries(s, DeletedDocs)| - |set k | k in Entries(s, Docs) && IsLocal(k)|
  }

  function Covered(docs: map<Bytes, Value>, j: nat): nat {
    var n := |Cells(docs)|;
    if j * BATCH <= n then n - j * BATCH else 0
  }

  lemma UpdateKeepsDocs(i: Index, s: Store, docs: seq<Document>, b: BucketName)
    requires (forall d :: d in docs ==> d.id != []) && b !in BucketsOf(i)
    ensures Entries(Committed(UpdateStored(i, s, docs), s), b) == Entries(s, b)
  {
    UpdateWithin(i, s, docs);
    assert Untouched(UpdateStored(i, s, docs), b);
    ReplayFrame(UpdateStored(i, s, docs), Machine(s, 0, false), b);
  }

  /** The documents one pass of the loop reads. */
  function PassDocs(s: Store, j: nat): seq<Document> {
    if TotalRows(s) == 0 then [] else BatchOf(Cells(Entries(s, Docs)), j)
  }

  function Pass(i: Index, s: Store, j: nat): Store {
    Committed(UpdateStored(i, s, PassDocs(s, j)), s)
  }

  /** A pass leaves the documents alone; after a full one there is less to cover. */
  lemma PassMoves(i: Index, s: Store, j: nat, docs: map<Bytes, Value>)
    requires docs == Entries(s, Docs) && DocsOk(docs)
    ensures Entries(Pass(i, s, j), Docs) == docs
    ensures |PassDocs(s, j)| <= BATCH
    ensures |PassDocs(s, j)| == BATCH ==> Covered(docs, j + 1) < Covered(docs, j)
  {
    PassIs(s, j, docs, PassDocs(s, j));
    UpdateKeepsDocs(i, s, PassDocs(s, j), Docs);
  }

  lemma PassIs(s: Store, j: nat, docs: map<Bytes, Value>, ds: seq<Document>)
    requires docs == Entries(s, Docs) && DocsOk(docs) && ds == PassDocs(s, j)
    ensures |ds| <= BATCH && (|ds| == BATCH ==> Covered(docs, j + 1) < Covered(docs, j))
    ensures forall d :: d in ds ==> d.id != []
  {
    BatchDocs(docs, j);
    BatchIs(Cells(docs), j);
    forall d | d in ds ensures d.id != [] { assert LiveIn(docs, d); }
  }

  /** A pass whose commit fails ends the rebuild with an error. */
  predicate PassLands(i: Index, s: Store, j: nat) {
    Lands(UpdateStored(i, s, PassDocs(s, j)), s)
  }

  /** The loop from batch j on, and whether it ends without an error. */
  function RebuildFrom(i: Index, s: Store, j: nat): (Store, bool)
    requires DocsOk(Entries(s, Docs))
    decreases Covered(Entries(s, Docs), j)
  {
    PassMoves(i, s, j, Entries(s, Docs));
    if PassDocs(s, j) == [] then (s, true)
    else if !PassLands(i, s, j) then (s, false)
    else if |PassDocs(s, j)| < BATCH then (Pass(i, s, j), true)
    else RebuildFrom(i, Pass(i, s, j), j + 1)
  }

  /** It fails only where some pass has documents and its commit does not land, and then
      leaves what the passes before that one left. */
  lemma {:induction false} RebuildFails(i: Index, s: Store, j: nat) returns (t: Store, m: nat)
    requires DocsOk(Entries(s, Docs)) && !RebuildFrom(i, s, j).1
    ensures m >= j && RebuildFrom(i, s, j).0 == t && Entries(t, Docs) == Entries(s, Docs)
    ensures PassDocs(t, m) != [] && !Lands(UpdateStored(i, t, PassDocs(t, m)), t)
    decreases Covered(Entries(s, Docs), j)
  {
    PassMoves(i, s, j, Entries(s, Docs));
    if PassLands(i, s, j) {
      t, m := RebuildFails(i, Pass(i, s, j), j + 1);
    } else {
      t, m := s, j;
    }
  }

  /** The controller's loop; it ends because a full batch is at least as many raw
      entries as the next one skips. */
  method Rebuild(db: Database, i: Index) returns (ok: bool)
    requires DocsOk(Entries(db.store, Docs))
    modifies db`store
    ensures (db.store, ok) == RebuildFrom(i, old(db.store), 0)
  {
    var j := 0;
    var more := true;
    ok := true;
    ghost var goal := RebuildFrom(i, db.store, 0);
    while more
      invariant DocsOk(Entries(db.store, Docs))
      invariant goal == if more then RebuildFrom(i, db.store, j) else (db.store, ok)
      invariant more ==> ok
      decreases more, Covered(Entries(db.store, Docs), j)
    {
      PassMoves(i, db.store, j, Entries(db.store, Docs));
      var n;
      n, ok := RunPass(db, i, j);
      more := ok && n == BATCH;
      j := j + 1;
    }
  }

  method RunPass(db: Database, i: Index, j: nat) returns (n: nat, ok: bool)
    modifies db`store
    ensures n == |PassDocs(old(db.store), j)|
    ensures ok == (n == 0 || PassLands(i, old(db.store), j))
    ensures db.store == if n == 0 || !ok then old(db.store) else Pass(i, old(db.store), j)
  {
    var docs := NextBatch(db.store, j);
    n, ok := |docs|, true;
    if docs != [] {
      var t := db.Begin();
      StoreAll(t.tx, i, docs);
      assert t.tx.opLog == UpdateStored(i, t.tx.snapshot, docs);
      ok := db.Finish(t);
    }
  }

  /** One iterator pass over the documents bucket. */
  method NextBatch(s: Store, j: nat) returns (docs: seq<Document>)
    ensures docs == PassDocs(s, j)
  {
    docs := [];
    if TotalRows(s) != 0 {
      var i := new Iterator(Entries(s, Docs));
      i.o := i.o.(skip := j * BATCH, skipDesignDoc := true, skipLocalDoc := true);
      i.limit := BATCH;
      docs := i.Documents();
    }
  }

  /******* After the rebuild *******/

  predicate Indexed(d: Document) {
    !d.deleted && !IsDesign(d.id) && !IsLocal(d.id)
  }

  /** A stored document that takes part in indices, live or not. */
  ghost predicate StoredIn(docs: map<Bytes, Value>, d: Document) {
    d.id in docs && docs[d.id] == Doc(d) && ValidId(d.id) && !IsLocal(d.id)
  }

  /** The index has taken in stored documents only, and all live ones before n. */
  ghost predicate Progress(i: Index, s: Store, docs: map<Bytes, Value>, known: Winners, n: nat) {
    && Entries(s, Docs) == docs && IndexAgrees(i, s, known) && Keyed(known)
    && (forall id :: id in known ==> StoredIn(docs, known[id]))
    && Reached(Cells(docs), known, n)
  }

  ghost predicate Reached(cells: seq<Cell>, known: Winners, n: nat) {
    forall q :: 0 <= q < |cells| && q < n && Indexed(cells[q].doc) ==> cells[q].key in known
  }

  ghost predicate AllAdmitted(i: Index, docs: map<Bytes, Value>) {
    forall id :: id in docs && docs[id].Doc? ==> Admits(i, docs[id].doc)
  }

  lemma {:induction false} MergedHas(known: Winners, ds: seq<Document>, docs: map<Bytes, Value>)
    requires forall d :: d in ds ==> StoredIn(docs, d)
    requires forall id :: id in known ==> StoredIn(docs, known[id]) && known[id].id == id
    ensures var all := Merged(known, ds);
            && (forall id :: id in known ==> id in all) && (forall d :: d in ds ==> d.id in all)
            && (forall id :: id in all ==> StoredIn(docs, all[id]) && all[id].id == id)
    decreases ds
  {
    if ds != [] {
      assert ds == [ds[0]] + ds[1..];
      MergedHas(known[ds[0].id := ds[0]], ds[1..], docs);
    }
  }

  /** What a pass reads reaches on to the next batch, or to the end. */
  lemma PassReaches(cells: seq<Cell>, j: nat, q: nat)
    requires q < |cells| && Indexed(cells[q].doc) && j * BATCH <= q
    requires q < (j + 1) * BATCH || |BatchOf(cells, j)| < BATCH
    ensures cells[q].doc in BatchOf(cells, j)
  {
    BatchIs(cells, j);
    CellReached(cells, j, j * BATCH, q);
    DocAmong(BatchCells(cells, j), cells[q]);
  }

  lemma CellReached(cells: seq<Cell>, j: nat, n: nat, q: nat)
    requires n == j * BATCH && n <= q < |cells| && Indexed(cells[q].doc)
    requires q < n + BATCH || |BatchCells(cells, j)| < BATCH
    ensures cells[q] in BatchCells(cells, j)
  {
    DropAt(cells, n, q);
    InBatch(BatchOptions(j), cells[q], Drop(cells, n), q - n);
  }

  lemma InBatch(o: Options, c: Cell, ahead: seq<Cell>, n: nat)
    requires Unbounded(o) && NextKeeps(o, c.doc) && n < |ahead| && ahead[n] == c
    requires n < BATCH || |Take(BATCH, Yielded(o, ahead))| < BATCH
    ensures c in Take(BATCH, Yielded(o, ahead))
  {
    if n < BATCH && BATCH < |ahead| { assert ahead[..BATCH][n] == c; }
    YieldCovers(o, BATCH, ahead, c);
  }

  lemma DocAmong(kept: seq<Cell>, c: Cell)
    requires c in kept
    ensures c.doc in DocsOf(kept)
  {
    var k :| 0 <= k < |kept| && kept[k] == c;
    assert DocsOf(kept)[k] == c.doc;
  }

  lemma DropAt(cells: seq<Cell>, n: nat, q: nat)
    requires n <= q < |cells|
    ensures |Drop(cells, n)| == |cells| - n && Drop(cells, n)[q - n] == cells[q]
  {
  }

  lemma PassReached(docs: map<Bytes, Value>, known: Winners, j: nat, all: Winners, n: nat)
    requires DocsOk(docs) && Reached(Cells(docs), known, j * BATCH)
    requires n == (j + 1) * BATCH || |BatchOf(Cells(docs), j)| < BATCH
    requires (forall id :: id in known ==> id in all) && forall d :: d in BatchOf(Cells(docs), j) ==> d.id in all
    ensures Reached(Cells(docs), all, n)
  {
    var cells := Cells(docs);
    forall q | 0 <= q < |cells| && q < n && Indexed(cells[q].doc) ensures cells[q].key in all {
      assert cells[q] in cells;
      CellIn(docs, cells[q]);
      if j * BATCH <= q { PassReaches(cells, j, q); }
    }
  }

  lemma BatchReady(i: Index, s: Store, ds: seq<Document>, docs: map<Bytes, Value>, known: Winners)
    requires Rebuildable(i) && IndexAgrees(i, s, known) && Keyed(known) && AllAdmitted(i, docs)
    requires DistinctDocs(ds) && forall d :: d in ds ==> LiveIn(docs, d)
    requires Fits(Committed(UpdateStored(i, s, ds), s), BucketsOf(i))
    ensures Ready(i, s, ds, known, Machine(s, 0, false))
    ensures Committed(UpdateStored(i, s, ds), s) == Replay(UpdateStored(i, s, ds), Machine(s, 0, false)).store
  {
    forall d | d in ds ensures d.id != [] && Storable(i, d) && LookAlike(s, s, d.id) {
      assert LiveIn(docs, d);
      LooksLikeItself(s, d.id);
    }
    UpdateWithin(i, s, ds);
    ReplaySafe(UpdateStored(i, s, ds), Machine(s, 0, false));
  }

  lemma PassProgress(i: Index, s: Store, docs: map<Bytes, Value>, known: Winners, j: nat, n: nat)
    requires Rebuildable(i) && DocsOk(docs) && AllAdmitted(i, docs) && Progress(i, s, docs, known, j * BATCH)
    requires TotalRows(s) != 0 && Fits(Pass(i, s, j), BucketsOf(i))
    requires n == (j + 1) * BATCH || |PassDocs(s, j)| < BATCH
    ensures Progress(i, Pass(i, s, j), docs, Merged(known, PassDocs(s, j)), n)
  {
    var ds := PassDocs(s, j);
    BatchDocs(docs, j);
    PassMoves(i, s, j, docs);
    BatchReady(i, s, ds, docs, known);
    StoreBatch(i, s, ds, known, Machine(s, 0, false));
    forall d | d in ds ensures StoredIn(docs, d) { assert LiveIn(docs, d); }
    MergedHas(known, ds, docs);
    PassReached(docs, known, j, Merged(known, ds), n);
  }

  lemma PassFits(i: Index, s: Store, j: nat)
    requires DocsOk(Entries(s, Docs)) && BucketsOf(i) <= s.Keys && Fits(Pass(i, s, j), BucketsOf(i))
    ensures Fits(s, BucketsOf(i)) && BucketsOf(i) <= Pass(i, s, j).Keys
  {
    PassIs(s, j, Entries(s, Docs), PassDocs(s, j));
    UpdateFits(i, s, PassDocs(s, j));
  }

  lemma UpdateFits(i: Index, s: Store, ds: seq<Document>)
    requires BucketsOf(i) <= s.Keys && forall d :: d in ds ==> d.id != []
    ensures var t := Committed(UpdateStored(i, s, ds), s);
            BucketsOf(i) <= t.Keys && (Fits(t, BucketsOf(i)) ==> Fits(s, BucketsOf(i)))
  {
    UpdateWithin(i, s, ds);
    ReplaySafe(UpdateStored(i, s, ds), Machine(s, 0, false));
    var t := Committed(UpdateStored(i, s, ds), s);
    if Fits(t, BucketsOf(i)) { LaterFits(UpdateStored(i, s, ds), Machine(s, 0, false), BucketsOf(i)); }
  }

  lemma {:induction false} RebuildFits(i: Index, s: Store, j: nat)
    requires DocsOk(Entries(s, Docs)) && BucketsOf(i) <= s.Keys && Fits(RebuildFrom(i, s, j).0, BucketsOf(i))
    ensures Fits(s, BucketsOf(i))
    decreases Covered(Entries(s, Docs), j)
  {
    PassMoves(i, s, j, Entries(s, Docs));
    if PassDocs(s, j) != [] && PassLands(i, s, j) {
      PassKeys(i, s, j);
      if |PassDocs(s, j)| == BATCH { RebuildFits(i, Pass(i, s, j), j + 1); }
      PassFits(i, s, j);
    }
  }

  lemma PassKeys(i: Index, s: Store, j: nat)
    requires DocsOk(Entries(s, Docs)) && BucketsOf(i) <= s.Keys
    ensures BucketsOf(i) <= Pass(i, s, j).Keys
  {
    PassIs(s, j, Entries(s, Docs), PassDocs(s, j));
    UpdateFits(i, s, PassDocs(s, j));
  }

  /******* Counting rows *******/

  ghost function LiveIds(docs: map<Bytes, Value>): set<Bytes> {
    set id | id in docs && docs[id].Doc? && !docs[id].doc.deleted && !IsLocal(id)
  }

  /** The iterator's total is the number of live, non-local documents. */
  lemma TotalExact(s: Store)
    requires DocsOk(Entries(s, Docs)) && DeletedAgree(Entries(s, DeletedDocs), WinnersOf(Entries(s, Docs)))
    ensures TotalRows(s) == |LiveIds(Entries(s, Docs))|
  {
    var docs, gone := Entries(s, Docs), Entries(s, DeletedDocs);
    var live, locals := LiveIds(docs), set k | k in docs && IsLocal(k);
    forall k
      ensures k in docs.Keys <==> k in live || k in gone.Keys || k in locals
      ensures !(k in live && k in gone.Keys) && !(k in live && k in locals) && !(k in gone.Keys && k in locals)
    {
      OneOfThree(docs, gone, k);
    }
    ThreeParts(docs.Keys, live, gone.Keys, locals);
  }

  /** A document is live, a tombstone, or local. */
  lemma OneOfThree(docs: map<Bytes, Value>, gone: map<Bytes, Value>, k: Bytes)
    requires DocsOk(docs) && DeletedAgree(gone, WinnersOf(docs))
    ensures k in gone <==> k in docs && !IsLocal(k) && docs[k].doc.deleted
    ensures k in LiveIds(docs) <==> k in docs && !IsLocal(k) && !docs[k].doc.deleted
  {
  }

  lemma ThreeParts(all: set<Bytes>, a: set<Bytes>, b: set<Bytes>, c: set<Bytes>)
    requires forall k :: k in all <==> k in a || k in b || k in c
    requires forall k :: !(k in a && k in b) && !(k in a && k in c) && !(k in b && k in c)
    ensures |all| == |a| + |b| + |c|
  {
    assert all == a + b + c;
    assert a !! b && (a + b) !! c;
  }

  lemma NoneLive(s: Store, known: Winners)
    requires DocsOk(Entries(s, Docs)) && DeletedAgree(Entries(s, DeletedDocs), WinnersOf(Entries(s, Docs)))
    requires TotalRows(s) == 0
    ensures forall n :: Reached(Cells(Entries(s, Docs)), known, n)
  {
    var docs := Entries(s, Docs);
    TotalExact(s);
    forall q | 0 <= q < |Cells(docs)| ensures !Indexed(Cells(docs)[q].doc) {
      var c := Cells(docs)[q];
      assert c in Cells(docs);
      CellIn(docs, c);
      assert c.key !in LiveIds(docs);
    }
  }

  /******* The rebuilt index *******/

  /** Winners without rows are the only ones left out. */
  ghost predicate Complete(docs: map<Bytes, Value>, known: Winners) {
    && (forall id :: id in known ==> StoredIn(docs, known[id]) && known[id].id == id)
    && forall id :: id in docs && docs[id].Doc? && Indexed(docs[id].doc) ==> id in known
  }

  lemma ReachedAll(docs: map<Bytes, Value>, known: Winners)
    requires DocsOk(docs) && Reached(Cells(docs), known, |Cells(docs)|)
    requires forall id :: id in known ==> StoredIn(docs, known[id]) && known[id].id == id
    ensures Complete(docs, known)
  {
    forall id | id in docs && Indexed(docs[id].doc) ensures id in known {
      var c := CellOf(id, docs[id]);
      CellIn(docs, c);
      var q :| 0 <= q < |Cells(docs)| && Cells(docs)[q] == c;
    }
  }

  /** The winners contain the known documents and beyond them nothing with rows. */
  ghost predicate Widens(known: Winners, all: Winners) {
    && (forall id :: id in known ==> id in all && all[id] == known[id])
    && (forall id :: id in all && id !in known ==> !Indexed(all[id]))
  }

  lemma WidenOne(main: Bucket, inv: Bucket, mapFn: Document -> seq<Row>, known: Winners, d: Document, p: Placement)
    requires ViewAgrees(main, inv, mapFn, known, p) && ValidId(d.id) && d.id !in known && !Indexed(d)
    ensures ViewAgrees(main, inv, mapFn, known[d.id := d], With(p, d.id, [], main.counter + 1))
  {
    EnterEmpty(main, inv, p, d.id);
  }

  lemma {:induction false} ViewWiden(main: Bucket, inv: Bucket, mapFn: Document -> seq<Row>, known: Winners, all: Winners,
                                     p: Placement)
    requires ViewAgrees(main, inv, mapFn, known, p) && Keyed(all)
    requires Widens(known, all)
    ensures exists q :: ViewAgrees(main, inv, mapFn, all, q)
    decreases all.Keys - known.Keys
  {
    if id :| id in all && id !in known {
      var more := known[id := all[id]];
      WidenOne(main, inv, mapFn, known, all[id], p);
      assert all.Keys - more.Keys < all.Keys - known.Keys;
      ViewWiden(main, inv, mapFn, more, all, With(p, id, [], main.counter + 1));
    } else {
      assert known == all;
    }
  }

  lemma CompleteWidens(docs: map<Bytes, Value>, known: Winners)
    requires DocsOk(docs) && Complete(docs, known)
    ensures Keyed(WinnersOf(docs)) && Widens(known, WinnersOf(docs))
  {
    WinnersKeyed(docs);
    forall id | id in known ensures id in WinnersOf(docs) && WinnersOf(docs)[id] == known[id] {
      assert StoredIn(docs, known[id]);
    }
  }

  lemma MangoWiden(fields: seq<Bytes>, encode: Json -> Bytes, known: Winners, all: Winners)
    requires Widens(known, all)
    ensures MangoKeys(fields, encode, all) == MangoKeys(fields, encode, known)
  {
  }

  lemma WidenAgrees(i: Index, s: Store, known: Winners, all: Winners)
    requires Rebuildable(i) && IndexAgrees(i, s, known) && Keyed(all) && Widens(known, all)
    ensures IndexAgrees(i, s, all)
  {
    match i
    case ViewIndex(n, mapFn) =>
      var p :| ViewAgrees(s[View(n)], s[ViewInv(n)], mapFn, known, p);
      ViewWiden(s[View(n)], s[ViewInv(n)], mapFn, known, all, p);
    case MangoIndex(n, fields, encode) =>
      MangoWiden(fields, encode, known, all);
  }

  lemma Finished(i: Index, s: Store, docs: map<Bytes, Value>, known: Winners)
    requires Rebuildable(i) && DocsOk(docs) && Progress(i, s, docs, known, |Cells(docs)|)
    ensures IndexAgrees(i, s, WinnersOf(docs))
  {
    ReachedAll(docs, known);
    CompleteWidens(docs, known);
    WidenAgrees(i, s, known, WinnersOf(docs));
  }

  /** A pass that reads nothing has nothing left to read. */
  lemma NothingLeft(i: Index, s: Store, docs: map<Bytes, Value>, known: Winners, j: nat)
    requires DocsOk(docs) && Progress(i, s, docs, known, j * BATCH) && PassDocs(s, j) == []
    requires DeletedAgree(Entries(s, DeletedDocs), WinnersOf(docs))
    ensures Progress(i, s, docs, known, |Cells(docs)|)
  {
    if TotalRows(s) == 0 {
      NoneLive(s, known);
    } else {
      PassReached(docs, known, j, known, |Cells(docs)|);
    }
  }

  lemma RoundFits(i: Index, s: Store, j: nat)
    requires DocsOk(Entries(s, Docs)) && BucketsOf(i) <= s.Keys && DocsOk(Entries(Pass(i, s, j), Docs))
    requires Fits(RebuildFrom(i, Pass(i, s, j), j + 1).0, BucketsOf(i))
    ensures Fits(Pass(i, s, j), BucketsOf(i))
  {
    PassKeys(i, s, j);
    RebuildFits(i, Pass(i, s, j), j + 1);
  }

  lemma DeletedKept(i: Index, s: Store, j: nat)
    requires Rebuildable(i) && DocsOk(Entries(s, Docs))
    ensures Entries(Pass(i, s, j), DeletedDocs) == Entries(s, DeletedDocs)
  {
    PassIs(s, j, Entries(s, Docs), PassDocs(s, j));
    UpdateKeepsDocs(i, s, PassDocs(s, j), DeletedDocs);
  }

  lemma {:induction false} RebuildAgrees(i: Index, s: Store, docs: map<Bytes, Value>, known: Winners, j: nat, t: Store)
    requires Rebuildable(i) && DocsOk(docs) && AllAdmitted(i, docs) && Progress(i, s, docs, known, j * BATCH)
    requires DeletedAgree(Entries(s, DeletedDocs), WinnersOf(docs))
    requires RebuildFrom(i, s, j) == (t, true) && Fits(t, BucketsOf(i))
    ensures IndexAgrees(i, t, WinnersOf(docs))
    decreases Covered(docs, j)
  {
    PassMoves(i, s, j, docs);
    if PassDocs(s, j) == [] {
      NothingLeft(i, s, docs, known, j);
      Finished(i, s, docs, known);
    } else if |PassDocs(s, j)| < BATCH {
      ShortPass(i, s, docs, known, j);
    } else {
      FullPass(i, s, docs, known, j, Pass(i, s, j));
      RebuildAgrees(i, Pass(i, s, j), docs, Merged(known, PassDocs(s, j)), j + 1, t);
    }
  }

  lemma FullPass(i: Index, s: Store, docs: map<Bytes, Value>, known: Winners, j: nat, next: Store)
    requires Rebuildable(i) && DocsOk(docs) && AllAdmitted(i, docs) && Progress(i, s, docs, known, j * BATCH)
    requires DeletedAgree(Entries(s, DeletedDocs), WinnersOf(docs)) && next == Pass(i, s, j)
    requires PassDocs(s, j) != [] && DocsOk(Entries(next, Docs)) && Fits(RebuildFrom(i, next, j + 1).0, BucketsOf(i))
    ensures Progress(i, next, docs, Merged(known, PassDocs(s, j)), (j + 1) * BATCH)
    ensures DeletedAgree(Entries(next, DeletedDocs), WinnersOf(docs))
  {
    RoundFits(i, s, j);
    DeletedKept(i, s, j);
    PassProgress(i, s, docs, known, j, (j + 1) * BATCH);
  }

  /** A pass that is not full is the last. */
  lemma ShortPass(i: Index, s: Store, docs: map<Bytes, Value>, known: Winners, j: nat)
    requires Rebuildable(i) && DocsOk(docs) && AllAdmitted(i, docs) && Progress(i, s, docs, known, j * BATCH)
    requires 0 < |PassDocs(s, j)| < BATCH && Fits(Pass(i, s, j), BucketsOf(i))
    ensures IndexAgrees(i, Pass(i, s, j), WinnersOf(docs))
  {
    PassProgress(i, s, docs, known, j, |Cells(docs)|);
    Finished(i, Pass(i, s, j), docs, Merged(known, PassDocs(s, j)));
  }

  /** An index built over a quiet database without an error ends in the state that
      storing every document through it would have left: it holds exactly the rows of
      the live documents, however the batches overlap. It may start empty, or have taken in
      some of the documents already, as it has the design document that defines it. */
  lemma RebuildComplete(env: Env, i: Index, s: Store, known: Winners)
    requires Inv(env, s) && Rebuildable(i) && AllAdmitted(i, s[Docs].entries)
    requires exists k :: 0 <= k < |env.indices| && env.indices[k] == DeletedIndex
    requires IndexAgrees(i, s, known) && (forall id :: id in known ==>
               id in WinnersOf(s[Docs].entries) && known[id] == WinnersOf(s[Docs].entries)[id])
    requires Fits(RebuildFrom(i, s, 0).0, BucketsOf(i)) && RebuildFrom(i, s, 0).1
    ensures IndexAgrees(i, RebuildFrom(i, s, 0).0, WinnersOf(s[Docs].entries))
  {
    var docs := s[Docs].entries;
    var k :| 0 <= k < |env.indices| && env.indices[k] == DeletedIndex;
    assert IndexAgrees(env.indices[k], s, WinnersOf(docs));
    WinnersKeyed(docs);
    forall id | id in known ensures StoredIn(docs, known[id]) && known[id].id == id {}
    RebuildAgrees(i, s, docs, known, 0, RebuildFrom(i, s, 0).0);
  }
}
