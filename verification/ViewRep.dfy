/** What the two buckets of a view index mean: a sequence of rows per document,
    kept at consecutive sequence numbers, with one invalidation record a row. */
module ViewRep {
  import opened ByteStrings
  import opened Documents
  import opened Engine
  import opened Indexes
  import opened SortedKeys

  /** Each document's rows and the sequence number of its first one. */
  datatype Placement = Placement(rows: map<Bytes, seq<Row>>, first: map<Bytes, nat>)

  ghost predicate Slot(p: Placement, id: Bytes, j: int) {
    id in p.rows && id in p.first && 0 <= j < |p.rows[id]|
  }

  ghost function SeqAt(p: Placement, id: Bytes, j: int): nat
    requires Slot(p, id, j)
  {
    p.first[id] + j
  }

  ghost function RecordAt(p: Placement, id: Bytes, j: int): Bytes
    requires Slot(p, id, j)
  {
    SeqSuffixed(id, SeqAt(p, id, j))
  }

  ghost function RowAt(p: Placement, id: Bytes, j: int): Bytes
    requires Slot(p, id, j)
  {
    SeqSuffixed(p.rows[id][j].key, SeqAt(p, id, j))
  }

  ghost predicate Bounded(p: Placement, counter: nat) {
    && p.rows.Keys == p.first.Keys
    && counter < U64
    && forall id :: id in p.rows ==>
         ValidId(id) && 1 <= p.first[id] && p.first[id] + |p.rows[id]| <= counter + 1
  }

  ghost predicate Stored(main: map<Bytes, Value>, inv: map<Bytes, Value>, p: Placement) {
    forall id, j :: Slot(p, id, j) ==>
      && RecordAt(p, id, j) in inv && inv[RecordAt(p, id, j)] == Bin(RowAt(p, id, j))
      && RowAt(p, id, j) in main && main[RowAt(p, id, j)] == p.rows[id][j].value
  }

  ghost predicate RecordsKnown(inv: map<Bytes, Value>, p: Placement) {
    forall k :: k in inv ==> exists id, j :: Slot(p, id, j) && k == RecordAt(p, id, j)
  }

  ghost predicate RowsKnown(main: map<Bytes, Value>, p: Placement) {
    forall k :: k in main ==> exists id, j :: Slot(p, id, j) && k == RowAt(p, id, j)
  }

  ghost predicate Apart(p: Placement) {
    forall id, j, id', j' {:trigger SeqAt(p, id, j), SeqAt(p, id', j')} ::
      Slot(p, id, j) && Slot(p, id', j') && SeqAt(p, id, j) == SeqAt(p, id', j') ==>
      id == id' && j == j'
  }

  ghost predicate Represents(main: Bucket, inv: Bucket, p: Placement) {
    && Bounded(p, main.counter)
    && Stored(main.entries, inv.entries, p)
    && RecordsKnown(inv.entries, p) && RowsKnown(main.entries, p)
    && Apart(p)
  }

  /******* Keys *******/

  lemma SuffixInjective(k: Bytes, s: nat, k': Bytes, s': nat)
    requires s < U64 && s' < U64
    requires SeqSuffixed(k, s) == SeqSuffixed(k', s')
    ensures k == k' && s == s'
  {
    AppendInjective(k + U64Key(s), k' + U64Key(s'), U16Key(|k|), U16Key(|k'|));
    AppendInjective(k, k', U64Key(s), U64Key(s'));
    U64KeyOrder(s, s');
  }

  /** The record test admits an ID's own records and those of no other ID, not
      even of one it is a prefix of. */
  lemma RecordOfExact(id: Bytes, s: nat, other: Bytes)
    requires |id| < U16
    ensures RecordOf(SeqSuffixed(id, s), other) <==> id == other
  {
    var k := SeqSuffixed(id, s);
    assert k[|k| - 2..] == U16Key(|id|);
    U16KeyInjective(|id|, |id|);
    assert k[..|id|] == id;
  }

  /******* Removal *******/

  ghost function RowKeys(inv: map<Bytes, Value>, ks: set<Bytes>): set<Bytes>
    requires ks <= inv.Keys
  {
    set k | k in ks :: if inv[k].Bin? then inv[k].bytes else []
  }

  ghost function RecordsOf(inv: map<Bytes, Value>, id: Bytes): set<Bytes> {
    set k | k in inv && RecordOf(k, id)
  }

  ghost function Without(p: Placement, id: Bytes): Placement {
    Placement(p.rows - {id}, p.first - {id})
  }

  lemma RemoveRepresents(main: Bucket, inv: Bucket, p: Placement, id: Bytes)
    requires Represents(main, inv, p)
    ensures Represents(
              main.(entries := main.entries - RowKeys(inv.entries, RecordsOf(inv.entries, id))),
              inv.(entries := inv.entries - RecordsOf(inv.entries, id)),
              Without(p, id))
  {
    SlotsWithout(p, id);
    RemoveStored(main, inv, p, id);
    RemoveRecordsKnown(inv.entries, p, id, main.counter);
    forall j | Slot(p, id, j) ensures RowAt(p, id, j) in RowKeys(inv.entries, RecordsOf(inv.entries, id)) {
      RemovedWithRecord(main, inv, p, id, j);
    }
    RemoveRowsKnown(main.entries, p, id, RowKeys(inv.entries, RecordsOf(inv.entries, id)));
  }

  lemma RemoveStored(main: Bucket, inv: Bucket, p: Placement, id: Bytes)
    requires Represents(main, inv, p)
    ensures Stored(main.entries - RowKeys(inv.entries, RecordsOf(inv.entries, id)),
                   inv.entries - RecordsOf(inv.entries, id), Without(p, id))
  {
    var q := Without(p, id);
    var main' := main.entries - RowKeys(inv.entries, RecordsOf(inv.entries, id));
    var inv' := inv.entries - RecordsOf(inv.entries, id);
    forall o, j | Slot(q, o, j)
      ensures RecordAt(q, o, j) in inv' && inv'[RecordAt(q, o, j)] == Bin(RowAt(q, o, j))
      ensures RowAt(q, o, j) in main' && main'[RowAt(q, o, j)] == q.rows[o][j].value
    {
      assert Slot(p, o, j);
      SameAt(p, q, o, j);
      RecordOfExact(o, SeqAt(p, o, j), id);
      RowSurvives(main, inv, p, id, o, j);
    }
  }

  lemma RemoveRecordsKnown(inv: map<Bytes, Value>, p: Placement, id: Bytes, counter: nat)
    requires RecordsKnown(inv, p) && Bounded(p, counter)
    ensures RecordsKnown(inv - RecordsOf(inv, id), Without(p, id))
  {
    var q := Without(p, id);
    forall k | k in inv - RecordsOf(inv, id) ensures exists o, j :: Slot(q, o, j) && k == RecordAt(q, o, j) {
      var o, j :| Slot(p, o, j) && k == RecordAt(p, o, j);
      RecordOfExact(o, SeqAt(p, o, j), id);
      SameAt(p, q, o, j);
    }
  }

  lemma RemoveRowsKnown(main: map<Bytes, Value>, p: Placement, id: Bytes, gone: set<Bytes>)
    requires RowsKnown(main, p)
    requires forall j :: Slot(p, id, j) ==> RowAt(p, id, j) in gone
    ensures RowsKnown(main - gone, Without(p, id))
  {
    var q := Without(p, id);
    forall k | k in main - gone ensures exists o, j :: Slot(q, o, j) && k == RowAt(q, o, j) {
      var o, j :| Slot(p, o, j) && k == RowAt(p, o, j);
      SameAt(p, q, o, j);
    }
  }

  lemma RemovedWithRecord(main: Bucket, inv: Bucket, p: Placement, o: Bytes, j: int)
    requires Represents(main, inv, p) && Slot(p, o, j)
    ensures RowAt(p, o, j) in RowKeys(inv.entries, RecordsOf(inv.entries, o))
  {
    RecordOfExact(o, SeqAt(p, o, j), o);
    assert RecordAt(p, o, j) in RecordsOf(inv.entries, o);
  }

  lemma SameAt(p: Placement, q: Placement, o: Bytes, j: int)
    requires Slot(p, o, j) && Slot(q, o, j)
    requires SeqAt(p, o, j) == SeqAt(q, o, j) && p.rows[o][j] == q.rows[o][j]
    ensures RecordAt(p, o, j) == RecordAt(q, o, j) && RowAt(p, o, j) == RowAt(q, o, j)
  {
  }

  lemma SlotsWithout(p: Placement, id: Bytes)
    ensures forall o, j :: Slot(Without(p, id), o, j) <==> Slot(p, o, j) && o != id
    ensures forall o, j :: Slot(Without(p, id), o, j) ==> SeqAt(Without(p, id), o, j) == SeqAt(p, o, j)
  {
  }

  lemma RowSurvives(main: Bucket, inv: Bucket, p: Placement, id: Bytes, o: Bytes, j: int)
    requires Represents(main, inv, p) && Slot(p, o, j) && o != id
    ensures RowAt(p, o, j) !in RowKeys(inv.entries, RecordsOf(inv.entries, id))
  {
    var gone := RecordsOf(inv.entries, id);
    forall r | r in gone ensures inv.entries[r] != Bin(RowAt(p, o, j)) {
      var o', j' :| Slot(p, o', j') && r == RecordAt(p, o', j');
      RecordOfExact(o', SeqAt(p, o', j'), id);
      if RowAt(p, o', j') == RowAt(p, o, j) {
        SuffixInjective(p.rows[o'][j'].key, SeqAt(p, o', j'), p.rows[o][j].key, SeqAt(p, o, j));
      }
    }
    assert forall r :: r in gone ==> inv.entries[r].Bin?;
  }

  /******* Insertion *******/

  ghost function Inserted(main: Bucket, inv: Bucket, id: Bytes, rows: seq<Row>): (Bucket, Bucket)
    decreases rows
  {
    if rows == [] then (main, inv)
    else
      var c := main.counter + 1;
      var key := SeqSuffixed(rows[0].key, c);
      Inserted(Bucket(main.entries[key := rows[0].value], c),
               inv.(entries := inv.entries[SeqSuffixed(id, c) := Bin(key)]), id, rows[1..])
  }

  ghost function With(p: Placement, id: Bytes, rows: seq<Row>, first: nat): Placement {
    Placement(p.rows[id := rows], p.first[id := first])
  }

  /** q has the slots of p, each as it was, and perhaps one more at (id, n). */
  ghost predicate Grows(p: Placement, q: Placement, id: Bytes, n: int) {
    && (forall o, j :: Slot(q, o, j) && !(o == id && j == n) ==> Slot(p, o, j))
    && (forall o, j :: Slot(p, o, j) ==>
          Slot(q, o, j) && SeqAt(q, o, j) == SeqAt(p, o, j) && q.rows[o][j] == p.rows[o][j])
  }

  lemma GrowsStored(main: map<Bytes, Value>, inv: map<Bytes, Value>, p: Placement, q: Placement,
                    id: Bytes, n: int, counter: nat)
    requires Stored(main, inv, p) && Grows(p, q, id, n) && Slot(q, id, n)
    requires SeqAt(q, id, n) == counter + 1 < U64
    requires forall o, j :: Slot(p, o, j) ==> SeqAt(p, o, j) <= counter
    ensures Stored(main[RowAt(q, id, n) := q.rows[id][n].value],
                   inv[RecordAt(q, id, n) := Bin(RowAt(q, id, n))], q)
  {
    var main', inv' := main[RowAt(q, id, n) := q.rows[id][n].value], inv[RecordAt(q, id, n) := Bin(RowAt(q, id, n))];
    forall o, j | Slot(q, o, j)
      ensures RecordAt(q, o, j) in inv' && inv'[RecordAt(q, o, j)] == Bin(RowAt(q, o, j))
      ensures RowAt(q, o, j) in main' && main'[RowAt(q, o, j)] == q.rows[o][j].value
    {
      if !(o == id && j == n) {
        assert Slot(p, o, j);
        SameAt(p, q, o, j);
        if RecordAt(q, o, j) == RecordAt(q, id, n) { SuffixInjective(o, SeqAt(q, o, j), id, counter + 1); }
        if RowAt(q, o, j) == RowAt(q, id, n) {
          SuffixInjective(q.rows[o][j].key, SeqAt(q, o, j), q.rows[id][n].key, counter + 1);
        }
      }
    }
  }

  lemma GrowsRecordsKnown(inv: map<Bytes, Value>, p: Placement, q: Placement,
                         id: Bytes, n: int, v: Value)
    requires RecordsKnown(inv, p) && Grows(p, q, id, n)
    ensures RecordsKnown(inv, q)
    ensures Slot(q, id, n) ==> RecordsKnown(inv[RecordAt(q, id, n) := v], q)
  {
    forall k | k in inv ensures exists o, j :: Slot(q, o, j) && k == RecordAt(q, o, j) {
      var o, j :| Slot(p, o, j) && k == RecordAt(p, o, j);
      SameAt(p, q, o, j);
    }
  }

  lemma GrowsRowsKnown(main: map<Bytes, Value>, p: Placement, q: Placement,
                      id: Bytes, n: int, v: Value)
    requires RowsKnown(main, p) && Grows(p, q, id, n)
    ensures RowsKnown(main, q)
    ensures Slot(q, id, n) ==> RowsKnown(main[RowAt(q, id, n) := v], q)
  {
    forall k | k in main ensures exists o, j :: Slot(q, o, j) && k == RowAt(q, o, j) {
      var o, j :| Slot(p, o, j) && k == RowAt(p, o, j);
      SameAt(p, q, o, j);
    }
  }

  lemma GrowsApart(p: Placement, q: Placement, id: Bytes, n: int, counter: nat)
    requires Apart(p) && Grows(p, q, id, n)
    requires Slot(q, id, n) ==> SeqAt(q, id, n) == counter + 1
    requires forall o, j :: Slot(p, o, j) ==> SeqAt(p, o, j) <= counter
    ensures Apart(q)
  {
    forall o, j, o', j' | Slot(q, o, j) && Slot(q, o', j') && SeqAt(q, o, j) == SeqAt(q, o', j')
      ensures o == o' && j == j'
    {
      if !(o == id && j == n) { assert Slot(p, o, j); }
      if !(o' == id && j' == n) { assert Slot(p, o', j'); }
    }
  }

  lemma BoundedSlots(p: Placement, counter: nat)
    requires Bounded(p, counter)
    ensures forall o, j :: Slot(p, o, j) ==> SeqAt(p, o, j) <= counter
  {
  }

  lemma WithGrows(p: Placement, id: Bytes, rows: seq<Row>)
    requires id in p.rows && id in p.first && |rows| == |p.rows[id]| + 1 && p.rows[id] <= rows
    ensures var q := With(p, id, rows, p.first[id]);
            Grows(p, q, id, |p.rows[id]|) && Slot(q, id, |p.rows[id]|)
            && SeqAt(q, id, |p.rows[id]|) == p.first[id] + |p.rows[id]|
  {
  }

  lemma GrowsRepresents(main: Bucket, inv: Bucket, p: Placement, q: Placement, id: Bytes, n: nat)
    requires Represents(main, inv, p) && Grows(p, q, id, n) && Slot(q, id, n)
    requires SeqAt(q, id, n) == main.counter + 1 < U64 && Bounded(q, main.counter + 1)
    ensures Represents(Bucket(main.entries[RowAt(q, id, n) := q.rows[id][n].value], main.counter + 1),
                       inv.(entries := inv.entries[RecordAt(q, id, n) := Bin(RowAt(q, id, n))]), q)
  {
    BoundedSlots(p, main.counter);
    GrowsStored(main.entries, inv.entries, p, q, id, n, main.counter);
    GrowsRecordsKnown(inv.entries, p, q, id, n, Bin(RowAt(q, id, n)));
    GrowsRowsKnown(main.entries, p, q, id, n, q.rows[id][n].value);
    GrowsApart(p, q, id, n, main.counter);
  }

  lemma WithBounded(p: Placement, id: Bytes, row: Row, counter: nat)
    requires counter + 1 < U64
    requires Bounded(p, counter) && id in p.rows && id in p.first && p.first[id] + |p.rows[id]| == counter + 1
    ensures Bounded(With(p, id, p.rows[id] + [row], p.first[id]), counter + 1)
  {
  }

  lemma InsertOne(main: Bucket, inv: Bucket, p: Placement, id: Bytes, row: Row)
    requires Represents(main, inv, p) && main.counter + 1 < U64
    requires id in p.rows && p.first[id] + |p.rows[id]| == main.counter + 1
    ensures var c := main.counter + 1;
            var key := SeqSuffixed(row.key, c);
            Represents(Bucket(main.entries[key := row.value], c),
                       inv.(entries := inv.entries[SeqSuffixed(id, c) := Bin(key)]),
                       With(p, id, p.rows[id] + [row], p.first[id]))
  {
    var c := main.counter + 1;
    var n := |p.rows[id]|;
    var rows := p.rows[id] + [row];
    var q := With(p, id, rows, p.first[id]);
    WithGrows(p, id, rows);
    WithBounded(p, id, row, main.counter);
    assert q.rows[id][n] == row;
    GrowsRepresents(main, inv, p, q, id, n);
    assert RowAt(q, id, n) == SeqSuffixed(row.key, c);
    assert RecordAt(q, id, n) == SeqSuffixed(id, c);
  }

  lemma {:induction false} InsertRepresents(main: Bucket, inv: Bucket, p: Placement, id: Bytes, rows: seq<Row>)
    requires Represents(main, inv, p) && main.counter + |rows| < U64
    requires id in p.rows && p.first[id] + |p.rows[id]| == main.counter + 1
    ensures var (main', inv') := Inserted(main, inv, id, rows);
            Represents(main', inv', With(p, id, p.rows[id] + rows, p.first[id]))
            && main'.counter == main.counter + |rows|
    decreases rows
  {
    if rows == [] {
      assert p.rows[id] + rows == p.rows[id];
      WithSame(p, id);
    } else {
      var c := main.counter + 1;
      var key := SeqSuffixed(rows[0].key, c);
      var q := With(p, id, p.rows[id] + [rows[0]], p.first[id]);
      InsertOne(main, inv, p, id, rows[0]);
      InsertRepresents(Bucket(main.entries[key := rows[0].value], c),
                       inv.(entries := inv.entries[SeqSuffixed(id, c) := Bin(key)]), q, id, rows[1..]);
      SplitHead(p.rows[id], rows);
      WithTwice(p, id, p.rows[id] + [rows[0]], p.rows[id] + rows);
    }
  }

  lemma SplitHead(xs: seq<Row>, rows: seq<Row>)
    requires rows != []
    ensures xs + [rows[0]] + rows[1..] == xs + rows
  {
  }

  lemma WithSame(p: Placement, id: Bytes)
    requires id in p.rows && id in p.first
    ensures With(p, id, p.rows[id], p.first[id]) == p
  {
  }

  lemma WithTwice(p: Placement, id: Bytes, xs: seq<Row>, ys: seq<Row>)
    requires id in p.first
    ensures With(With(p, id, xs, p.first[id]), id, ys, p.first[id]) == With(p, id, ys, p.first[id])
  {
  }

  lemma EmptyGrows(p: Placement, id: Bytes, first: nat)
    requires id !in p.rows
    ensures Grows(p, With(p, id, [], first), id, -1)
  {
  }

  lemma SameStored(main: map<Bytes, Value>, inv: map<Bytes, Value>, p: Placement, q: Placement, id: Bytes)
    requires Grows(p, q, id, -1) && Stored(main, inv, p)
    ensures Stored(main, inv, q)
  {
    forall o, j | Slot(q, o, j)
      ensures RecordAt(q, o, j) in inv && inv[RecordAt(q, o, j)] == Bin(RowAt(q, o, j))
      ensures RowAt(q, o, j) in main && main[RowAt(q, o, j)] == q.rows[o][j].value
    {
      assert Slot(p, o, j);
      SameAt(p, q, o, j);
    }
  }

  /** A fresh document enters with no rows, right after the last sequence used. */
  lemma EnterEmpty(main: Bucket, inv: Bucket, p: Placement, id: Bytes)
    requires Represents(main, inv, p) && ValidId(id) && id !in p.rows
    ensures Represents(main, inv, With(p, id, [], main.counter + 1))
  {
    var q := With(p, id, [], main.counter + 1);
    EmptyGrows(p, id, main.counter + 1);
    BoundedSlots(p, main.counter);
    SameStored(main.entries, inv.entries, p, q, id);
    GrowsRecordsKnown(inv.entries, p, q, id, -1, Bin([]));
    GrowsRowsKnown(main.entries, p, q, id, -1, Bin([]));
    GrowsApart(p, q, id, -1, main.counter);
  }

  lemma WithOver(p: Placement, id: Bytes, rows: seq<Row>, first: nat)
    ensures var e := With(p, id, [], first);
            id in e.rows && id in e.first && e.rows[id] == [] && e.first[id] == first
            && With(e, id, rows, first) == With(p, id, rows, first)
  {
  }

  lemma NothingBefore(rows: seq<Row>)
    ensures [] + rows == rows
  {
  }

  /** The rows of a document that had none. */
  lemma InsertFresh(main: Bucket, inv: Bucket, p: Placement, id: Bytes, rows: seq<Row>, first: nat)
    requires Represents(main, inv, p) && ValidId(id) && id !in p.rows
    requires main.counter + |rows| < U64 && first == main.counter + 1
    ensures var r := Inserted(main, inv, id, rows);
            Represents(r.0, r.1, With(p, id, rows, first))
  {
    var e := With(p, id, [], first);
    WithOver(p, id, rows, first);
    NothingBefore(rows);
    EnterEmpty(main, inv, p, id);
    InsertRepresents(main, inv, e, id, rows);
  }
}
