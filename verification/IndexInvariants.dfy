/** Each index agrees with the documents, and a stored document keeps it so. */
module IndexInvariants {
  import opened ByteStrings
  import opened Documents
  import opened Engine
  import opened Indexes
  import opened SortedKeys
  import opened ViewRep

  /** The winners of the non-local documents, by ID. */
  type Winners = map<Bytes, Document>

  /******* Agreement *******/

  /** The two changes buckets are mutually inverse and count in lockstep. */
  ghost predicate ChangesAgree(c: Bucket, inv: Bucket, ids: set<Bytes>) {
    && c.counter == inv.counter < U64
    && inv.entries.Keys == ids
    && (forall id {:trigger SequencedBy(c, inv, id)} :: id in inv.entries ==> SequencedBy(c, inv, id))
    && (forall k {:trigger SequenceOf(c, inv, k)} :: k in c.entries ==> SequenceOf(c, inv, k))
  }

  ghost predicate SequenceOf(c: Bucket, inv: Bucket, k: Bytes)
    requires k in c.entries
  {
    c.entries[k].Bin? && c.entries[k].bytes in inv.entries && inv.entries[c.entries[k].bytes] == Bin(k)
  }

  ghost predicate SequencedBy(c: Bucket, inv: Bucket, id: Bytes)
    requires id in inv.entries
  {
    && inv.entries[id].Bin?
    && inv.entries[id].bytes in c.entries && c.entries[inv.entries[id].bytes] == Bin(id)
    && 1 <= FromBigEndian(inv.entries[id].bytes) <= c.counter
    && inv.entries[id].bytes == U64Key(FromBigEndian(inv.entries[id].bytes))
  }

  ghost predicate DeletedAgree(entries: map<Bytes, Value>, docs: Winners) {
    forall id :: id in entries <==> id in docs && docs[id].deleted
  }

  ghost predicate ViewAgrees(main: Bucket, inv: Bucket, mapFn: Document -> seq<Row>, docs: Winners, p: Placement) {
    && Represents(main, inv, p)
    && p.rows.Keys == docs.Keys
    && forall id :: id in docs ==> p.rows[id] == RowsFor(mapFn, docs[id])
  }

  ghost predicate Encodable(encode: Json -> Bytes, values: seq<Json>) {
    forall v :: v in values ==> |encode(v)| < U16
  }

  /** The main bucket holds one key per indexed ID and the other bucket says which. */
  ghost predicate Mirrors(main: map<Bytes, Value>, inv: map<Bytes, Value>, keys: map<Bytes, Bytes>) {
    && inv.Keys == keys.Keys
    && (forall id :: id in keys ==> inv[id] == Bin(keys[id]) && keys[id] != [] && keys[id] in main)
    && (forall k :: k in main ==> exists id :: id in keys && keys[id] == k)
    && (forall a, b :: a in keys && b in keys && keys[a] == keys[b] ==> a == b)
  }

  ghost function MangoKeys(fields: seq<Bytes>, encode: Json -> Bytes, docs: Winners): map<Bytes, Bytes> {
    map id | id in docs && MangoIndexable(docs[id]) :: MangoKey(encode, fields, docs[id])
  }

  ghost predicate MangoAgrees(main: map<Bytes, Value>, inv: map<Bytes, Value>,
                              fields: seq<Bytes>, encode: Json -> Bytes, docs: Winners) {
    && Mirrors(main, inv, MangoKeys(fields, encode, docs))
    && forall id :: id in docs && MangoIndexable(docs[id]) ==> Encodable(encode, FieldValues(fields, docs[id]))
  }

  ghost predicate IndexAgrees(i: Index, s: Store, docs: Winners) {
    && BucketsOf(i) <= s.Keys
    && match i
       case ChangesIndex => ChangesAgree(s[Changes], s[ChangesInv], docs.Keys)
       case DeletedIndex => DeletedAgree(s[DeletedDocs].entries, docs)
       case ViewIndex(n, mapFn) => exists p :: ViewAgrees(s[View(n)], s[ViewInv(n)], mapFn, docs, p)
       case MangoIndex(n, fields, encode) =>
         MangoAgrees(s[Mango(n)].entries, s[MangoInv(n)].entries, fields, encode, docs)
  }

  /** What an index demands of a document: Mango encodings must fit their length prefix. */
  ghost predicate Admits(i: Index, doc: Document) {
    i.MangoIndex? && MangoIndexable(doc) ==> Encodable(i.encode, FieldValues(i.fields, doc))
  }

  ghost predicate Keyed(docs: Winners) {
    forall id :: id in docs ==> docs[id].id == id && ValidId(id) && !IsLocal(id)
  }

  /** The counters still fit in 64 bits. */
  ghost predicate Fits(s: Store, names: set<BucketName>) {
    forall b :: b in names && b in s ==> s[b].counter < U64
  }

  ghost predicate SameBuckets(i: Index, s: Store, t: Store) {
    forall b :: b in BucketsOf(i) ==> b in s && b in t && s[b] == t[b]
  }

  /******* The changes index *******/

  lemma ChangesForget(c: Bucket, inv: Bucket, ids: set<Bytes>, id: Bytes)
    requires ChangesAgree(c, inv, ids) && id in ids && SequencedBy(c, inv, id)
    ensures ChangesAgree(c.(entries := c.entries - {inv.entries[id].bytes}),
                         inv.(entries := inv.entries - {id}), ids - {id})
  {
    var c' := c.(entries := c.entries - {inv.entries[id].bytes});
    var inv' := inv.(entries := inv.entries - {id});
    forall o | o in inv'.entries ensures SequencedBy(c', inv', o) {
      assert SequencedBy(c, inv, o);
    }
    forall k | k in c'.entries ensures SequenceOf(c', inv', k) {
      assert SequenceOf(c, inv, k);
    }
  }

  lemma ChangesRecord(c: Bucket, inv: Bucket, ids: set<Bytes>, id: Bytes)
    requires ChangesAgree(c, inv, ids) && id !in ids && c.counter + 1 < U64
    ensures var n := c.counter + 1;
            ChangesAgree(Bucket(c.entries[U64Key(n) := Bin(id)], n),
                         Bucket(inv.entries[id := Bin(U64Key(n))], n), ids + {id})
  {
    var n := c.counter + 1;
    var c' := Bucket(c.entries[U64Key(n) := Bin(id)], n);
    var inv' := Bucket(inv.entries[id := Bin(U64Key(n))], n);
    U64KeyOrder(n, n);
    forall o | o in inv'.entries ensures SequencedBy(c', inv', o) {
      if o != id {
        assert SequencedBy(c, inv, o);
        U64KeyOrder(FromBigEndian(inv.entries[o].bytes), n);
      }
    }
    forall k | k in c'.entries ensures SequenceOf(c', inv', k) {
      if k != U64Key(n) { assert SequenceOf(c, inv, k); }
    }
  }

  lemma ChangesDeleteReplay(s: Store, m: Machine, id: Bytes)
    requires SameBuckets(ChangesIndex, s, m.store) && !m.failed
    requires id in s[ChangesInv].entries && s[ChangesInv].entries[id].Bin?
    ensures var r := Replay(ChangesDeleted(s, id), m);
            && !r.failed && r.store.Keys == m.store.Keys
            && r.store[Changes] == s[Changes].(entries := s[Changes].entries - {s[ChangesInv].entries[id].bytes})
            && r.store[ChangesInv] == s[ChangesInv].(entries := s[ChangesInv].entries - {id})
  {
    ReplayTwo(Delete(ChangesInv, id), Delete(Changes, s[ChangesInv].entries[id].bytes), m);
  }

  lemma SequencedPut(m: Machine, b: BucketName, k: Bytes, v: Value, fn: KeyFn)
    requires b in m.store && !m.failed && (fn == SeqIsKey || (fn == SeqIsValue && k != []))
    ensures var c := m.store[b].counter + 1;
            var e := if fn == SeqIsKey then m.store[b].entries[U64Key(c) := v]
                     else m.store[b].entries[k := Bin(U64Key(c))];
            Step(PutWithSequence(b, k, v, fn), m) == Machine(m.store[b := Bucket(e, c)], c, false)
  {
    var c := m.store[b].counter + 1;
    var drawn := Draw(m, b);
    assert drawn.store[b] == Bucket(m.store[b].entries, c);
    assert forall e :: drawn.store[b := Bucket(e, c)] == m.store[b := Bucket(e, c)];
  }

  lemma ChangesStoreReplay(m: Machine, id: Bytes)
    requires BucketsOf(ChangesIndex) <= m.store.Keys && !m.failed && id != []
    ensures var r := Replay(ChangesStored(id), m);
            var c, inv := m.store[Changes], m.store[ChangesInv];
            && !r.failed && r.store.Keys == m.store.Keys
            && r.store[Changes] == Bucket(c.entries[U64Key(c.counter + 1) := Bin(id)], c.counter + 1)
            && r.store[ChangesInv]
               == Bucket(inv.entries[id := Bin(U64Key(inv.counter + 1))], inv.counter + 1)
  {
    var a := PutWithSequence(Changes, [], Bin(id), SeqIsKey);
    var b := PutWithSequence(ChangesInv, id, Bin([]), SeqIsValue);
    ReplayTwo(a, b, m);
    SequencedPut(m, Changes, [], Bin(id), SeqIsKey);
    SequencedPut(Step(a, m), ChangesInv, id, Bin([]), SeqIsValue);
  }

  /******* Replaying the view operations *******/

  lemma {:induction false} RemovalReplay(n: nat, inv: map<Bytes, Value>, keys: seq<Bytes>, m: Machine)
    requires forall k :: k in keys ==> k in inv
    requires View(n) in m.store && ViewInv(n) in m.store && !m.failed
    ensures var r := Replay(RemovalOps(n, inv, keys), m);
            && !r.failed && r.store.Keys == m.store.Keys
            && r.store[View(n)] == m.store[View(n)].(entries :=
                 m.store[View(n)].entries - RowKeys(inv, set k | k in keys))
            && r.store[ViewInv(n)] == m.store[ViewInv(n)].(entries :=
                 m.store[ViewInv(n)].entries - (set k | k in keys))
  {
    if keys == [] {
      assert (set k | k in keys) == {};
      assert RowKeys(inv, {}) == {};
      assert m.store[View(n)].entries - {} == m.store[View(n)].entries;
      assert m.store[ViewInv(n)].entries - {} == m.store[ViewInv(n)].entries;
    } else {
      var k := keys[0];
      assert k in keys;
      var row := if inv[k].Bin? then inv[k].bytes else [];
      var m1 := Step(Delete(View(n), row), m);
      var m2 := Step(Delete(ViewInv(n), k), m1);
      var ops := RowRemoval(n, k, inv[k]);
      ReplayAppend(ops, RemovalOps(n, inv, keys[1..]), m);
      assert Replay(ops, m) == Replay(ops[1..], m1) == Replay(ops[1..][1..], m2) == m2;
      RemovalReplay(n, inv, keys[1..], m2);
      SetHead(keys);
      RowKeysHead(inv, keys);
      MinusTwice(m.store[View(n)].entries, {row}, RowKeys(inv, set k | k in keys[1..]));
      MinusTwice(m.store[ViewInv(n)].entries, {k}, set k | k in keys[1..]);
    }
  }

  lemma SetHead(keys: seq<Bytes>)
    requires keys != []
    ensures (set k | k in keys) == {keys[0]} + (set k | k in keys[1..])
  {
    forall k ensures k in keys <==> k == keys[0] || k in keys[1..] {
      assert keys == [keys[0]] + keys[1..];
    }
  }

  lemma RowKeysHead(inv: map<Bytes, Value>, keys: seq<Bytes>)
    requires keys != [] && forall k :: k in keys ==> k in inv
    ensures var row := if inv[keys[0]].Bin? then inv[keys[0]].bytes else [];
            RowKeys(inv, set k | k in keys) == {row} + RowKeys(inv, set k | k in keys[1..])
  {
    SetHead(keys);
  }

  lemma MinusTwice(e: map<Bytes, Value>, a: set<Bytes>, b: set<Bytes>)
    ensures (e - a) - b == e - (a + b)
  {
  }

  lemma {:induction false} RowsReplay(n: nat, id: Bytes, rows: seq<Row>, m: Machine)
    requires View(n) in m.store && ViewInv(n) in m.store && !m.failed
    ensures var r := Replay(RowOps(n, id, rows), m);
            && !r.failed && r.store.Keys == m.store.Keys
            && (r.store[View(n)], r.store[ViewInv(n)]) == Inserted(m.store[View(n)], m.store[ViewInv(n)], id, rows)
  {
    if rows != [] {
      var ops := [PutWithSequence(View(n), rows[0].key, rows[0].value, RowKey),
                  PutWithReusedSequence(ViewInv(n), id, Bin(rows[0].key), RowRecord)];
      var m1 := Step(ops[0], m);
      var m2 := Step(ops[1], m1);
      ReplayAppend(ops, RowOps(n, id, rows[1..]), m);
      assert Replay(ops, m) == Replay(ops[1..], m1) == Replay(ops[1..][1..], m2) == m2;
      RowsReplay(n, id, rows[1..], m2);
    }
  }

  lemma RecordKeysMembers(inv: map<Bytes, Value>, id: Bytes)
    ensures (set k | k in RecordKeys(inv, id)) == RecordsOf(inv, id)
  {
  }

  lemma RemoveOldKeysReplay(s: Store, n: nat, id: Bytes, m: Machine)
    requires ViewInv(n) in s && View(n) in m.store && ViewInv(n) in m.store && !m.failed
    ensures var inv := s[ViewInv(n)].entries;
            var r := Replay(RemoveOldKeysOps(s, n, id), m);
            && !r.failed && r.store.Keys == m.store.Keys
            && r.store[View(n)] == m.store[View(n)].(entries :=
                 m.store[View(n)].entries - RowKeys(inv, RecordsOf(inv, id)))
            && r.store[ViewInv(n)] == m.store[ViewInv(n)].(entries :=
                 m.store[ViewInv(n)].entries - RecordsOf(inv, id))
  {
    var inv := s[ViewInv(n)].entries;
    RecordKeysMembers(inv, id);
    RemovalReplay(n, inv, RecordKeys(inv, id), m);
  }

  /******* One document stored: every index keeps up *******/

  lemma ChangesForgotten(s: Store, ids: set<Bytes>, replaced: bool, id: Bytes, m0: Machine, m2: Machine)
    requires BucketsOf(ChangesIndex) <= s.Keys && ChangesAgree(s[Changes], s[ChangesInv], ids)
    requires replaced <==> id in ids
    requires !m0.failed && SameBuckets(ChangesIndex, s, m0.store)
    requires SameBuckets(ChangesIndex, (if replaced then Replay(ChangesDeleted(s, id), m0) else m0).store, m2.store)
    ensures BucketsOf(ChangesIndex) <= m2.store.Keys
    ensures ChangesAgree(m2.store[Changes], m2.store[ChangesInv], ids - {id})
  {
    if replaced {
      assert SequencedBy(s[Changes], s[ChangesInv], id);
      ChangesForget(s[Changes], s[ChangesInv], ids, id);
      ChangesDeleteReplay(s, m0, id);
    } else {
      assert ids - {id} == ids;
    }
  }

  lemma ChangesTaken(ids: set<Bytes>, id: Bytes, m: Machine)
    requires BucketsOf(ChangesIndex) <= m.store.Keys && !m.failed && id != [] && id !in ids
    requires ChangesAgree(m.store[Changes], m.store[ChangesInv], ids)
    requires Fits(Replay(ChangesStored(id), m).store, BucketsOf(ChangesIndex))
    ensures var t := Replay(ChangesStored(id), m).store;
            BucketsOf(ChangesIndex) <= t.Keys && ChangesAgree(t[Changes], t[ChangesInv], ids + {id})
  {
    ChangesStoreReplay(m, id);
    ChangesRecord(m.store[Changes], m.store[ChangesInv], ids, id);
  }

  lemma ChangesStep(s: Store, docs: Winners, replaced: bool, id: Bytes, m0: Machine, m2: Machine)
    requires IndexAgrees(ChangesIndex, s, docs) && ValidId(id)
    requires replaced <==> id in docs
    requires !m0.failed && SameBuckets(ChangesIndex, s, m0.store)
    requires !m2.failed && SameBuckets(ChangesIndex,
               (if replaced then Replay(ChangesDeleted(s, id), m0) else m0).store, m2.store)
    requires Fits(Replay(ChangesStored(id), m2).store, BucketsOf(ChangesIndex))
    ensures var t := Replay(ChangesStored(id), m2).store;
            BucketsOf(ChangesIndex) <= t.Keys && ChangesAgree(t[Changes], t[ChangesInv], docs.Keys + {id})
  {
    ChangesForgotten(s, docs.Keys, replaced, id, m0, m2);
    ChangesTaken(docs.Keys - {id}, id, m2);
    assert docs.Keys - {id} + {id} == docs.Keys + {id};
  }

  lemma DeletedStep(s: Store, docs: Winners, replaced: Option<Document>, d: Document, m0: Machine, m2: Machine)
    requires IndexAgrees(DeletedIndex, s, docs) && Keyed(docs) && ValidId(d.id)
    requires replaced.Some? <==> d.id in docs
    requires replaced.Some? ==> replaced.value.id == d.id && replaced.value.deleted == docs[d.id].deleted
    requires !m0.failed && SameBuckets(DeletedIndex, s, m0.store)
    requires !m2.failed && SameBuckets(DeletedIndex,
               (if replaced.Some? then Replay(DocumentDeleted(DeletedIndex, s, replaced.value), m0) else m0).store,
               m2.store)
    ensures IndexAgrees(DeletedIndex, Replay(DeletedStored(d), m2).store, docs[d.id := d])
  {
    if replaced.Some? {
      var op := Delete(DeletedDocs, DeletedKey(replaced.value));
      assert Replay([op], m0) == Replay([op][1..], Step(op, m0));
      assert [] !in s[DeletedDocs].entries;
    }
    if d.deleted {
      var op := Put(DeletedDocs, d.id, Bin([]));
      assert Replay([op], m2) == Replay([op][1..], Step(op, m2));
    }
  }

  lemma MinusAgain(e: map<Bytes, Value>, a: set<Bytes>)
    ensures (e - a) - a == e - a
  {
  }

  /** Removal leaves the same buckets whether it was logged once or twice. */
  lemma ViewRemoved(s: Store, n: nat, id: Bytes, twice: bool, m0: Machine, m2: Machine)
    requires View(n) in s && ViewInv(n) in s
    requires !m0.failed && m0.store.Keys >= {View(n), ViewInv(n)}
    requires s[View(n)] == m0.store[View(n)] && s[ViewInv(n)] == m0.store[ViewInv(n)]
    requires var m1 := if twice then Replay(RemoveOldKeysOps(s, n, id), m0) else m0;
             !m2.failed && m2.store.Keys >= {View(n), ViewInv(n)} && m1.store.Keys >= {View(n), ViewInv(n)}
             && m1.store[View(n)] == m2.store[View(n)] && m1.store[ViewInv(n)] == m2.store[ViewInv(n)]
    ensures var inv := s[ViewInv(n)].entries;
            var r := Replay(RemoveOldKeysOps(s, n, id), m2);
            && !r.failed && r.store.Keys == m2.store.Keys
            && r.store[View(n)] == s[View(n)].(entries := s[View(n)].entries - RowKeys(inv, RecordsOf(inv, id)))
            && r.store[ViewInv(n)] == s[ViewInv(n)].(entries := inv - RecordsOf(inv, id))
  {
    var inv := s[ViewInv(n)].entries;
    RemoveOldKeysReplay(s, n, id, m0);
    RemoveOldKeysReplay(s, n, id, m2);
    MinusAgain(s[View(n)].entries, RowKeys(inv, RecordsOf(inv, id)));
    MinusAgain(inv, RecordsOf(inv, id));
  }

  /** The buckets with an ID's rows and records gone. */
  ghost function Cleared(main: Bucket, inv: Bucket, id: Bytes): (Bucket, Bucket) {
    var gone := RecordsOf(inv.entries, id);
    (main.(entries := main.entries - RowKeys(inv.entries, gone)), inv.(entries := inv.entries - gone))
  }

  /** On the buckets: an ID's rows give way to the new ones. */
  lemma ViewReplace(main: Bucket, inv: Bucket, p: Placement, id: Bytes, rows: seq<Row>,
                    cleared: (Bucket, Bucket), first: nat)
    requires Represents(main, inv, p) && ValidId(id) && main.counter + |rows| < U64
    requires cleared == Cleared(main, inv, id) && first == main.counter + 1
    ensures var r := Inserted(cleared.0, cleared.1, id, rows);
            Represents(r.0, r.1, With(Without(p, id), id, rows, first))
  {
    RemoveRepresents(main, inv, p, id);
    InsertFresh(cleared.0, cleared.1, Without(p, id), id, rows, first);
  }

  lemma {:induction false} InsertedCounter(main: Bucket, inv: Bucket, id: Bytes, rows: seq<Row>)
    ensures Inserted(main, inv, id, rows).0.counter == main.counter + |rows|
    decreases rows
  {
    if rows != [] {
      var c := main.counter + 1;
      var key := SeqSuffixed(rows[0].key, c);
      InsertedCounter(Bucket(main.entries[key := rows[0].value], c),
                      inv.(entries := inv.entries[SeqSuffixed(id, c) := Bin(key)]), id, rows[1..]);
    }
  }

  lemma ViewStep(s: Store, docs: Winners, i: Index, replaced: bool, d: Document, m0: Machine, m2: Machine)
    requires i.ViewIndex? && IndexAgrees(i, s, docs) && ValidId(d.id)
    requires !m0.failed && SameBuckets(i, s, m0.store)
    requires !m2.failed && SameBuckets(i,
               (if replaced then Replay(RemoveOldKeysOps(s, i.n, d.id), m0) else m0).store, m2.store)
    requires Fits(Replay(DocumentStored(i, s, d), m2).store, BucketsOf(i))
    ensures IndexAgrees(i, Replay(DocumentStored(i, s, d), m2).store, docs[d.id := d])
  {
    var n, rows := i.n, RowsFor(i.mapFn, d);
    var main, inv := s[View(n)], s[ViewInv(n)];
    var p :| ViewAgrees(main, inv, i.mapFn, docs, p);
    ViewReplay(s, n, d.id, rows, replaced, m0, m2);
    var cleared := Cleared(main, inv, d.id);
    InsertedCounter(cleared.0, cleared.1, d.id, rows);
    ViewReplace(main, inv, p, d.id, rows, cleared, main.counter + 1);
    PlacedAll(p, i.mapFn, docs, d, main.counter + 1);
    var t := Replay(DocumentStored(i, s, d), m2).store;
    assert ViewAgrees(t[View(n)], t[ViewInv(n)], i.mapFn, docs[d.id := d],
                      With(Without(p, d.id), d.id, rows, main.counter + 1));
  }

  lemma PlacedAll(p: Placement, mapFn: Document -> seq<Row>, docs: Winners, d: Document, first: nat)
    requires p.rows.Keys == docs.Keys && forall id :: id in docs ==> p.rows[id] == RowsFor(mapFn, docs[id])
    ensures var q := With(Without(p, d.id), d.id, RowsFor(mapFn, d), first);
            var docs' := docs[d.id := d];
            q.rows.Keys == docs'.Keys && forall id :: id in docs' ==> q.rows[id] == RowsFor(mapFn, docs'[id])
  {
  }

  lemma ViewReplay(s: Store, n: nat, id: Bytes, rows: seq<Row>, twice: bool, m0: Machine, m2: Machine)
    requires View(n) in s && ViewInv(n) in s
    requires !m0.failed && m0.store.Keys >= {View(n), ViewInv(n)}
    requires s[View(n)] == m0.store[View(n)] && s[ViewInv(n)] == m0.store[ViewInv(n)]
    requires var m1 := if twice then Replay(RemoveOldKeysOps(s, n, id), m0) else m0;
             !m2.failed && m2.store.Keys >= {View(n), ViewInv(n)} && m1.store.Keys >= {View(n), ViewInv(n)}
             && m1.store[View(n)] == m2.store[View(n)] && m1.store[ViewInv(n)] == m2.store[ViewInv(n)]
    ensures var cleared := Cleared(s[View(n)], s[ViewInv(n)], id);
            var r := Replay(ViewReplaced(s, n, id, rows), m2);
            && !r.failed && r.store.Keys == m2.store.Keys
            && (r.store[View(n)], r.store[ViewInv(n)]) == Inserted(cleared.0, cleared.1, id, rows)
  {
    ViewRemoved(s, n, id, twice, m0, m2);
    ReplayAppend(RemoveOldKeysOps(s, n, id), RowOps(n, id, rows), m2);
    RowsReplay(n, id, rows, Replay(RemoveOldKeysOps(s, n, id), m2));
  }

  /******* The Mango index *******/

  /** Equally many length-prefixed encodings are told apart from what follows them. */
  lemma {:induction false} PrefixSplits(encode: Json -> Bytes, vs: seq<Json>, ws: seq<Json>, x: Bytes, y: Bytes)
    requires |vs| == |ws| && Encodable(encode, vs) && Encodable(encode, ws)
    requires Prefix(encode, vs) + x == Prefix(encode, ws) + y
    ensures x == y
    ensures forall j :: 0 <= j < |vs| ==> encode(vs[j]) == encode(ws[j])
  {
    if vs == [] {
      assert Prefix(encode, vs) + x == x && Prefix(encode, ws) + y == y;
    } else {
      var a, b := encode(vs[0]), encode(ws[0]);
      assert vs[0] in vs && ws[0] in ws;
      var restA, restB := Prefix(encode, vs[1..]) + x, Prefix(encode, ws[1..]) + y;
      assert Prefix(encode, vs) + x == U16Key(|a|) + (a + restA);
      assert Prefix(encode, ws) + y == U16Key(|b|) + (b + restB);
      AppendInjective(U16Key(|a|), U16Key(|b|), a + restA, b + restB);
      U16KeyInjective(|a|, |b|);
      AppendInjective(a, b, restA, restB);
      PrefixSplits(encode, vs[1..], ws[1..], x, y);
      forall j | 0 <= j < |vs| ensures encode(vs[j]) == encode(ws[j]) {
        if j > 0 { assert vs[j] == vs[1..][j - 1] && ws[j] == ws[1..][j - 1]; }
      }
    }
  }

  /** Two documents never share a Mango key. */
  lemma MangoKeysApart(encode: Json -> Bytes, fields: seq<Bytes>, a: Document, b: Document)
    requires Encodable(encode, FieldValues(fields, a)) && Encodable(encode, FieldValues(fields, b))
    requires MangoKey(encode, fields, a) == MangoKey(encode, fields, b)
    ensures a.id == b.id
  {
    PrefixSplits(encode, FieldValues(fields, a), FieldValues(fields, b), a.id, b.id);
  }

  ghost function MangoOld(inv: map<Bytes, Value>, id: Bytes): set<Bytes> {
    if id in inv && inv[id].Bin? && inv[id].bytes != [] then {inv[id].bytes} else {}
  }

  lemma MangoDeletedReplay(s: Store, n: nat, id: Bytes, m: Machine)
    requires MangoInv(n) in s && Mango(n) in m.store && MangoInv(n) in m.store && !m.failed
    ensures var r := Replay(MangoDeleted(s, n, id), m);
            && !r.failed && r.store.Keys == m.store.Keys
            && r.store[Mango(n)] == m.store[Mango(n)].(entries :=
                 m.store[Mango(n)].entries - MangoOld(s[MangoInv(n)].entries, id))
            && r.store[MangoInv(n)] == m.store[MangoInv(n)].(entries := m.store[MangoInv(n)].entries - {id})
  {
    var inv := s[MangoInv(n)].entries;
    var last := Delete(MangoInv(n), id);
    if MangoOld(inv, id) != {} {
      ReplayTwo(Delete(Mango(n), inv[id].bytes), last, m);
      assert MangoDeleted(s, n, id) == [Delete(Mango(n), inv[id].bytes), last];
    } else {
      assert MangoDeleted(s, n, id) == [last];
      assert Replay([last], m) == Replay([last][1..], Step(last, m));
      assert m.store[Mango(n)].entries - {} == m.store[Mango(n)].entries;
    }
  }

  lemma MirrorForget(main: map<Bytes, Value>, inv: map<Bytes, Value>, keys: map<Bytes, Bytes>, id: Bytes)
    requires Mirrors(main, inv, keys)
    ensures Mirrors(main - MangoOld(inv, id), inv - {id}, keys - {id})
  {
    var main', keys' := main - MangoOld(inv, id), keys - {id};
    forall k | k in main' ensures exists o :: o in keys' && keys'[o] == k {
      var o :| o in keys && keys[o] == k;
      assert o in keys';
    }
  }

  lemma MirrorRecord(main: map<Bytes, Value>, inv: map<Bytes, Value>, keys: map<Bytes, Bytes>, id: Bytes, key: Bytes)
    requires Mirrors(main, inv, keys) && id !in keys && key != []
    requires forall o :: o in keys ==> keys[o] != key
    ensures Mirrors(main[key := Bin([])], inv[id := Bin(key)], keys[id := key])
  {
    var main', keys' := main[key := Bin([])], keys[id := key];
    forall k | k in main' ensures exists o :: o in keys' && keys'[o] == k {
      if k == key {
        assert id in keys';
      } else {
        var o :| o in keys && keys[o] == k;
        assert o in keys';
      }
    }
  }

  lemma MangoKeysStored(fields: seq<Bytes>, encode: Json -> Bytes, docs: Winners, d: Document)
    ensures MangoKeys(fields, encode, docs[d.id := d])
         == if MangoIndexable(d) then (MangoKeys(fields, encode, docs) - {d.id})[d.id := MangoKey(encode, fields, d)]
            else MangoKeys(fields, encode, docs) - {d.id}
  {
  }

  lemma NewMangoKey(fields: seq<Bytes>, encode: Json -> Bytes, docs: Winners, d: Document)
    requires Keyed(docs) && ValidId(d.id) && Encodable(encode, FieldValues(fields, d))
    requires forall id :: id in docs && MangoIndexable(docs[id]) ==> Encodable(encode, FieldValues(fields, docs[id]))
    ensures MangoKey(encode, fields, d) != []
    ensures var keys := MangoKeys(fields, encode, docs) - {d.id};
            forall o :: o in keys ==> keys[o] != MangoKey(encode, fields, d)
  {
    var keys := MangoKeys(fields, encode, docs) - {d.id};
    forall o | o in keys ensures keys[o] != MangoKey(encode, fields, d) {
      if keys[o] == MangoKey(encode, fields, d) { MangoKeysApart(encode, fields, docs[o], d); }
    }
  }

  lemma MangoReplace(main: map<Bytes, Value>, inv: map<Bytes, Value>, fields: seq<Bytes>, encode: Json -> Bytes,
                     docs: Winners, d: Document)
    requires MangoAgrees(main, inv, fields, encode, docs) && Keyed(docs) && ValidId(d.id)
    requires MangoIndexable(d) ==> Encodable(encode, FieldValues(fields, d))
    ensures var main', inv' := main - MangoOld(inv, d.id), inv - {d.id};
            var key := MangoKey(encode, fields, d);
            if MangoIndexable(d)
            then MangoAgrees(main'[key := Bin([])], inv'[d.id := Bin(key)], fields, encode, docs[d.id := d])
            else MangoAgrees(main', inv', fields, encode, docs[d.id := d])
  {
    var keys := MangoKeys(fields, encode, docs);
    MirrorForget(main, inv, keys, d.id);
    MangoKeysStored(fields, encode, docs, d);
    if MangoIndexable(d) {
      NewMangoKey(fields, encode, docs, d);
      MirrorRecord(main - MangoOld(inv, d.id), inv - {d.id}, keys - {d.id}, d.id, MangoKey(encode, fields, d));
    }
  }

  lemma MangoAddedReplay(n: nat, fields: seq<Bytes>, encode: Json -> Bytes, d: Document, m: Machine)
    requires Mango(n) in m.store && MangoInv(n) in m.store && !m.failed && ValidId(d.id)
    ensures var r := Replay(MangoAdded(n, fields, encode, d), m);
            var key := MangoKey(encode, fields, d);
            if MangoIndexable(d)
            then && !r.failed && r.store.Keys == m.store.Keys
                 && r.store[Mango(n)].entries == m.store[Mango(n)].entries[key := Bin([])]
                 && r.store[MangoInv(n)].entries == m.store[MangoInv(n)].entries[d.id := Bin(key)]
            else r == m
  {
    if MangoIndexable(d) {
      var key := MangoKey(encode, fields, d);
      assert |key| >= |d.id|;
      ReplayTwo(Put(Mango(n), key, Bin([])), Put(MangoInv(n), d.id, Bin(key)), m);
    }
  }

  lemma MangoStep(s: Store, docs: Winners, i: Index, replaced: bool, d: Document, m0: Machine, m2: Machine)
    requires i.MangoIndex? && IndexAgrees(i, s, docs) && Keyed(docs) && ValidId(d.id) && Admits(i, d)
    requires !m0.failed && SameBuckets(i, s, m0.store)
    requires !m2.failed && SameBuckets(i,
               (if replaced then Replay(MangoDeleted(s, i.n, d.id), m0) else m0).store, m2.store)
    ensures IndexAgrees(i, Replay(DocumentStored(i, s, d), m2).store, docs[d.id := d])
  {
    var n := i.n;
    var main, inv := s[Mango(n)].entries, s[MangoInv(n)].entries;
    MangoDeletedReplay(s, n, d.id, m0);
    MangoDeletedReplay(s, n, d.id, m2);
    MinusAgain(main, MangoOld(inv, d.id));
    MinusAgain(inv, {d.id});
    var removed := Replay(MangoDeleted(s, n, d.id), m2);
    ReplayAppend(MangoDeleted(s, n, d.id), MangoAdded(n, i.fields, i.encode, d), m2);
    MangoAddedReplay(n, i.fields, i.encode, d, removed);
    MangoReplace(main, inv, i.fields, i.encode, docs, d);
  }

  /** Whatever the index, replacing the stored document of one ID (the removal
      logged first, other buckets possibly written in between) leaves the index
      agreeing with the new set of winners. */
  lemma IndexStep(i: Index, s: Store, docs: Winners, replaced: Option<Document>, d: Document,
                  m0: Machine, m2: Machine)
    requires IndexAgrees(i, s, docs) && Keyed(docs) && ValidId(d.id) && Admits(i, d)
    requires replaced.Some? <==> d.id in docs
    requires replaced.Some? ==> replaced.value.id == d.id && replaced.value.deleted == docs[d.id].deleted
    requires !m0.failed && SameBuckets(i, s, m0.store)
    requires !m2.failed && SameBuckets(i,
               (if replaced.Some? then Replay(DocumentDeleted(i, s, replaced.value), m0) else m0).store, m2.store)
    requires Fits(Replay(DocumentStored(i, s, d), m2).store, BucketsOf(i))
    ensures IndexAgrees(i, Replay(DocumentStored(i, s, d), m2).store, docs[d.id := d])
  {
    match i
    case ChangesIndex =>
      ChangesStep(s, docs, replaced.Some?, d.id, m0, m2);
      assert docs[d.id := d].Keys == docs.Keys + {d.id};
    case DeletedIndex => DeletedStep(s, docs, replaced, d, m0, m2);
    case ViewIndex(_, _) => ViewStep(s, docs, i, replaced.Some?, d, m0, m2);
    case MangoIndex(_, _, _) => MangoStep(s, docs, i, replaced.Some?, d, m0, m2);
  }

  lemma AgreesMoves(i: Index, s: Store, t: Store, docs: Winners)
    requires IndexAgrees(i, s, docs) && SameBuckets(i, s, t)
    ensures IndexAgrees(i, t, docs)
  {
  }
}
