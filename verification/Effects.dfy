/** What a writer's log does to each bucket once it is replayed. */
module Effects {
  import opened ByteStrings
  import opened Documents
  import opened DocStore
  import opened Engine
  import opened IndexInvariants
  import opened Indexes

  /** The effect of the puts and deletes of one bucket on its entries. */
  ghost function Apply(ops: seq<Op>, b: BucketName, e: map<Bytes, Value>): map<Bytes, Value>
    decreases ops
  {
    if ops == [] then e
    else Apply(ops[1..], b,
      if ops[0].bucket != b then e
      else if ops[0].Put? then e[ops[0].key := ops[0].value]
      else if ops[0].Delete? then e - {ops[0].key}
      else e)
  }

  lemma {:induction false} ApplyAppend(xs: seq<Op>, ys: seq<Op>, b: BucketName, e: map<Bytes, Value>)
    ensures Apply(xs + ys, b, e) == Apply(ys, b, Apply(xs, b, e))
    decreases xs
  {
    if xs == [] {
      assert xs + ys == ys;
    } else {
      assert (xs + ys)[1..] == xs[1..] + ys;
      var e1 := if xs[0].bucket != b then e else if xs[0].Put? then e[xs[0].key := xs[0].value]
                else if xs[0].Delete? then e - {xs[0].key} else e;
      ApplyAppend(xs[1..], ys, b, e1);
    }
  }

  /** No sequence is drawn for the bucket. */
  ghost predicate PlainFor(ops: seq<Op>, b: BucketName) {
    forall op :: op in ops && op.bucket == b ==> op.Put? || op.Delete?
  }

  lemma {:induction false} PlainReplay(ops: seq<Op>, m: Machine, b: BucketName)
    requires Safe(ops, m.store.Keys) && !m.failed && b in m.store && PlainFor(ops, b)
    ensures b in Replay(ops, m).store
    ensures Replay(ops, m).store[b] == m.store[b].(entries := Apply(ops, b, m.store[b].entries))
    decreases ops
  {
    if ops != [] {
      assert ops[0] in ops;
      var next := Step(ops[0], m);
      assert next.store.Keys == m.store.Keys;
      assert Safe(ops[1..], next.store.Keys) && PlainFor(ops[1..], b);
      PlainReplay(ops[1..], next, b);
    }
  }

  /******* Which buckets an index touches *******/

  ghost predicate Within(ops: seq<Op>, names: set<BucketName>) {
    forall op :: op in ops ==> op.bucket in names
  }

  lemma {:induction false} RemovalWithin(n: nat, inv: map<Bytes, Value>, keys: seq<Bytes>)
    requires forall k :: k in keys ==> k in inv
    ensures Safe(RemovalOps(n, inv, keys), {View(n), ViewInv(n)})
    ensures DrawsFirst(RemovalOps(n, inv, keys))
    decreases keys
  {
    if keys != [] {
      RemovalWithin(n, inv, keys[1..]);
      SafeAppend(RowRemoval(n, keys[0], inv[keys[0]]), RemovalOps(n, inv, keys[1..]), {View(n), ViewInv(n)});
      DrawsFirstAppend(RowRemoval(n, keys[0], inv[keys[0]]), RemovalOps(n, inv, keys[1..]));
    }
  }

  lemma {:induction false} RowsWithin(n: nat, id: Bytes, rows: seq<Row>)
    ensures Safe(RowOps(n, id, rows), {View(n), ViewInv(n)})
    ensures DrawsFirst(RowOps(n, id, rows))
    decreases rows
  {
    if rows != [] {
      RowsWithin(n, id, rows[1..]);
      var pair := [PutWithSequence(View(n), rows[0].key, rows[0].value, RowKey),
                   PutWithReusedSequence(ViewInv(n), id, Bin(rows[0].key), RowRecord)];
      SafeAppend(pair, RowOps(n, id, rows[1..]), {View(n), ViewInv(n)});
    }
  }

  lemma DeletedWithin(i: Index, s: Store, doc: Document)
    ensures Safe(DocumentDeleted(i, s, doc), BucketsOf(i))
    ensures DrawsFirst(DocumentDeleted(i, s, doc))
  {
    match i
    case ViewIndex(n, _) =>
      var inv := Entries(s, ViewInv(n));
      RemovalWithin(n, inv, RecordKeys(inv, doc.id));
    case MangoIndex(n, _, _) => MangoDeletedWithin(s, n, doc.id);
    case _ =>
  }

  lemma MangoDeletedWithin(s: Store, n: nat, id: Bytes)
    ensures Safe(MangoDeleted(s, n, id), {Mango(n), MangoInv(n)})
    ensures DrawsFirst(MangoDeleted(s, n, id))
  {
    var inv := Entries(s, MangoInv(n));
    var last := Delete(MangoInv(n), id);
    assert DrawsFirst([last][1..]);
    if id in inv && inv[id].Bin? && inv[id].bytes != [] {
      assert MangoDeleted(s, n, id) == [Delete(Mango(n), inv[id].bytes), last];
      assert [Delete(Mango(n), inv[id].bytes), last][1..] == [last];
    } else {
      assert MangoDeleted(s, n, id) == [last];
    }
  }

  lemma StoredWithin(i: Index, s: Store, doc: Document)
    requires doc.id != []
    ensures Safe(DocumentStored(i, s, doc), BucketsOf(i))
    ensures DrawsFirst(DocumentStored(i, s, doc))
  {
    match i
    case ViewIndex(n, mapFn) =>
      var inv := Entries(s, ViewInv(n));
      RemovalWithin(n, inv, RecordKeys(inv, doc.id));
      RowsWithin(n, doc.id, RowsFor(mapFn, doc));
      SafeAppend(RemoveOldKeysOps(s, n, doc.id), RowOps(n, doc.id, RowsFor(mapFn, doc)), {View(n), ViewInv(n)});
      DrawsFirstAppend(RemoveOldKeysOps(s, n, doc.id), RowOps(n, doc.id, RowsFor(mapFn, doc)));
    case MangoIndex(n, fields, encode) =>
      MangoDeletedWithin(s, n, doc.id);
      MangoAddedWithin(n, fields, encode, doc);
      SafeAppend(MangoDeleted(s, n, doc.id), MangoAdded(n, fields, encode, doc), {Mango(n), MangoInv(n)});
      DrawsFirstAppend(MangoDeleted(s, n, doc.id), MangoAdded(n, fields, encode, doc));
    case _ =>
  }

  lemma MangoAddedWithin(n: nat, fields: seq<Bytes>, encode: Json -> Bytes, doc: Document)
    requires doc.id != []
    ensures Safe(MangoAdded(n, fields, encode, doc), {Mango(n), MangoInv(n)})
    ensures DrawsFirst(MangoAdded(n, fields, encode, doc))
  {
    if MangoIndexable(doc) {
      var key := MangoKey(encode, fields, doc);
      assert |key| >= |doc.id|;
      var a, b := Put(Mango(n), key, Bin([])), Put(MangoInv(n), doc.id, Bin(key));
      assert MangoAdded(n, fields, encode, doc) == [a, b];
      assert [a, b][1..] == [b] && [b][1..] == [];
    }
  }

  /******* All indices together *******/

  ghost predicate DistinctIndices(indices: seq<Index>) {
    forall j, k :: 0 <= j < k < |indices| ==> BucketsOf(indices[j]) !! BucketsOf(indices[k])
  }

  ghost predicate PartsOf(parts: seq<seq<Op>>, indices: seq<Index>) {
    && |parts| == |indices|
    && forall j :: 0 <= j < |parts| ==> Safe(parts[j], BucketsOf(indices[j])) && DrawsFirst(parts[j])
  }

  ghost function DeletedParts(indices: seq<Index>, s: Store, doc: Document): seq<seq<Op>> {
    seq(|indices|, j requires 0 <= j < |indices| => DocumentDeleted(indices[j], s, doc))
  }

  ghost function StoredParts(indices: seq<Index>, s: Store, doc: Document): seq<seq<Op>> {
    seq(|indices|, j requires 0 <= j < |indices| => DocumentStored(indices[j], s, doc))
  }

  lemma DeletedPartsOf(indices: seq<Index>, s: Store, doc: Document)
    ensures PartsOf(DeletedParts(indices, s, doc), indices)
    ensures AllDeleted(indices, s, doc) == Concat(DeletedParts(indices, s, doc))
  {
    forall j | 0 <= j < |indices|
      ensures Safe(DeletedParts(indices, s, doc)[j], BucketsOf(indices[j])) && DrawsFirst(DeletedParts(indices, s, doc)[j])
    {
      DeletedWithin(indices[j], s, doc);
    }
  }

  lemma StoredPartsOf(indices: seq<Index>, s: Store, doc: Document)
    requires doc.id != []
    ensures PartsOf(StoredParts(indices, s, doc), indices)
    ensures AllStored(indices, s, doc) == Concat(StoredParts(indices, s, doc))
  {
    forall j | 0 <= j < |indices|
      ensures Safe(StoredParts(indices, s, doc)[j], BucketsOf(indices[j])) && DrawsFirst(StoredParts(indices, s, doc)[j])
    {
      StoredWithin(indices[j], s, doc);
    }
  }

  lemma {:induction false} ConcatMember<T>(parts: seq<seq<T>>, x: T)
    requires x in Concat(parts)
    ensures exists j :: 0 <= j < |parts| && x in parts[j]
  {
    if parts != [] {
      if x in parts[0] {
      } else {
        ConcatMember(parts[1..], x);
        var j :| 0 <= j < |parts[1..]| && x in parts[1..][j];
        assert x in parts[j + 1];
      }
    }
  }

  /** Operations of other indices leave an index's buckets alone. */
  lemma PartsUntouched(parts: seq<seq<Op>>, indices: seq<Index>, b: BucketName)
    requires PartsOf(parts, indices)
    requires Lack(indices, b)
    ensures Untouched(Concat(parts), b)
  {
    forall op | op in Concat(parts) ensures op.bucket != b {
      ConcatMember(parts, op);
      var j :| 0 <= j < |parts| && op in parts[j];
      assert Safe(parts[j], BucketsOf(indices[j]));
    }
  }

  lemma PartsSafe(parts: seq<seq<Op>>, indices: seq<Index>, names: set<BucketName>)
    requires PartsOf(parts, indices)
    requires forall j :: 0 <= j < |indices| ==> BucketsOf(indices[j]) <= names
    ensures Safe(Concat(parts), names)
  {
    forall op | op in Concat(parts)
      ensures op.bucket in names && (op.Put? ==> op.key != []) && !op.EnsureBucket? && !op.DeleteBucket?
              && (op.PutWithSequence? || op.PutWithReusedSequence? ==> op.fn == SeqIsValue ==> op.key != [])
    {
      ConcatMember(parts, op);
      var j :| 0 <= j < |parts| && op in parts[j];
      assert Safe(parts[j], BucketsOf(indices[j]));
    }
  }

  lemma {:induction false} PartsDrawFirst(parts: seq<seq<Op>>)
    requires forall j :: 0 <= j < |parts| ==> DrawsFirst(parts[j])
    ensures DrawsFirst(Concat(parts))
  {
    if parts != [] {
      forall j | 0 <= j < |parts[1..]| ensures DrawsFirst(parts[1..][j]) { assert parts[1..][j] == parts[j + 1]; }
      PartsDrawFirst(parts[1..]);
      DrawsFirstAppend(parts[0], Concat(parts[1..]));
    }
  }

  lemma ConcatAround<T>(parts: seq<seq<T>>, j: nat)
    requires j < |parts|
    ensures Concat(parts) == Concat(parts[..j]) + (parts[j] + Concat(parts[j + 1..]))
  {
    var head, rest := parts[..j], parts[j..];
    assert parts == head + rest;
    ConcatAppend(head, rest);
    assert rest[0] == parts[j] && rest[1..] == parts[j + 1..];
  }

  /** For one index, replaying everybody's parts is replaying its own. */
  lemma OwnPart(parts: seq<seq<Op>>, indices: seq<Index>, j: nat, m: Machine)
    requires PartsOf(parts, indices) && DistinctIndices(indices) && j < |indices| && !m.failed
    requires forall k :: 0 <= k < |indices| ==> BucketsOf(indices[k]) <= m.store.Keys
    ensures var before := Replay(Concat(parts[..j]), m);
            && !before.failed && SameBuckets(indices[j], m.store, before.store)
            && !Replay(parts[j], before).failed && !Replay(Concat(parts), m).failed
            && Replay(Concat(parts), m).store.Keys == m.store.Keys
            && SameBuckets(indices[j], Replay(parts[j], before).store, Replay(Concat(parts), m).store)
  {
    var before, after := Concat(parts[..j]), Concat(parts[j + 1..]);
    assert PartsOf(parts[..j], indices[..j]) && PartsOf(parts[j + 1..], indices[j + 1..]);
    ConcatAround(parts, j);
    var m1 := Replay(before, m);
    var m2 := Replay(parts[j], m1);
    ReplayAppend(before, parts[j] + after, m);
    ReplayAppend(parts[j], after, m1);
    PartsSafe(parts[..j], indices[..j], m.store.Keys);
    ReplaySafe(before, m);
    assert Safe(parts[j], m1.store.Keys);
    ReplaySafe(parts[j], m1);
    PartsSafe(parts[j + 1..], indices[j + 1..], m2.store.Keys);
    ReplaySafe(after, m2);
    forall b | b in BucketsOf(indices[j])
      ensures b in m1.store && m1.store[b] == m.store[b]
      ensures b in Replay(after, m2).store && Replay(after, m2).store[b] == m2.store[b]
    {
      OthersLack(indices, j, b);
      PartsUntouched(parts[..j], indices[..j], b);
      ReplayFrame(before, m, b);
      PartsUntouched(parts[j + 1..], indices[j + 1..], b);
      ReplayFrame(after, m2, b);
    }
  }

  lemma OthersLack(indices: seq<Index>, j: nat, b: BucketName)
    requires DistinctIndices(indices) && j < |indices| && b in BucketsOf(indices[j])
    ensures Lack(indices[..j], b) && Lack(indices[j + 1..], b)
  {
    var rest := indices[j + 1..];
    forall k | 0 <= k < |rest| ensures b !in BucketsOf(rest[k]) {
      assert rest[k] == indices[j + 1 + k];
    }
  }

  ghost predicate Lack(indices: seq<Index>, b: BucketName) {
    forall k :: 0 <= k < |indices| ==> b !in BucketsOf(indices[k])
  }

  /** No index owns the document buckets. */
  lemma DocumentBucketsApart(indices: seq<Index>)
    ensures Lack(indices, Docs) && Lack(indices, Leaves) && Lack(indices, AttRefs)
  {
  }
}
