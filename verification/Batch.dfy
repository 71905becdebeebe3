/** One transaction writing several documents against one snapshot leaves the
    same store as one transaction a document. */
module Batch {
  import opened ByteStrings
  import opened Documents
  import opened DocStore
  import opened Effects
  import opened Engine
  import opened IndexInvariants
  import opened Indexes
  import opened Revisions
  import opened Runs
  import opened SortedKeys
  import opened StoreInvariant
  import opened ViewRep
  import opened Writers

  /** The operations of all the writes, each planned against the snapshot. */
  function BatchOps(env: Env, snapshot: Store, ws: seq<Write>): seq<Op>
    decreases ws
  {
    if ws == [] then [] else PlanOf(env, snapshot, ws[0]).ops + BatchOps(env, snapshot, ws[1..])
  }

  /******* What a plan reads *******/

  ghost predicate SameAt(a: map<Bytes, Value>, b: map<Bytes, Value>, k: Bytes) {
    (k in a <==> k in b) && (k in a ==> a[k] == b[k])
  }

  ghost predicate SameUnder(a: map<Bytes, Value>, b: map<Bytes, Value>, p: Bytes) {
    forall k :: p <= k ==> SameAt(a, b, k)
  }

  ghost predicate SameRecords(a: map<Bytes, Value>, b: map<Bytes, Value>, id: Bytes) {
    forall k :: RecordOf(k, id) ==> SameAt(a, b, k)
  }

  /** The two stores look alike to a writer of this ID. */
  ghost predicate LookAlike(s: Store, t: Store, id: Bytes) {
    && SameAt(Entries(s, Docs), Entries(t, Docs), id)
    && SameUnder(Entries(s, Leaves), Entries(t, Leaves), id + [0])
    && SameAt(Entries(s, ChangesInv), Entries(t, ChangesInv), id)
    && (forall n :: SameRecords(Entries(s, ViewInv(n)), Entries(t, ViewInv(n)), id))
    && (forall n :: SameAt(Entries(s, MangoInv(n)), Entries(t, MangoInv(n)), id))
  }

  lemma SameLeafRevs(s: Store, t: Store, id: Bytes)
    requires SameUnder(Entries(s, Leaves), Entries(t, Leaves), id + [0])
    ensures LeafRevs(s, id) == LeafRevs(t, id)
    ensures forall r :: GetLeaf(s, id, r) == GetLeaf(t, id, r)
  {
    var p, a, b := id + [0], Entries(s, Leaves), Entries(t, Leaves);
    assert (set k | k in a && p <= k) == (set k | k in b && p <= k) by {
      forall k ensures k in a && p <= k <==> k in b && p <= k {
        if p <= k { assert SameAt(a, b, k); }
      }
    }
    forall r ensures GetLeaf(s, id, r) == GetLeaf(t, id, r) {
      LeafOpAbout(id, r);
      assert SameAt(a, b, LeafKey(id, r));
    }
  }

  lemma {:induction false} SameBranches(s: Store, t: Store, id: Bytes, rev: Bytes, history: seq<Bytes>, leaves: seq<Bytes>)
    requires forall r :: GetLeaf(s, id, r) == GetLeaf(t, id, r)
    ensures AddBranches(s, id, rev, history, leaves) == AddBranches(t, id, rev, history, leaves)
    decreases leaves
  {
    if leaves != [] {
      var leaf := GetLeaf(s, id, leaves[0]);
      var next := if leaves[0] != rev && leaf.Some? then AppendNew(history, leaf.value.history) else history;
      SameBranches(s, t, id, rev, next, leaves[1..]);
    }
  }

  /** Entries sit under the ID they carry. */
  ghost predicate Addressed(s: Store) {
    forall id :: id in Entries(s, Docs) && Entries(s, Docs)[id].Doc? ==> Entries(s, Docs)[id].doc.id == id
  }

  lemma SameWithBranches(s: Store, t: Store, d: Document)
    requires SameUnder(Entries(s, Leaves), Entries(t, Leaves), d.id + [0])
    ensures WithBranches(s, d) == WithBranches(t, d)
  {
    SameLeafRevs(s, t, d.id);
    SameBranches(s, t, d.id, d.rev, d.history, LeafRevs(s, d.id));
  }

  lemma SameRead(s: Store, t: Store, id: Bytes)
    requires Addressed(s) && LookAlike(s, t, id)
    ensures GetDocument(s, id) == GetDocument(t, id)
  {
    var docs := Entries(s, Docs);
    if id in docs && docs[id].Doc? {
      var d := WithMeta(docs[id].doc);
      assert WithSequence(s, d) == WithSequence(t, d);
      if WithSequence(s, d).Some? { SameWithBranches(s, t, WithSequence(s, d).value); }
    }
  }

  lemma {:induction false} SameRemovalOps(n: nat, a: map<Bytes, Value>, b: map<Bytes, Value>, keys: seq<Bytes>)
    requires forall k :: k in keys ==> k in a && k in b && a[k] == b[k]
    ensures RemovalOps(n, a, keys) == RemovalOps(n, b, keys)
    decreases keys
  {
    if keys != [] { SameRemovalOps(n, a, b, keys[1..]); }
  }

  lemma SameRemoveOldKeys(s: Store, t: Store, n: nat, id: Bytes)
    requires SameRecords(Entries(s, ViewInv(n)), Entries(t, ViewInv(n)), id)
    ensures RemoveOldKeysOps(s, n, id) == RemoveOldKeysOps(t, n, id)
  {
    var a, b := Entries(s, ViewInv(n)), Entries(t, ViewInv(n));
    assert (set k | k in a && RecordOf(k, id)) == (set k | k in b && RecordOf(k, id)) by {
      forall k ensures k in a && RecordOf(k, id) <==> k in b && RecordOf(k, id) {
        if RecordOf(k, id) { assert SameAt(a, b, k); }
      }
    }
    forall k | k in RecordKeys(a, id) ensures k in b && a[k] == b[k] {
      assert RecordOf(k, id);
      assert SameAt(a, b, k);
    }
    SameRemovalOps(n, a, b, RecordKeys(a, id));
  }

  lemma SameIndexOps(i: Index, s: Store, t: Store, doc: Document)
    requires LookAlike(s, t, doc.id)
    ensures DocumentDeleted(i, s, doc) == DocumentDeleted(i, t, doc)
    ensures DocumentStored(i, s, doc) == DocumentStored(i, t, doc)
  {
    match i
    case ViewIndex(n, _) =>
      assert SameRecords(Entries(s, ViewInv(n)), Entries(t, ViewInv(n)), doc.id);
      SameRemoveOldKeys(s, t, n, doc.id);
    case MangoIndex(n, _, _) =>
      assert SameAt(Entries(s, MangoInv(n)), Entries(t, MangoInv(n)), doc.id);
    case _ =>
  }

  lemma SameAllIndexOps(env: Env, s: Store, t: Store, stored: Option<Document>, doc: Document)
    requires LookAlike(s, t, doc.id) && (stored.Some? ==> stored.value.id == doc.id)
    ensures RemovalOf(env, s, stored) == RemovalOf(env, t, stored)
    ensures AllStored(env.indices, s, doc) == AllStored(env.indices, t, doc)
  {
    forall j | 0 <= j < |env.indices|
      ensures DocumentStored(env.indices[j], s, doc) == DocumentStored(env.indices[j], t, doc)
    {
      SameIndexOps(env.indices[j], s, t, doc);
    }
    assert StoredParts(env.indices, s, doc) == StoredParts(env.indices, t, doc);
    if stored.Some? {
      forall j | 0 <= j < |env.indices|
        ensures DocumentDeleted(env.indices[j], s, stored.value) == DocumentDeleted(env.indices[j], t, stored.value)
      {
        SameIndexOps(env.indices[j], s, t, stored.value);
      }
      assert DeletedParts(env.indices, s, stored.value) == DeletedParts(env.indices, t, stored.value);
    }
  }

  /******* A plan depends on nothing else *******/

  ghost predicate LeavesAddressed(s: Store, id: Bytes) {
    forall r :: GetLeaf(s, id, r).Some? ==> GetLeaf(s, id, r).value.id == id
  }

  lemma InvAddresses(env: Env, s: Store, id: Bytes)
    requires Inv(env, s) && ValidId(id)
    ensures Addressed(s) && LeavesAddressed(s, id)
  {
    forall r | GetLeaf(s, id, r).Some? ensures GetLeaf(s, id, r).value.id == id {
      LeafAt(s[Docs].entries, s[Leaves].entries, id, r);
    }
  }

  lemma ReadId(s: Store, id: Bytes)
    requires Addressed(s)
    ensures StoredAt(s, id).Some? ==> StoredAt(s, id).value.id == id
  {
    var docs := Entries(s, Docs);
    if id in docs && docs[id].Doc? {
      var d := WithMeta(docs[id].doc);
      if WithSequence(s, d).Some? { BranchesExtend(s, WithSequence(s, d).value); }
    }
  }

  lemma SamePut(env: Env, s: Store, t: Store, doc: Document)
    requires Addressed(s) && LookAlike(s, t, doc.id)
    ensures PutPlan(env, s, doc) == PutPlan(env, t, doc)
  {
    SameRead(s, t, doc.id);
    ReadId(s, doc.id);
    var stored := StoredAt(s, doc.id);
    if Revision(doc).None? || DASH in Revision(doc).value {
      SameAllIndexOps(env, s, t, stored, Stamped(env, stored, doc));
    }
  }

  lemma SameWinnerOps(env: Env, s: Store, t: Store, stored: Option<Document>, id: Bytes, winner: Bytes,
                      wd: Option<Document>)
    requires LookAlike(s, t, id) && (stored.Some? ==> stored.value.id == id) && (wd.Some? ==> wd.value.id == id)
    ensures WinnerOps(env, s, stored, id, winner, wd) == WinnerOps(env, t, stored, id, winner, wd)
  {
    if wd.Some? { SameAllIndexOps(env, s, t, stored, wd.value); }
  }

  lemma SamePruning(s: Store, t: Store, stored: Option<Document>, doc: Document)
    requires LeafRevs(s, doc.id) == LeafRevs(t, doc.id) && doc.history != []
    requires stored.Some? ==> stored.value.id == doc.id
    ensures RemainingLeaves(s, stored, doc) == RemainingLeaves(t, stored, doc)
    ensures DeliveryOps(s, stored, doc) == DeliveryOps(t, stored, doc)
    ensures AdoptOps(s, stored, doc.id) == AdoptOps(t, stored, doc.id)
  {
  }

  lemma SameDeliveryLog(env: Env, s: Store, t: Store, stored: Option<Document>, doc: Document)
    requires LeavesAddressed(s, doc.id) && LookAlike(s, t, doc.id) && doc.history != []
    requires stored.Some? ==> stored.value.id == doc.id
    ensures RemainingLeaves(s, stored, doc) == RemainingLeaves(t, stored, doc)
    ensures RemainingLeaves(s, stored, doc) != {} ==> DeliveryLog(env, s, stored, doc) == DeliveryLog(env, t, stored, doc)
  {
    SameLeafRevs(s, t, doc.id);
    SamePruning(s, t, stored, doc);
    var left := RemainingLeaves(s, stored, doc);
    if left != {} {
      var winner := WinnerRev(Sorted(left));
      var wd := LeafOrSelf(s, doc, winner);
      SameLeafOrSelf(s, t, doc, winner);
      SameWinnerOps(env, s, t, stored, doc.id, winner, wd);
      DeliveryLogIs(env, s, stored, doc, left, winner, wd);
      DeliveryLogIs(env, t, stored, doc, left, winner, wd);
    }
  }

  lemma SameLeafOrSelf(s: Store, t: Store, doc: Document, winner: Bytes)
    requires LeavesAddressed(s, doc.id) && LookAlike(s, t, doc.id)
    ensures LeafOrSelf(s, doc, winner) == LeafOrSelf(t, doc, winner)
    ensures LeafOrSelf(s, doc, winner).Some? ==> LeafOrSelf(s, doc, winner).value.id == doc.id
  {
    SameLeafRevs(s, t, doc.id);
  }

  lemma DeliveryLogIs(env: Env, s: Store, stored: Option<Document>, doc: Document, left: set<Bytes>, winner: Bytes,
                      wd: Option<Document>)
    requires doc.history != [] && left == RemainingLeaves(s, stored, doc) && left != {}
    requires winner == WinnerRev(Sorted(left)) && wd == LeafOrSelf(s, doc, winner)
    ensures DeliveryLog(env, s, stored, doc)
         == AdoptOps(s, stored, doc.id) + DeliveryOps(s, stored, doc) + WinnerOps(env, s, stored, doc.id, winner, wd)
  {
  }

  lemma SameDelivery(env: Env, s: Store, t: Store, given: Document)
    requires Addressed(s) && LeavesAddressed(s, given.id) && LookAlike(s, t, given.id)
    ensures ReplicationPlan(env, s, given) == ReplicationPlan(env, t, given)
  {
    SameRead(s, t, given.id);
    ReadId(s, given.id);
    var doc := given.(history := SuppliedHistory(given));
    if doc.history != [] { SameDeliveryLog(env, s, t, StoredAt(s, given.id), doc); }
  }

  lemma SameBranchWinner(s: Store, t: Store, stored: Document, rev: Bytes, d: Document, winner: Bytes)
    requires LeafRevs(s, d.id) == LeafRevs(t, d.id) && GetLeaf(s, d.id, winner) == GetLeaf(t, d.id, winner)
    ensures LeavesWithTombstone(s, rev, d) == LeavesWithTombstone(t, rev, d)
    ensures BranchWinner(s, stored, d, winner) == BranchWinner(t, stored, d, winner)
  {
  }

  lemma SameBranchLog(env: Env, s: Store, t: Store, stored: Document, rev: Bytes, d: Document)
    requires LookAlike(s, t, d.id) && LeavesAddressed(s, d.id) && stored.id == d.id
    ensures BranchLog(env, s, stored, rev, d) == BranchLog(env, t, stored, rev, d)
  {
    SameLeafRevs(s, t, d.id);
    var winner := WinnerRev(Sorted(LeavesWithTombstone(s, rev, d)));
    var wd := BranchWinner(s, stored, d, winner);
    SameBranchWinner(s, t, stored, rev, d, winner);
    BranchWinnerId(s, stored, d, winner);
    SameWinnerOps(env, s, t, Some(stored), d.id, winner, wd);
    BranchLogIs(env, s, stored, rev, d, winner, wd);
    BranchLogIs(env, t, stored, rev, d, winner, wd);
  }

  lemma BranchWinnerId(s: Store, stored: Document, d: Document, winner: Bytes)
    requires LeavesAddressed(s, d.id) && stored.id == d.id
    ensures var wd := BranchWinner(s, stored, d, winner); wd.Some? ==> wd.value.id == d.id
  {
  }

  lemma BranchLogIs(env: Env, s: Store, stored: Document, rev: Bytes, d: Document, winner: Bytes, wd: Option<Document>)
    requires winner == WinnerRev(Sorted(LeavesWithTombstone(s, rev, d))) && wd == BranchWinner(s, stored, d, winner)
    ensures BranchLog(env, s, stored, rev, d)
         == [DeleteLeaf(d.id, rev), PutLeaf(d)] + WinnerOps(env, s, Some(stored), d.id, winner, wd)
  {
  }

  lemma SameRemoval(env: Env, s: Store, t: Store, id: Bytes, rev: Bytes)
    requires Addressed(s) && LeavesAddressed(s, id) && LookAlike(s, t, id)
    ensures DeletePlan(env, s, id, rev) == DeletePlan(env, t, id, rev)
  {
    SameRead(s, t, id);
    if GetDocument(s, id).Found? {
      ReadId(s, id);
      SameRemovalOf(env, s, t, id, rev, GetDocument(s, id).doc);
    }
  }

  lemma SameRemovalOf(env: Env, s: Store, t: Store, id: Bytes, rev: Bytes, stored: Document)
    requires Addressed(s) && LeavesAddressed(s, id) && LookAlike(s, t, id) && stored.id == id
    requires GetDocument(s, id) == Found(stored) == GetDocument(t, id)
    ensures DeletePlan(env, s, id, rev) == DeletePlan(env, t, id, rev)
  {
    if stored.rev == rev {
      SamePut(env, s, t, Tombstone(id, rev));
    } else {
      SameLeafRevs(s, t, id);
      SameBranchRemoval(env, s, t, id, rev, stored, GetLeaf(s, id, rev));
    }
  }

  lemma SameBranchRemoval(env: Env, s: Store, t: Store, id: Bytes, rev: Bytes, stored: Document, leaf: Option<Document>)
    requires LookAlike(s, t, id) && LeavesAddressed(s, id) && stored.id == id && stored.rev != rev
    requires GetDocument(s, id) == Found(stored) == GetDocument(t, id)
    requires LeafRevs(s, id) == LeafRevs(t, id) && GetLeaf(s, id, rev) == leaf == GetLeaf(t, id, rev)
    ensures DeletePlan(env, s, id, rev) == DeletePlan(env, t, id, rev)
  {
    RemovalUnfolds(env, s, id, rev, stored, leaf);
    RemovalUnfolds(env, t, id, rev, stored, leaf);
    if leaf.Some? && (rev == [] || DASH in rev) {
      SameBranchLog(env, s, t, stored, rev, BranchTombstone(env, id, rev, leaf.value));
    }
  }

  lemma SamePlan(env: Env, s: Store, t: Store, w: Write)
    requires Inv(env, s) && ValidId(IdOf(w)) && LookAlike(s, t, IdOf(w))
    ensures PlanOf(env, s, w) == PlanOf(env, t, w)
  {
    InvAddresses(env, s, IdOf(w));
    match w
    case Edit(doc) => SamePut(env, s, t, doc);
    case Deliver(doc) => SameDelivery(env, s, t, doc);
    case Remove(id, rev) => SameRemoval(env, s, t, id, rev);
  }

  /******* A plan disturbs no other ID *******/

  /** The operation writes nothing that a writer of another ID reads. */
  ghost predicate OpAbout(op: Op, id: Bytes) {
    match op.bucket
    case Docs => (op.Put? || op.Delete?) && op.key == id
    case Leaves => (op.Put? || op.Delete?) && id + [0] <= op.key
    case ChangesInv => (op.Delete? || (op.PutWithSequence? && op.fn == SeqIsValue)) && op.key == id
    case ViewInv(_) => (op.Delete? && RecordOf(op.key, id))
                       || (op.PutWithReusedSequence? && op.fn == RowRecord && op.key == id)
    case MangoInv(_) => (op.Put? || op.Delete?) && op.key == id
    case _ => !op.EnsureBucket? && !op.DeleteBucket?
  }

  ghost predicate OpsAbout(ops: seq<Op>, id: Bytes) {
    forall op :: op in ops ==> OpAbout(op, id)
  }

  lemma {:induction false} RemovalAbout(n: nat, inv: map<Bytes, Value>, keys: seq<Bytes>, id: Bytes)
    requires forall k :: k in keys ==> k in inv && RecordOf(k, id)
    ensures OpsAbout(RemovalOps(n, inv, keys), id)
    decreases keys
  {
    if keys != [] { RemovalAbout(n, inv, keys[1..], id); }
  }

  lemma {:induction false} RowsAbout(n: nat, id: Bytes, rows: seq<Row>)
    ensures OpsAbout(RowOps(n, id, rows), id)
    decreases rows
  {
    if rows != [] { RowsAbout(n, id, rows[1..]); }
  }

  lemma IndexOpsAbout(i: Index, s: Store, doc: Document)
    ensures OpsAbout(DocumentDeleted(i, s, doc), doc.id) && OpsAbout(DocumentStored(i, s, doc), doc.id)
  {
    match i
    case ViewIndex(n, mapFn) =>
      var inv := Entries(s, ViewInv(n));
      RemovalAbout(n, inv, RecordKeys(inv, doc.id), doc.id);
      RowsAbout(n, doc.id, RowsFor(mapFn, doc));
    case _ =>
  }

  lemma PartsAbout(parts: seq<seq<Op>>, id: Bytes)
    requires forall j :: 0 <= j < |parts| ==> OpsAbout(parts[j], id)
    ensures OpsAbout(Concat(parts), id)
  {
    forall op | op in Concat(parts) ensures OpAbout(op, id) {
      ConcatMember(parts, op);
      var j :| 0 <= j < |parts| && op in parts[j];
      assert OpsAbout(parts[j], id);
    }
  }

  lemma ReplaceAbout(env: Env, s: Store, ops: seq<Op>, id: Bytes, pre: seq<Op>, stored: Option<Document>, mid: seq<Op>,
                     d: Document)
    requires IsReplacement(env, s, ops, id, pre, stored, mid, d)
    ensures OpsAbout(ops, id)
  {
    var stores := StoredParts(env.indices, s, d);
    forall j | 0 <= j < |stores| ensures OpsAbout(stores[j], id) { IndexOpsAbout(env.indices[j], s, d); }
    PartsAbout(stores, id);
    if stored.Some? {
      var dels := DeletedParts(env.indices, s, stored.value);
      forall j | 0 <= j < |dels| ensures OpsAbout(dels[j], id) { IndexOpsAbout(env.indices[j], s, stored.value); }
      PartsAbout(dels, id);
    }
  }

  lemma PlanAbout(env: Env, s: Store, w: Write)
    requires Inv(env, s) && Acceptable(env, w)
    ensures OpsAbout(PlanOf(env, s, w).ops, IdOf(w))
  {
    var ops, id := PlanOf(env, s, w).ops, IdOf(w);
    PlanShaped(env, s, w);
    if !DocAbout(ops, id) {
      var pre, stored, mid, d :| IsReplacement(env, s, ops, id, pre, stored, mid, d);
      ReplaceAbout(env, s, ops, id, pre, stored, mid, d);
    }
  }

  /** The one key an operation about an ID writes, in a bucket others read. */
  ghost function WrittenKey(op: Op, m: Machine): Bytes {
    if op.PutWithReusedSequence? then SeqSuffixed(op.key, m.seqNo)
    else if op.EnsureBucket? || op.DeleteBucket? then []
    else op.key
  }

  lemma StepElsewhere(op: Op, m: Machine, b: BucketName)
    requires b != op.bucket
    ensures Entries(m.store, b) == Entries(Step(op, m).store, b)
  {
  }

  lemma StepTouches(op: Op, m: Machine, id: Bytes, k: Bytes)
    requires OpAbout(op, id) && op.bucket in m.store && k != WrittenKey(op, m)
    requires op.bucket == Docs || op.bucket == Leaves || op.bucket == ChangesInv
             || op.bucket.ViewInv? || op.bucket.MangoInv?
    ensures SameAt(Entries(m.store, op.bucket), Entries(Step(op, m).store, op.bucket), k)
  {
  }

  lemma PrefixesApart(id: Bytes, other: Bytes, k: Bytes)
    requires 0 !in id && 0 !in other && id != other && id + [0] <= k
    ensures !(other + [0] <= k)
  {
    var p, q := id + [0], other + [0];
    assert k[..|p|] == p && k[|id|] == 0;
    if |id| == |other| {
      assert k[..|id|] == p[..|id|] == id;
      assert q[..|id|] == other;
    } else if |other| < |id| {
      assert k[|other|] == p[|other|] == id[|other|] && id[|other|] in id;
      assert q[|other|] != k[|other|];
    } else {
      assert q[|id|] == other[|id|] && other[|id|] in other;
      assert q[|id|] != k[|id|];
    }
  }

  lemma RecordsApart(k: Bytes, id: Bytes, other: Bytes)
    requires RecordOf(k, id) && id != other
    ensures !RecordOf(k, other)
  {
    if |id| == |other| { assert k[..|id|] == id; }
  }

  lemma StepKeepsLeaves(op: Op, m: Machine, id: Bytes, other: Bytes)
    requires OpAbout(op, id) && op.bucket in m.store && ValidId(id) && ValidId(other) && id != other
    ensures SameUnder(Entries(m.store, Leaves), Entries(Step(op, m).store, Leaves), other + [0])
  {
    if op.bucket == Leaves {
      PrefixesApart(id, other, op.key);
      forall k | other + [0] <= k ensures SameAt(Entries(m.store, Leaves), Entries(Step(op, m).store, Leaves), k) {
        StepTouches(op, m, id, k);
      }
    } else {
      StepElsewhere(op, m, Leaves);
    }
  }

  lemma StepKeepsRecords(op: Op, m: Machine, id: Bytes, other: Bytes, n: nat)
    requires OpAbout(op, id) && op.bucket in m.store && ValidId(id) && ValidId(other) && id != other
    ensures SameRecords(Entries(m.store, ViewInv(n)), Entries(Step(op, m).store, ViewInv(n)), other)
  {
    if op.bucket == ViewInv(n) {
      RecordOfExact(id, m.seqNo, id);
      RecordsApart(WrittenKey(op, m), id, other);
      forall k | RecordOf(k, other)
        ensures SameAt(Entries(m.store, ViewInv(n)), Entries(Step(op, m).store, ViewInv(n)), k)
      {
        StepTouches(op, m, id, k);
      }
    } else {
      StepElsewhere(op, m, ViewInv(n));
    }
  }

  lemma StepKeepsEntry(op: Op, m: Machine, id: Bytes, other: Bytes, b: BucketName)
    requires OpAbout(op, id) && op.bucket in m.store && id != other
    requires b == Docs || b == ChangesInv || b.MangoInv?
    ensures SameAt(Entries(m.store, b), Entries(Step(op, m).store, b), other)
  {
    if op.bucket == b { StepTouches(op, m, id, other); } else { StepElsewhere(op, m, b); }
  }

  /** One operation about an ID leaves the store looking the same to any other. */
  lemma StepKeepsLook(op: Op, m: Machine, id: Bytes, other: Bytes)
    requires OpAbout(op, id) && op.bucket in m.store && ValidId(id) && ValidId(other) && id != other
    ensures LookAlike(m.store, Step(op, m).store, other)
  {
    StepKeepsEntry(op, m, id, other, Docs);
    StepKeepsEntry(op, m, id, other, ChangesInv);
    StepKeepsLeaves(op, m, id, other);
    forall n ensures SameRecords(Entries(m.store, ViewInv(n)), Entries(Step(op, m).store, ViewInv(n)), other) {
      StepKeepsRecords(op, m, id, other, n);
    }
    forall n ensures SameAt(Entries(m.store, MangoInv(n)), Entries(Step(op, m).store, MangoInv(n)), other) {
      StepKeepsEntry(op, m, id, other, MangoInv(n));
    }
  }

  lemma LookTransitive(s: Store, t: Store, u: Store, id: Bytes)
    requires LookAlike(s, t, id) && LookAlike(t, u, id)
    ensures LookAlike(s, u, id)
  {
    var p := id + [0];
    forall k | p <= k ensures SameAt(Entries(s, Leaves), Entries(u, Leaves), k) {
      assert SameAt(Entries(s, Leaves), Entries(t, Leaves), k) && SameAt(Entries(t, Leaves), Entries(u, Leaves), k);
    }
    forall n ensures SameRecords(Entries(s, ViewInv(n)), Entries(u, ViewInv(n)), id) {
      RecordsTransitive(Entries(s, ViewInv(n)), Entries(t, ViewInv(n)), Entries(u, ViewInv(n)), id);
    }
    forall n ensures SameAt(Entries(s, MangoInv(n)), Entries(u, MangoInv(n)), id) {
      assert SameAt(Entries(s, MangoInv(n)), Entries(t, MangoInv(n)), id)
          && SameAt(Entries(t, MangoInv(n)), Entries(u, MangoInv(n)), id);
    }
  }

  lemma RecordsTransitive(a: map<Bytes, Value>, b: map<Bytes, Value>, c: map<Bytes, Value>, id: Bytes)
    requires SameRecords(a, b, id) && SameRecords(b, c, id)
    ensures SameRecords(a, c, id)
  {
    forall k | RecordOf(k, id) ensures SameAt(a, c, k) {
      assert SameAt(a, b, k) && SameAt(b, c, k);
    }
  }

  lemma {:induction false} ReplayKeepsLook(ops: seq<Op>, m: Machine, id: Bytes, other: Bytes)
    requires OpsAbout(ops, id) && Safe(ops, m.store.Keys) && !m.failed
    requires ValidId(id) && ValidId(other) && id != other
    ensures LookAlike(m.store, Replay(ops, m).store, other)
    decreases ops
  {
    if ops != [] {
      assert ops[0] in ops;
      var next := Step(ops[0], m);
      StepKeepsLook(ops[0], m, id, other);
      assert OpsAbout(ops[1..], id) && Safe(ops[1..], next.store.Keys);
      ReplayKeepsLook(ops[1..], next, id, other);
      LookTransitive(m.store, next.store, Replay(ops[1..], next).store, other);
    }
  }

  /******* The batch *******/

  ghost predicate DistinctIds(ws: seq<Write>) {
    forall j, k :: 0 <= j < k < |ws| ==> IdOf(ws[j]) != IdOf(ws[k])
  }

  ghost predicate LooksFresh(snapshot: Store, current: Store, ws: seq<Write>) {
    forall w :: w in ws ==> LookAlike(snapshot, current, IdOf(w))
  }

  /** Replaying one plan on a machine is committing it on its own. */
  lemma ReplayIsCommit(env: Env, w: Write, m: Machine)
    requires Inv(env, m.store) && Acceptable(env, w) && !m.failed
    ensures var ops := PlanOf(env, m.store, w).ops;
            !Replay(ops, m).failed && Replay(ops, m).store == Committed(ops, m.store)
  {
    var ops := PlanOf(env, m.store, w).ops;
    PlanSound(env, m.store, w);
    ReplaySafe(ops, m);
    ReplaySafe(ops, Machine(m.store, 0, false));
    LeftoverIrrelevant(ops, m, 0);
  }

  lemma StillFresh(env: Env, snapshot: Store, m: Machine, ws: seq<Write>)
    requires ws != [] && Inv(env, m.store) && AllAcceptable(env, ws) && DistinctIds(ws) && !m.failed
    requires LooksFresh(snapshot, m.store, ws)
    ensures LooksFresh(snapshot, Replay(PlanOf(env, m.store, ws[0]).ops, m).store, ws[1..])
  {
    var w, ops := ws[0], PlanOf(env, m.store, ws[0]).ops;
    assert w in ws;
    PlanSound(env, m.store, w);
    PlanAbout(env, m.store, w);
    AcceptableId(env, w);
    forall v | v in ws[1..] ensures LookAlike(snapshot, Replay(ops, m).store, IdOf(v)) {
      assert v in ws;
      AcceptableId(env, v);
      ReplayKeepsLook(ops, m, IdOf(w), IdOf(v));
      LookTransitive(snapshot, m.store, Replay(ops, m).store, IdOf(v));
    }
  }

  lemma {:induction false} BatchReplay(env: Env, snapshot: Store, m: Machine, ws: seq<Write>)
    requires Inv(env, snapshot) && Inv(env, m.store) && !m.failed
    requires AllAcceptable(env, ws) && DistinctIds(ws) && LooksFresh(snapshot, m.store, ws)
    requires FitsAlong(env, m.store, ws) && KeysFit(BatchOps(env, snapshot, ws))
    ensures !Replay(BatchOps(env, snapshot, ws), m).failed
    ensures Replay(BatchOps(env, snapshot, ws), m).store == Run(env, m.store, ws)
    decreases ws
  {
    if ws != [] {
      var w := ws[0];
      assert w in ws;
      AcceptableId(env, w);
      SamePlan(env, snapshot, m.store, w);
      var ops := PlanOf(env, m.store, w).ops;
      ReplayIsCommit(env, w, m);
      WriteKeeps(env, m.store, w);
      StillFresh(env, snapshot, m, ws);
      ReplayAppend(ops, BatchOps(env, snapshot, ws[1..]), m);
      BatchReplay(env, snapshot, Replay(ops, m), ws[1..]);
    }
  }

  lemma LooksLikeItself(s: Store, id: Bytes)
    ensures LookAlike(s, s, id)
  {
  }

  /** A single transaction writing distinct documents, every read against the
      committed state, leaves exactly what committing each write on its own in that
      order leaves: documents, leaves, every index and every counter. If a key is too
      long for one of them, none is written. */
  lemma BatchEqualsSequence(env: Env, s: Store, ws: seq<Write>)
    requires Inv(env, s) && AllAcceptable(env, ws) && DistinctIds(ws) && FitsAlong(env, s, ws)
    ensures var ops := BatchOps(env, s, ws);
            && Landed(ops, s) == (if KeysFit(ops) then Run(env, s, ws) else s)
            && Lands(ops, s) == KeysFit(ops) && Inv(env, Landed(ops, s))
  {
    if KeysFit(BatchOps(env, s, ws)) {
      forall w | w in ws ensures LookAlike(s, s, IdOf(w)) { LooksLikeItself(s, IdOf(w)); }
      BatchReplay(env, s, Machine(s, 0, false), ws);
      RunKeeps(env, s, ws);
    }
  }
}
