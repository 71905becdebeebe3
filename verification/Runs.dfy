/** Runs: sequences of committed writes from an empty database. */
module Runs {
  import opened ByteStrings
  import opened ConflictWriters
  import opened Documents
  import opened DocStore
  import opened Effects
  import opened Engine
  import opened IndexInvariants
  import opened Indexes
  import opened Revisions
  import opened SortedKeys
  import opened StoreInvariant
  import opened ViewRep
  import opened Writers

  datatype Write =
    | Edit(doc: Document)
    | Deliver(doc: Document)
    | Remove(target: Bytes, rev: Bytes)

  function IdOf(w: Write): Bytes {
    match w
    case Edit(doc) => doc.id
    case Deliver(doc) => doc.id
    case Remove(id, _) => id
  }

  function PlanOf(env: Env, s: Store, w: Write): Plan {
    match w
    case Edit(doc) => PutPlan(env, s, doc)
    case Deliver(doc) => ReplicationPlan(env, s, doc)
    case Remove(id, rev) => DeletePlan(env, s, id, rev)
  }

  /** What callers are expected to pass. */
  ghost predicate Acceptable(env: Env, w: Write) {
    match w
    case Edit(doc) => ValidId(doc.id) && Admitted(env, doc)
    case Deliver(doc) => SoundDelivery(Delivered(doc)) && Admitted(env, doc)
    case Remove(id, _) => ValidId(id)
  }

  lemma AcceptableId(env: Env, w: Write)
    requires Acceptable(env, w)
    ensures ValidId(IdOf(w))
  {
  }

  /** One transaction a write. */
  function Run(env: Env, s: Store, ws: seq<Write>): Store
    decreases ws
  {
    if ws == [] then s else Run(env, Landed(PlanOf(env, s, ws[0]).ops, s), ws[1..])
  }

  /******* The empty database *******/

  ghost function AllBuckets(indices: seq<Index>): set<BucketName> {
    if indices == [] then DOC_BUCKETS else BucketsOf(indices[0]) + AllBuckets(indices[1..])
  }

  ghost function EmptyStore(env: Env): Store {
    map b | b in AllBuckets(env.indices) :: Bucket(map[], 0)
  }

  lemma {:induction false} HasAllBuckets(indices: seq<Index>)
    ensures DOC_BUCKETS <= AllBuckets(indices)
    ensures forall j :: 0 <= j < |indices| ==> BucketsOf(indices[j]) <= AllBuckets(indices)
  {
    if indices != [] {
      HasAllBuckets(indices[1..]);
      forall j | 0 <= j < |indices| ensures BucketsOf(indices[j]) <= AllBuckets(indices) {
        if j > 0 { assert indices[j] == indices[1..][j - 1]; }
      }
    }
  }

  lemma EmptyAgrees(i: Index, s: Store)
    requires BucketsOf(i) <= s.Keys && forall b :: b in s ==> s[b] == Bucket(map[], 0)
    ensures IndexAgrees(i, s, map[])
  {
    match i
    case ViewIndex(n, mapFn) =>
      var p := Placement(map[], map[]);
      assert Represents(s[View(n)], s[ViewInv(n)], p);
      assert ViewAgrees(s[View(n)], s[ViewInv(n)], mapFn, map[], p);
    case MangoIndex(n, fields, encode) =>
      assert MangoKeys(fields, encode, map[]) == map[];
    case _ =>
  }

  lemma EmptyStoreInv(env: Env)
    requires EnvOk(env)
    ensures Inv(env, EmptyStore(env))
  {
    var s := EmptyStore(env);
    HasAllBuckets(env.indices);
    assert WinnersOf(s[Docs].entries) == map[];
    forall j | 0 <= j < |env.indices| ensures IndexAgrees(env.indices[j], s, map[]) {
      EmptyAgrees(env.indices[j], s);
    }
  }

  /******* Counters only grow *******/

  ghost predicate CountersGrow(s: Store, t: Store) {
    forall b :: b in s ==> b in t && s[b].counter <= t[b].counter
  }

  ghost predicate KeepsBuckets(ops: seq<Op>) {
    forall op :: op in ops ==> !op.DeleteBucket?
  }

  lemma {:induction false} ReplayGrows(ops: seq<Op>, m: Machine)
    requires KeepsBuckets(ops)
    ensures CountersGrow(m.store, Replay(ops, m).store)
    decreases ops
  {
    if ops != [] {
      assert ops[0] in ops;
      assert KeepsBuckets(ops[1..]);
      assert CountersGrow(m.store, Step(ops[0], m).store);
      ReplayGrows(ops[1..], Step(ops[0], m));
    }
  }

  /******* What every plan looks like *******/

  ghost predicate Sound(ops: seq<Op>, names: set<BucketName>) {
    Safe(ops, names) && DrawsFirst(ops)
  }

  lemma SoundAppend(xs: seq<Op>, ys: seq<Op>, names: set<BucketName>)
    requires Sound(xs, names) && Sound(ys, names)
    ensures Sound(xs + ys, names)
  {
    SafeAppend(xs, ys, names);
    DrawsFirstAppend(xs, ys);
  }

  lemma {:induction false} PlainDrawsFirst(ops: seq<Op>)
    requires forall op :: op in ops ==> op.Put? || op.Delete?
    ensures DrawsFirst(ops)
    decreases ops
  {
    if ops != [] {
      assert ops[0] in ops;
      PlainDrawsFirst(ops[1..]);
    }
  }

  lemma DocOpsSound(ops: seq<Op>, names: set<BucketName>)
    requires DocOps(ops) && DOC_BUCKETS <= names
    ensures Sound(ops, names)
  {
    PlainDrawsFirst(ops);
  }

  lemma IndexOpsSound(env: Env, s: Store, stored: Option<Document>, d: Document, names: set<BucketName>)
    requires d.id != [] && forall j :: 0 <= j < |env.indices| ==> BucketsOf(env.indices[j]) <= names
    ensures Sound(RemovalOf(env, s, stored), names) && Sound(AllStored(env.indices, s, d), names)
  {
    StoredPartsOf(env.indices, s, d);
    PartsSafe(StoredParts(env.indices, s, d), env.indices, names);
    PartsDrawFirst(StoredParts(env.indices, s, d));
    if stored.Some? {
      DeletedPartsOf(env.indices, s, stored.value);
      PartsSafe(DeletedParts(env.indices, s, stored.value), env.indices, names);
      PartsDrawFirst(DeletedParts(env.indices, s, stored.value));
    }
  }

  lemma ReplaceSound(env: Env, s: Store, pre: seq<Op>, stored: Option<Document>, mid: seq<Op>, d: Document,
                     names: set<BucketName>)
    requires DocOps(pre) && DocOps(mid) && DOC_BUCKETS <= names && d.id != []
    requires forall j :: 0 <= j < |env.indices| ==> BucketsOf(env.indices[j]) <= names
    ensures Sound(ReplaceLog(env, s, pre, stored, mid, d), names)
  {
    IndexOpsSound(env, s, stored, d, names);
    DocOpsSound(pre, names);
    DocOpsSound(mid, names);
    var stores := AllStored(env.indices, s, d);
    SoundAppend(mid, stores, names);
    SoundAppend(RemovalOf(env, s, stored), mid + stores, names);
    SoundAppend(pre, RemovalOf(env, s, stored) + (mid + stores), names);
  }

  /** Document operations on one ID's entries. */
  ghost predicate DocAbout(ops: seq<Op>, id: Bytes) {
    DocOps(ops) && forall op :: op in ops ==>
      (op.bucket == Docs && op.key == id) || (op.bucket == Leaves && id + [0] <= op.key)
  }

  ghost predicate LeavesOnly(ops: seq<Op>) {
    forall op :: op in ops ==> op.bucket == Leaves
  }

  /** A plan logs nothing, or operations on its ID's leaves alone, or the replacement
      of the ID's winner; for a local document, the put of the document. */
  ghost predicate Shaped(env: Env, s: Store, ops: seq<Op>, id: Bytes) {
    || (DocAbout(ops, id) && (IsLocal(id) || LeavesOnly(ops)))
    || exists pre, stored, mid, d :: IsReplacement(env, s, ops, id, pre, stored, mid, d)
  }

  ghost predicate IsReplacement(env: Env, s: Store, ops: seq<Op>, id: Bytes, pre: seq<Op>,
                                stored: Option<Document>, mid: seq<Op>, d: Document) {
    && ops == ReplaceLog(env, s, pre, stored, mid, d) && DocAbout(pre, id) && DocAbout(mid, id)
    && d.id == id && (stored.Some? ==> stored.value.id == id) && stored == StoredAt(s, id)
  }

  lemma LeafOpAbout(id: Bytes, r: Bytes)
    ensures id + [0] <= LeafKey(id, r)
  {
    assert LeafKey(id, r)[..|id| + 1] == id + [0];
  }

  lemma PutDocOpsAbout(stored: Option<Document>, d: Document)
    requires d.id != [] && (stored.Some? ==> stored.value.rev != d.rev)
    ensures DocAbout(PutDocOps(stored, d), d.id)
  {
    PutDocOpsApply(stored, d, Docs, map[]);
    LeafOpAbout(d.id, d.rev);
    if stored.Some? { LeafOpAbout(d.id, stored.value.rev); }
  }

  lemma DeliveryOpsAbout(s: Store, stored: Option<Document>, d: Document)
    requires d.history != []
    ensures DocAbout(DeliveryOps(s, stored, d), d.id) && LeavesOnly(DeliveryOps(s, stored, d))
  {
    var pruned := PrunedBy(s, stored, d);
    DeliveryApply(d, pruned, map[], Docs);
    LeafOpAbout(d.id, d.rev);
    forall r | r in pruned ensures d.id + [0] <= LeafKey(d.id, r) { LeafOpAbout(d.id, r); }
  }

  lemma BranchOpsAbout(d: Document, rev: Bytes)
    requires rev != d.rev
    ensures DocAbout([DeleteLeaf(d.id, rev), PutLeaf(d)], d.id) && LeavesOnly([DeleteLeaf(d.id, rev), PutLeaf(d)])
  {
    BranchApply(d, rev, map[], Docs);
    LeafOpAbout(d.id, rev);
    LeafOpAbout(d.id, d.rev);
  }

  lemma PutAbout(d: Document)
    requires d.id != []
    ensures DocAbout([Put(Docs, d.id, Doc(d))], d.id)
  {
  }

  lemma ShapedBy(env: Env, s: Store, ops: seq<Op>, id: Bytes, pre: seq<Op>, stored: Option<Document>, mid: seq<Op>,
                 d: Document)
    requires IsReplacement(env, s, ops, id, pre, stored, mid, d)
    ensures Shaped(env, s, ops, id)
  {
  }

  lemma NothingAbout(id: Bytes)
    ensures DocAbout([], id) && LeavesOnly([])
  {
  }

  lemma PutShaped(env: Env, s: Store, doc: Document)
    requires Inv(env, s) && ValidId(doc.id) && Admitted(env, doc)
    ensures Shaped(env, s, PutPlan(env, s, doc).ops, doc.id)
  {
    var p := PutPlan(env, s, doc);
    NothingAbout(doc.id);
    if p.result.Done? {
      if IsLocal(doc.id) {
        PutAbout(doc.(rev := p.result.rev));
      } else {
        EditShaped(env, s, doc, StoredAt(s, doc.id));
      }
    }
  }

  lemma EditShaped(env: Env, s: Store, doc: Document, stored: Option<Document>)
    requires Inv(env, s) && ValidId(doc.id) && !IsLocal(doc.id) && Admitted(env, doc)
    requires stored == StoredAt(s, doc.id) && PutPlan(env, s, doc).result.Done?
    ensures Shaped(env, s, PutPlan(env, s, doc).ops, doc.id)
  {
    var d := EditReplacement(env, s, doc, stored);
    ShapedBy(env, s, PutPlan(env, s, doc).ops, doc.id, [], stored, PutDocOps(stored, d), d);
  }

  lemma EditReplacement(env: Env, s: Store, doc: Document, stored: Option<Document>) returns (d: Document)
    requires Inv(env, s) && ValidId(doc.id) && !IsLocal(doc.id) && Admitted(env, doc)
    requires stored == StoredAt(s, doc.id) && PutPlan(env, s, doc).result.Done?
    ensures IsReplacement(env, s, PutPlan(env, s, doc).ops, doc.id, [], stored, PutDocOps(stored, d), d)
  {
    EditIsReady(env, s, doc, s[Docs].entries, s[Leaves].entries, stored);
    d := Stamped(env, stored, doc);
    PutIsReplace(env, s, stored, d);
    PutDocOpsAbout(stored, d);
    NothingAbout(d.id);
    StoredId(env, s, doc.id);
  }

  lemma StoredId(env: Env, s: Store, id: Bytes)
    requires Inv(env, s)
    ensures StoredAt(s, id).Some? ==> StoredAt(s, id).value.id == id
  {
    ReadStored(env, s, id);
    assert id in DocsIn(s) ==> DocsIn(s)[id].Doc? && DocsIn(s)[id].doc.id == id;
  }

  /** Leaf operations followed by the winner's. */
  lemma LeafWriterShaped(env: Env, s: Store, d: Document, gone: set<Bytes>, leafOps: seq<Op>, wd: Option<Document>)
    requires Inv(env, s) && MayRecord(env, s, d, gone) && DocAbout(leafOps, d.id) && LeavesOnly(leafOps)
    requires Chosen(s, d, gone, wd)
    ensures Shaped(env, s, leafOps + WinnerOps(env, s, StoredAt(s, d.id), d.id, TopLeft(s, d, gone), wd), d.id)
  {
    var stored, top := StoredAt(s, d.id), TopLeft(s, d, gone);
    SettledFits(env, s, d, gone);
    TopLeftIsTop(env, s, d, gone);
    var w := Settled(s, d, gone).value;
    StoredLikeWinner(env, s, d.id);
    HasDash(top);
    WinnerLogged(env, s, d, top, w, wd, leafOps, stored);
    if !(WinnerAt(s, d.id).Some? && WinnerAt(s, d.id).value.rev == top) {
      AtId(env, s, d.id);
      PutAbout(w);
      ShapedBy(env, s, leafOps + WinnerOps(env, s, stored, d.id, top, wd), d.id, leafOps, stored,
               [Put(Docs, w.id, Doc(w))], w);
    }
  }

  lemma DeliverShaped(env: Env, s: Store, given: Document)
    requires Inv(env, s) && SoundDelivery(Delivered(given)) && Admitted(env, given)
    ensures Shaped(env, s, ReplicationPlan(env, s, given).ops, given.id)
  {
    var d, stored := Delivered(given), StoredAt(s, given.id);
    NothingAbout(given.id);
    DeliveryPlan(env, s, given);
    var w := WinnerAt(s, given.id);
    if !(w.Some? && w.value.rev == given.rev) {
      DeliveryOpsAbout(s, stored, d);
      AdmitsSameData(env, given, d);
      LeafWriterShaped(env, s, d, Ancestors(d), DeliveryOps(s, stored, d), LeafOrSelf(s, d, TopLeft(s, d, Ancestors(d))));
    }
  }

  lemma RemoveShaped(env: Env, s: Store, id: Bytes, rev: Bytes)
    requires Inv(env, s) && ValidId(id)
    ensures Shaped(env, s, DeletePlan(env, s, id, rev).ops, id)
  {
    NothingAbout(id);
    if WinnerAt(s, id).None? || (WinnerAt(s, id).value.rev != rev && rev !in LeafRevs(s, id)) {
      RefusedDelete(env, s, id, rev);
    } else if WinnerAt(s, id).value.rev == rev {
      ReadStored(env, s, id);
      PutShaped(env, s, Tombstone(id, rev));
    } else {
      var stored, leaf := BranchToDelete(env, s, id, rev);
      TombstoneMayRecord(env, s, id, rev, leaf);
      BranchShaped(env, s, rev, stored, BranchTombstone(env, id, rev, leaf));
    }
  }

  lemma BranchShaped(env: Env, s: Store, rev: Bytes, stored: Document, d: Document)
    requires Inv(env, s) && MayRecord(env, s, d, {rev}) && StoredAt(s, d.id) == Some(stored)
    ensures Shaped(env, s, BranchLog(env, s, stored, rev, d), d.id)
  {
    BranchOpsAbout(d, rev);
    LeftWithTombstone(s, rev, d);
    var winner := WinnerRev(Sorted(LeavesWithTombstone(s, rev, d)));
    AtId(env, s, d.id);
    LeafWriterShaped(env, s, d, {rev}, [DeleteLeaf(d.id, rev), PutLeaf(d)], BranchWinner(s, stored, d, winner));
  }

  lemma PlanShaped(env: Env, s: Store, w: Write)
    requires Inv(env, s) && Acceptable(env, w)
    ensures Shaped(env, s, PlanOf(env, s, w).ops, IdOf(w))
  {
    match w
    case Edit(doc) => PutShaped(env, s, doc);
    case Deliver(doc) => DeliverShaped(env, s, doc);
    case Remove(id, rev) => RemoveShaped(env, s, id, rev);
  }

  lemma PlanSound(env: Env, s: Store, w: Write)
    requires Inv(env, s) && Acceptable(env, w)
    ensures Sound(PlanOf(env, s, w).ops, s.Keys)
  {
    var ops, id := PlanOf(env, s, w).ops, IdOf(w);
    PlanShaped(env, s, w);
    HasDocBuckets(s);
    if DocAbout(ops, id) {
      DocOpsSound(ops, s.Keys);
    } else {
      var pre, stored, mid, d :| IsReplacement(env, s, ops, id, pre, stored, mid, d);
      AgreeHasBuckets(env, s, WinnersOf(DocsIn(s)));
      assert id != [];
      ReplaceSound(env, s, pre, stored, mid, d, s.Keys);
    }
  }

  /******* Every reachable store *******/

  lemma WriteKeeps(env: Env, s: Store, w: Write)
    requires Inv(env, s) && Acceptable(env, w)
    requires CountersFit(Landed(PlanOf(env, s, w).ops, s))
    ensures Inv(env, Landed(PlanOf(env, s, w).ops, s))
  {
    if KeysFit(PlanOf(env, s, w).ops) { CommittedKeeps(env, s, w); }
  }

  lemma CommittedKeeps(env: Env, s: Store, w: Write)
    requires Inv(env, s) && Acceptable(env, w)
    requires CountersFit(Committed(PlanOf(env, s, w).ops, s))
    ensures Inv(env, Committed(PlanOf(env, s, w).ops, s))
  {
    match w
    case Edit(doc) => PutKeeps(env, s, doc);
    case Deliver(doc) => ReplicationKeeps(env, s, doc);
    case Remove(id, rev) =>
      DeleteKeeps(env, s, id, rev);
  }

  /** Along the run no counter outgrows 64 bits. */
  ghost predicate FitsAlong(env: Env, s: Store, ws: seq<Write>)
    decreases ws
  {
    CountersFit(s) && (ws != [] ==> FitsAlong(env, Landed(PlanOf(env, s, ws[0]).ops, s), ws[1..]))
  }

  /** Along the run no key is too long. */
  ghost predicate LandsAlong(env: Env, s: Store, ws: seq<Write>)
    decreases ws
  {
    ws != [] ==> KeysFit(PlanOf(env, s, ws[0]).ops) && LandsAlong(env, Landed(PlanOf(env, s, ws[0]).ops, s), ws[1..])
  }

  ghost predicate AllAcceptable(env: Env, ws: seq<Write>) {
    forall w :: w in ws ==> Acceptable(env, w)
  }

  lemma {:induction false} RunKeeps(env: Env, s: Store, ws: seq<Write>)
    requires Inv(env, s) && AllAcceptable(env, ws) && FitsAlong(env, s, ws)
    ensures Inv(env, Run(env, s, ws))
    decreases ws
  {
    if ws != [] {
      assert ws[0] in ws;
      WriteKeeps(env, s, ws[0]);
      RunKeeps(env, Landed(PlanOf(env, s, ws[0]).ops, s), ws[1..]);
    }
  }

  /** Whatever is written to a fresh database, by edits, replication and deletions
      in any order, conflicts and failed commits included, every bucket agrees with
      every other. */
  lemma ReachableInv(env: Env, ws: seq<Write>)
    requires EnvOk(env) && AllAcceptable(env, ws) && FitsAlong(env, EmptyStore(env), ws)
    ensures Inv(env, Run(env, EmptyStore(env), ws))
  {
    EmptyStoreInv(env);
    RunKeeps(env, EmptyStore(env), ws);
  }
}
