/** What holds in every reachable store: the winner rule, the leaf entries and
    the agreement of every index, kept by each writer. */
module StoreInvariant {
  import opened ByteStrings
  import opened Documents
  import opened DocStore
  import opened Effects
  import opened Engine
  import opened IndexInvariants
  import opened Indexes
  import opened Revisions
  import opened SortedKeys

  /******* The invariant *******/

  ghost predicate DocsOk(docs: map<Bytes, Value>) {
    forall id :: id in docs ==>
      && docs[id].Doc? && docs[id].doc.id == id && ValidId(id)
      && (!IsLocal(id) ==> WellFormed(docs[id].doc.rev))
  }

  ghost predicate LeafOk(k: Bytes, v: Value) {
    && v.Doc? && k == LeafKey(v.doc.id, v.doc.rev)
    && ValidId(v.doc.id) && !IsLocal(v.doc.id) && WellFormed(v.doc.rev)
    && v.doc.history != [] && v.doc.history[0] == v.doc.rev
  }

  ghost predicate LeavesOk(docs: map<Bytes, Value>, leaves: map<Bytes, Value>) {
    forall k {:trigger LeafOk(k, leaves[k])} :: k in leaves ==> LeafOk(k, leaves[k]) && leaves[k].doc.id in docs
  }

  /** The history begins with the document's own revision. */
  ghost predicate Headed(d: Document) {
    d.history != [] && d.history[0] == d.rev
  }

  /** The stored revision is a leaf and no leaf is above it. */
  ghost predicate WinnerOk(docs: map<Bytes, Value>, leaves: map<Bytes, Value>, id: Bytes)
    requires id in docs && docs[id].Doc?
  {
    && LeafKey(id, docs[id].doc.rev) in leaves && Headed(docs[id].doc)
    && forall r :: LeafKey(id, r) in leaves ==> NotAbove(r, docs[id].doc.rev)
  }

  ghost predicate WinnersOk(docs: map<Bytes, Value>, leaves: map<Bytes, Value>) {
    forall id {:trigger WinnerOk(docs, leaves, id)} ::
      id in docs && !IsLocal(id) ==> docs[id].Doc? && WinnerOk(docs, leaves, id)
  }

  ghost predicate DocumentsAgree(docs: map<Bytes, Value>, leaves: map<Bytes, Value>) {
    DocsOk(docs) && LeavesOk(docs, leaves) && WinnersOk(docs, leaves)
  }

  ghost function WinnersOf(docs: map<Bytes, Value>): Winners {
    map id | id in docs && !IsLocal(id) && docs[id].Doc? :: docs[id].doc
  }

  ghost predicate EnvOk(env: Env) {
    && DistinctIndices(env.indices)
    && exists j :: 0 <= j < |env.indices| && env.indices[j] == ChangesIndex
  }

  ghost predicate IndicesAgree(env: Env, s: Store, winners: Winners) {
    forall j {:trigger IndexAgrees(env.indices[j], s, winners)} ::
      0 <= j < |env.indices| ==> IndexAgrees(env.indices[j], s, winners)
  }

  /** Every index can take the document in. */
  ghost predicate Admitted(env: Env, d: Document) {
    forall j :: 0 <= j < |env.indices| ==> Admits(env.indices[j], d)
  }

  /** Any leaf may become the winner, so every index can take any leaf in. */
  ghost predicate LeavesAdmitted(env: Env, leaves: map<Bytes, Value>) {
    forall k {:trigger LeafAdmitted(env, leaves[k])} :: k in leaves ==> LeafAdmitted(env, leaves[k])
  }

  ghost predicate LeafAdmitted(env: Env, v: Value) {
    v.Doc? ==> Admitted(env, v.doc)
  }

  ghost predicate Inv(env: Env, s: Store) {
    && EnvOk(env)
    && Docs in s && Leaves in s && AttRefs in s
    && DocumentsAgree(s[Docs].entries, s[Leaves].entries)
    && LeavesAdmitted(env, s[Leaves].entries)
    && IndicesAgree(env, s, WinnersOf(s[Docs].entries))
  }

  /******* Leaf keys *******/

  /** A prefix scan for an ID's leaves meets a leaf of another ID exactly when
      that ID goes on with a NUL after the first, which valid IDs never do. */
  lemma LeafScanExact(id: Bytes, other: Bytes, rev: Bytes)
    requires 0 !in rev
    ensures id + [0] <= LeafKey(other, rev) <==> id == other || id + [0] <= other
  {
    var k := LeafKey(other, rev);
    var p := id + [0];
    if |id| == |other| {
      assert p[..|id|] == id && k[..|id|] == other && k[..|p|] == other + [0];
    } else if |id| < |other| {
      assert k[..|p|] == other[..|p|];
    } else if |p| <= |k| {
      assert k[|id|] == rev[|id| - |other| - 1];
      assert k[|id|] in rev;
      assert p[|id|] != k[|id|];
    }
  }

  lemma LeafPrefix(id: Bytes, other: Bytes, rev: Bytes)
    requires 0 !in id && 0 !in other
    ensures id + [0] <= LeafKey(other, rev) <==> id == other
  {
    var k := LeafKey(other, rev);
    var p := id + [0];
    if |id| == |other| {
      assert p[..|id|] == id && k[..|id|] == other && k[..|p|] == other + [0];
    } else if |id| < |other| {
      assert k[|id|] == other[|id|] && other[|id|] in other;
      assert p[|id|] != k[|id|];
    } else {
      assert p[|other|] == id[|other|] && id[|other|] in id;
      assert p[|other|] != k[|other|];
    }
  }

  lemma LeafKeyInjective(id: Bytes, r: Bytes, r': Bytes)
    ensures LeafKey(id, r) == LeafKey(id, r') <==> r == r'
  {
    if LeafKey(id, r) == LeafKey(id, r') {
      AppendInjective(id + [0], id + [0], r, r');
    }
  }

  /** The scan returns r exactly when the entry for (id, r) is there. */
  lemma LeafRevsMembers(s: Store, id: Bytes, r: Bytes)
    ensures r in LeafRevs(s, id) <==> LeafKey(id, r) in Entries(s, Leaves)
  {
    var p := id + [0];
    var keys := KeysUnder(p, Entries(s, Leaves));
    var revs := LeafRevs(s, id);
    if r in revs {
      var j :| 0 <= j < |revs| && revs[j] == r;
      assert keys[j] in keys;
      assert keys[j] == p + keys[j][|p|..] == LeafKey(id, r);
    }
    if LeafKey(id, r) in Entries(s, Leaves) {
      assert LeafKey(id, r)[..|p|] == p;
      assert LeafKey(id, r) in keys;
      var j :| 0 <= j < |keys| && keys[j] == LeafKey(id, r);
      assert revs[j] == r;
    }
  }

  /******* Reading under the invariant *******/

  /** A read returns the stored document, with its history perhaps extended, and
      never fails: every non-local document has its local sequence. */
  lemma ReadStored(env: Env, s: Store, id: Bytes)
    requires Inv(env, s)
    ensures id !in s[Docs].entries ==> GetDocument(s, id) == Missing
    ensures id in s[Docs].entries ==>
              s[Docs].entries[id].Doc? && GetDocument(s, id).Found?
              && ReadOf(s[Docs].entries[id].doc, GetDocument(s, id).doc)
  {
    var docs := s[Docs].entries;
    if id in docs {
      if !IsLocal(id) { HasSequence(env, s, id); }
      SequenceFound(s, docs[id].doc);
      ReadFound(s, id);
    }
  }

  lemma SequenceFound(s: Store, d: Document)
    requires IsLocal(d.id) || (d.id in Entries(s, ChangesInv) && Entries(s, ChangesInv)[d.id].Bin?)
    ensures WithSequence(s, WithMeta(d)).Some? && ReadOf(d, WithSequence(s, WithMeta(d)).value)
  {
  }

  lemma ReadFound(s: Store, id: Bytes)
    requires id in Entries(s, Docs) && Entries(s, Docs)[id].Doc?
    requires WithSequence(s, WithMeta(Entries(s, Docs)[id].doc)).Some?
    requires ReadOf(Entries(s, Docs)[id].doc, WithSequence(s, WithMeta(Entries(s, Docs)[id].doc)).value)
    ensures GetDocument(s, id).Found?
    ensures ReadOf(Entries(s, Docs)[id].doc, GetDocument(s, id).doc)
  {
    BranchesExtend(s, WithSequence(s, WithMeta(Entries(s, Docs)[id].doc)).value);
  }

  /** What a read makes of a stored document: only its history can grow. */
  ghost predicate ReadOf(stored: Document, d: Document) {
    && d.id == stored.id && d.rev == stored.rev && d.deleted == stored.deleted
    && d.attachments == stored.attachments && stored.history <= d.history
  }

  lemma HasSequence(env: Env, s: Store, id: Bytes)
    requires EnvOk(env) && IndicesAgree(env, s, WinnersOf(Entries(s, Docs)))
    requires id in WinnersOf(Entries(s, Docs))
    ensures ChangesInv in s && id in s[ChangesInv].entries && s[ChangesInv].entries[id].Bin?
  {
    var j :| 0 <= j < |env.indices| && env.indices[j] == ChangesIndex;
    assert IndexAgrees(env.indices[j], s, WinnersOf(Entries(s, Docs)));
    assert SequencedBy(s[Changes], s[ChangesInv], id);
  }

  lemma HasDash(rev: Bytes)
    requires WellFormed(rev)
    ensures DASH in rev && rev != []
  {
    assert rev[|Itoa(Gen(rev))|] == DASH;
  }

  lemma {:induction false} AddBranchesExtends(s: Store, id: Bytes, rev: Bytes, history: seq<Bytes>, leaves: seq<Bytes>)
    ensures history <= AddBranches(s, id, rev, history, leaves)
    decreases leaves
  {
    if leaves != [] {
      var leaf := GetLeaf(s, id, leaves[0]);
      var next := if leaves[0] != rev && leaf.Some? then AppendNew(history, leaf.value.history) else history;
      AddBranchesExtends(s, id, rev, next, leaves[1..]);
    }
  }

  lemma BranchesExtend(s: Store, d: Document)
    ensures var b := WithBranches(s, d);
            && b.id == d.id && b.rev == d.rev && b.deleted == d.deleted && b.localSeq == d.localSeq
            && b.attachments == d.attachments && d.history <= b.history
  {
    AddBranchesExtends(s, d.id, d.rev, d.history, LeafRevs(s, d.id));
  }

  /******* From one set of entries to the next *******/

  /** Leaf entries of other IDs are as they were. */
  ghost predicate OnlyLeavesOf(id: Bytes, before: map<Bytes, Value>, after: map<Bytes, Value>) {
    forall k :: !(id + [0] <= k) ==> (k in after <==> k in before) && (k in before ==> after[k] == before[k])
  }

  /** The new leaves of the ID are sound and w is its stored document, a leaf that
      no leaf is above. */
  ghost predicate SoundAt(id: Bytes, w: Document, leaves: map<Bytes, Value>) {
    && ValidId(id) && !IsLocal(id) && w.id == id && WellFormed(w.rev) && Headed(w)
    && LeafKey(id, w.rev) in leaves
    && (forall k :: k in leaves && id + [0] <= k ==> LeafOk(k, leaves[k]) && leaves[k].doc.id == id)
    && (forall r :: LeafKey(id, r) in leaves ==> NotAbove(r, w.rev))
  }

  lemma DocumentsStep(docs: map<Bytes, Value>, leaves: map<Bytes, Value>, id: Bytes, w: Document,
                      leaves': map<Bytes, Value>)
    requires DocumentsAgree(docs, leaves) && OnlyLeavesOf(id, leaves, leaves') && SoundAt(id, w, leaves')
    ensures DocumentsAgree(docs[id := Doc(w)], leaves')
  {
    DocStored(docs, w);
    LeavesStep(docs, leaves, id, w, leaves');
    WinnersOkStep(docs, leaves, id, w, leaves');
  }

  lemma DocStored(docs: map<Bytes, Value>, d: Document)
    requires DocsOk(docs) && ValidId(d.id) && (!IsLocal(d.id) ==> WellFormed(d.rev))
    ensures DocsOk(docs[d.id := Doc(d)])
  {
  }

  lemma WinnersOkStep(docs: map<Bytes, Value>, leaves: map<Bytes, Value>, id: Bytes, w: Document,
                      leaves': map<Bytes, Value>)
    requires DocsOk(docs) && WinnersOk(docs, leaves) && OnlyLeavesOf(id, leaves, leaves') && SoundAt(id, w, leaves')
    ensures WinnersOk(docs[id := Doc(w)], leaves')
  {
    var docs' := docs[id := Doc(w)];
    forall o | o in docs' && !IsLocal(o) ensures docs'[o].Doc? && WinnerOk(docs', leaves', o) {
      if o != id {
        assert WinnerOk(docs, leaves, o);
        WinnerKept(docs, leaves, o, id, w, leaves');
      }
    }
  }

  lemma LeavesStep(docs: map<Bytes, Value>, leaves: map<Bytes, Value>, id: Bytes, w: Document,
                   leaves': map<Bytes, Value>)
    requires LeavesOk(docs, leaves) && OnlyLeavesOf(id, leaves, leaves') && SoundAt(id, w, leaves')
    ensures LeavesOk(docs[id := Doc(w)], leaves')
  {
    forall k | k in leaves' ensures LeafOk(k, leaves'[k]) && leaves'[k].doc.id in docs[id := Doc(w)] {
      if !(id + [0] <= k) { assert k in leaves && leaves'[k] == leaves[k] && LeafOk(k, leaves[k]); }
    }
  }

  lemma WinnerKept(docs: map<Bytes, Value>, leaves: map<Bytes, Value>, o: Bytes, id: Bytes, w: Document,
                   leaves': map<Bytes, Value>)
    requires ValidId(o) && ValidId(id) && o != id && OnlyLeavesOf(id, leaves, leaves')
    requires o in docs && docs[o].Doc? && WinnerOk(docs, leaves, o)
    ensures WinnerOk(docs[id := Doc(w)], leaves', o)
  {
    forall r ensures LeafKey(o, r) in leaves' <==> LeafKey(o, r) in leaves {
      LeafPrefix(id, o, r);
    }
  }

  lemma WinnersStep(docs: map<Bytes, Value>, id: Bytes, w: Document)
    requires !IsLocal(id)
    ensures WinnersOf(docs[id := Doc(w)]) == WinnersOf(docs)[id := w]
  {
  }

  lemma WinnersKeyed(docs: map<Bytes, Value>)
    requires DocsOk(docs)
    ensures Keyed(WinnersOf(docs))
  {
  }

  lemma SameWinnerOk(docs: map<Bytes, Value>, docs': map<Bytes, Value>, leaves: map<Bytes, Value>, o: Bytes)
    requires o in docs && docs[o].Doc? && WinnerOk(docs, leaves, o)
    requires o in docs' && docs'[o] == docs[o]
    ensures WinnerOk(docs', leaves, o)
  {
  }

  lemma LocalWinnersOk(docs: map<Bytes, Value>, leaves: map<Bytes, Value>, d: Document)
    requires DocsOk(docs) && WinnersOk(docs, leaves) && IsLocal(d.id)
    ensures WinnersOk(docs[d.id := Doc(d)], leaves)
  {
    var docs' := docs[d.id := Doc(d)];
    forall o | o in docs' && !IsLocal(o) ensures docs'[o].Doc? && WinnerOk(docs', leaves, o) {
      SameWinnerOk(docs, docs', leaves, o);
    }
  }

  lemma LocalLeavesOk(docs: map<Bytes, Value>, leaves: map<Bytes, Value>, d: Document)
    requires LeavesOk(docs, leaves)
    ensures LeavesOk(docs[d.id := Doc(d)], leaves)
  {
  }

  lemma LocalWinners(docs: map<Bytes, Value>, d: Document)
    requires DocsOk(docs) && IsLocal(d.id)
    ensures WinnersOf(docs[d.id := Doc(d)]) == WinnersOf(docs)
  {
  }

  /** A local document changes no winner. */
  lemma LocalStep(docs: map<Bytes, Value>, leaves: map<Bytes, Value>, d: Document)
    requires DocumentsAgree(docs, leaves) && ValidId(d.id) && IsLocal(d.id)
    ensures DocumentsAgree(docs[d.id := Doc(d)], leaves)
    ensures WinnersOf(docs[d.id := Doc(d)]) == WinnersOf(docs)
  {
    DocStored(docs, d);
    LocalLeavesOk(docs, leaves, d);
    LocalWinnersOk(docs, leaves, d);
    LocalWinners(docs, d);
  }

  /******* Replaying a writer's log *******/

  const DOC_BUCKETS: set<BucketName> := {Docs, Leaves, AttRefs}

  /** Puts and deletes on the document buckets. */
  ghost predicate DocOps(ops: seq<Op>) {
    Safe(ops, DOC_BUCKETS) && forall op :: op in ops ==> op.Put? || op.Delete?
  }

  ghost predicate IndexBuckets(env: Env, s: Store) {
    forall j :: 0 <= j < |env.indices| ==> BucketsOf(env.indices[j]) <= s.Keys
  }

  lemma DocOpsFrame(env: Env, ops: seq<Op>, m: Machine)
    requires DocOps(ops) && DOC_BUCKETS <= m.store.Keys && !m.failed
    ensures !Replay(ops, m).failed && Replay(ops, m).store.Keys == m.store.Keys
    ensures forall j :: 0 <= j < |env.indices| && BucketsOf(env.indices[j]) <= m.store.Keys ==>
              SameBuckets(env.indices[j], m.store, Replay(ops, m).store)
  {
    assert Safe(ops, m.store.Keys);
    ReplaySafe(ops, m);
    forall j, b | 0 <= j < |env.indices| && b in BucketsOf(env.indices[j]) && b in m.store
      ensures b in Replay(ops, m).store && m.store[b] == Replay(ops, m).store[b]
    {
      DocumentBucketsApart(env.indices);
      assert b !in DOC_BUCKETS;
      assert Untouched(ops, b);
      ReplayFrame(ops, m, b);
    }
  }

  /** The log of every writer that changes a winner: document operations, the
      indices forgetting the old winner, more document operations, the indices
      taking in the new one. */
  ghost function ReplaceLog(env: Env, s: Store, pre: seq<Op>, replaced: Option<Document>, mid: seq<Op>,
                            d: Document): seq<Op> {
    pre + (RemovalOf(env, s, replaced) + (mid + AllStored(env.indices, s, d)))
  }

  ghost predicate Replaces(winners: Winners, replaced: Option<Document>, d: Document) {
    && (replaced.Some? <==> d.id in winners)
    && (replaced.Some? ==> replaced.value.id == d.id && replaced.value.deleted == winners[d.id].deleted)
  }

  lemma RemovalPart(env: Env, s: Store, replaced: Option<Document>, j: nat, m: Machine)
    requires DistinctIndices(env.indices) && j < |env.indices| && !m.failed && IndexBuckets(env, m.store)
    ensures var r := Replay(RemovalOf(env, s, replaced), m);
            !r.failed && r.store.Keys == m.store.Keys
    ensures replaced.None? ==> Replay(RemovalOf(env, s, replaced), m) == m
    ensures replaced.Some? ==>
              var own := DocumentDeleted(env.indices[j], s, replaced.value);
              var before := Replay(Concat(DeletedParts(env.indices, s, replaced.value)[..j]), m);
              && !before.failed && SameBuckets(env.indices[j], m.store, before.store)
              && SameBuckets(env.indices[j], Replay(own, before).store, Replay(RemovalOf(env, s, replaced), m).store)
  {
    if replaced.Some? {
      DeletedPartsOf(env.indices, s, replaced.value);
      OwnPart(DeletedParts(env.indices, s, replaced.value), env.indices, j, m);
    }
  }

  lemma StoredPart(env: Env, s: Store, d: Document, j: nat, m: Machine)
    requires DistinctIndices(env.indices) && j < |env.indices| && !m.failed && IndexBuckets(env, m.store) && d.id != []
    ensures var r := Replay(AllStored(env.indices, s, d), m);
            var own := DocumentStored(env.indices[j], s, d);
            var before := Replay(Concat(StoredParts(env.indices, s, d)[..j]), m);
            && !r.failed && r.store.Keys == m.store.Keys
            && !before.failed && SameBuckets(env.indices[j], m.store, before.store)
            && SameBuckets(env.indices[j], Replay(own, before).store, r.store)
  {
    StoredPartsOf(env.indices, s, d);
    OwnPart(StoredParts(env.indices, s, d), env.indices, j, m);
  }

  /** The machines a replace log passes through. */
  ghost function Through(env: Env, s: Store, pre: seq<Op>, replaced: Option<Document>, mid: seq<Op>,
                         d: Document): (Machine, Machine, Machine, Machine) {
    var m0 := Replay(pre, Machine(s, 0, false));
    var m1 := Replay(RemovalOf(env, s, replaced), m0);
    var m2 := Replay(mid, m1);
    (m0, m1, m2, Replay(AllStored(env.indices, s, d), m2))
  }

  lemma ThroughIsReplay(env: Env, s: Store, pre: seq<Op>, replaced: Option<Document>, mid: seq<Op>, d: Document)
    ensures Replay(ReplaceLog(env, s, pre, replaced, mid, d), Machine(s, 0, false))
         == Through(env, s, pre, replaced, mid, d).3
  {
    var m := Machine(s, 0, false);
    var removal, stored := RemovalOf(env, s, replaced), AllStored(env.indices, s, d);
    ReplayAppend(pre, removal + (mid + stored), m);
    ReplayAppend(removal, mid + stored, Replay(pre, m));
    ReplayAppend(mid, stored, Replay(removal, Replay(pre, m)));
  }

  lemma ReplaceKeepsKeys(env: Env, s: Store, pre: seq<Op>, replaced: Option<Document>, mid: seq<Op>, d: Document)
    requires EnvOk(env) && IndexBuckets(env, s) && DOC_BUCKETS <= s.Keys && d.id != []
    requires DocOps(pre) && DocOps(mid)
    ensures var (m0, m1, m2, m3) := Through(env, s, pre, replaced, mid, d);
            && !m0.failed && !m1.failed && !m2.failed && !m3.failed
            && m0.store.Keys == m1.store.Keys == m2.store.Keys == m3.store.Keys == s.Keys
  {
    var (m0, m1, m2, m3) := Through(env, s, pre, replaced, mid, d);
    DocOpsFrame(env, pre, Machine(s, 0, false));
    RemovalPart(env, s, replaced, 0, m0);
    DocOpsFrame(env, mid, m1);
    StoredPart(env, s, d, 0, m2);
  }

  lemma AgreeHasBuckets(env: Env, s: Store, winners: Winners)
    requires IndicesAgree(env, s, winners)
    ensures IndexBuckets(env, s)
  {
    forall k | 0 <= k < |env.indices| ensures BucketsOf(env.indices[k]) <= s.Keys {
      assert IndexAgrees(env.indices[k], s, winners);
    }
  }

  lemma SameTransitive(i: Index, a: Store, b: Store, c: Store)
    requires SameBuckets(i, a, b) && SameBuckets(i, b, c)
    ensures SameBuckets(i, a, c)
  {
  }

  lemma FitsMoves(i: Index, a: Store, b: Store)
    requires SameBuckets(i, a, b) && Fits(b, BucketsOf(i))
    ensures Fits(a, BucketsOf(i))
  {
  }

  /** One index, carried through the four stages. */
  lemma ChainIndex(i: Index, s: Store, winners: Winners, replaced: Option<Document>, d: Document,
                   m0: Machine, before: Machine, m1: Machine, m2: Machine, before': Machine, t: Store)
    requires IndexAgrees(i, s, winners) && Keyed(winners) && ValidId(d.id) && Admits(i, d)
    requires Replaces(winners, replaced, d) && !before.failed && !before'.failed
    requires SameBuckets(i, s, m0.store) && SameBuckets(i, m0.store, before.store)
    requires SameBuckets(i, (if replaced.Some? then Replay(DocumentDeleted(i, s, replaced.value), before)
                             else before).store, m1.store)
    requires SameBuckets(i, m1.store, m2.store) && SameBuckets(i, m2.store, before'.store)
    requires SameBuckets(i, Replay(DocumentStored(i, s, d), before').store, t)
    requires Fits(t, BucketsOf(i))
    ensures IndexAgrees(i, t, winners[d.id := d])
  {
    var gone := if replaced.Some? then Replay(DocumentDeleted(i, s, replaced.value), before) else before;
    SameTransitive(i, s, m0.store, before.store);
    SameTransitive(i, gone.store, m1.store, m2.store);
    SameTransitive(i, gone.store, m2.store, before'.store);
    FitsMoves(i, Replay(DocumentStored(i, s, d), before').store, t);
    IndexStep(i, s, winners, replaced, d, before, before');
    AgreesMoves(i, Replay(DocumentStored(i, s, d), before').store, t, winners[d.id := d]);
  }

  lemma ReplaceIndex(env: Env, s: Store, winners: Winners, pre: seq<Op>, replaced: Option<Document>, mid: seq<Op>,
                     d: Document, j: nat)
    requires EnvOk(env) && DOC_BUCKETS <= s.Keys && IndicesAgree(env, s, winners) && Keyed(winners)
    requires DocOps(pre) && DocOps(mid) && ValidId(d.id) && Admitted(env, d) && Replaces(winners, replaced, d)
    requires j < |env.indices|
    requires Fits(Through(env, s, pre, replaced, mid, d).3.store, BucketsOf(env.indices[j]))
    ensures IndexAgrees(env.indices[j], Through(env, s, pre, replaced, mid, d).3.store, winners[d.id := d])
  {
    var m := Through(env, s, pre, replaced, mid, d);
    AgreeHasBuckets(env, s, winners);
    ReplaceKeepsKeys(env, s, pre, replaced, mid, d);
    DocOpsFrame(env, pre, Machine(s, 0, false));
    RemovalPart(env, s, replaced, j, m.0);
    DocOpsFrame(env, mid, m.1);
    StoredPart(env, s, d, j, m.2);
    var before := if replaced.Some? then Replay(Concat(DeletedParts(env.indices, s, replaced.value)[..j]), m.0) else m.0;
    var before' := Replay(Concat(StoredParts(env.indices, s, d)[..j]), m.2);
    ChainIndex(env.indices[j], s, winners, replaced, d, m.0, before, m.1, m.2, before', m.3.store);
  }

  lemma ReplaceDocBucket(env: Env, s: Store, pre: seq<Op>, replaced: Option<Document>, mid: seq<Op>, d: Document,
                         b: BucketName)
    requires EnvOk(env) && IndexBuckets(env, s) && DOC_BUCKETS <= s.Keys && d.id != []
    requires DocOps(pre) && DocOps(mid) && b in DOC_BUCKETS
    ensures var m3 := Through(env, s, pre, replaced, mid, d).3;
            b in m3.store && m3.store[b] == s[b].(entries := Apply(pre + mid, b, s[b].entries))
  {
    var m := Through(env, s, pre, replaced, mid, d);
    ReplaceKeepsKeys(env, s, pre, replaced, mid, d);
    PlainReplay(pre, Machine(s, 0, false), b);
    IndexOpsLeave(env, s, replaced, d, b);
    ReplayFrame(RemovalOf(env, s, replaced), m.0, b);
    PlainReplay(mid, m.1, b);
    ReplayFrame(AllStored(env.indices, s, d), m.2, b);
    ApplyAppend(pre, mid, b, s[b].entries);
  }

  lemma IndexOpsLeave(env: Env, s: Store, replaced: Option<Document>, d: Document, b: BucketName)
    requires b in DOC_BUCKETS && d.id != []
    ensures Untouched(RemovalOf(env, s, replaced), b) && Untouched(AllStored(env.indices, s, d), b)
  {
    DocumentBucketsApart(env.indices);
    StoredPartsOf(env.indices, s, d);
    PartsUntouched(StoredParts(env.indices, s, d), env.indices, b);
    if replaced.Some? {
      DeletedPartsOf(env.indices, s, replaced.value);
      PartsUntouched(DeletedParts(env.indices, s, replaced.value), env.indices, b);
    }
  }

  /******* The store after a commit *******/

  ghost predicate CountersFit(s: Store) {
    forall b :: b in s ==> s[b].counter < U64
  }

  ghost predicate EntriesAre(t: Store, s: Store, docs: map<Bytes, Value>, leaves: map<Bytes, Value>) {
    && t.Keys == s.Keys && Docs in t && Leaves in t && AttRefs in t && AttRefs in s
    && t[Docs].entries == docs && t[Leaves].entries == leaves
  }

  /** The commit succeeds and the document buckets get exactly their own operations. */
  lemma ReplaceCommitted(env: Env, s: Store, pre: seq<Op>, replaced: Option<Document>, mid: seq<Op>, d: Document)
    requires EnvOk(env) && IndexBuckets(env, s) && DOC_BUCKETS <= s.Keys && d.id != []
    requires DocOps(pre) && DocOps(mid)
    ensures var t := Committed(ReplaceLog(env, s, pre, replaced, mid, d), s);
            && t == Through(env, s, pre, replaced, mid, d).3.store && t.Keys == s.Keys
            && t[Docs].entries == Apply(pre + mid, Docs, s[Docs].entries)
            && t[Leaves].entries == Apply(pre + mid, Leaves, s[Leaves].entries)
            && t[AttRefs].entries == Apply(pre + mid, AttRefs, s[AttRefs].entries)
  {
    ThroughIsReplay(env, s, pre, replaced, mid, d);
    ReplaceKeepsKeys(env, s, pre, replaced, mid, d);
    ReplaceDocBucket(env, s, pre, replaced, mid, d, Docs);
    ReplaceDocBucket(env, s, pre, replaced, mid, d, Leaves);
    ReplaceDocBucket(env, s, pre, replaced, mid, d, AttRefs);
  }

  lemma ReplaceIndices(env: Env, s: Store, winners: Winners, pre: seq<Op>, replaced: Option<Document>, mid: seq<Op>,
                       d: Document, t: Store)
    requires EnvOk(env) && DOC_BUCKETS <= s.Keys && IndicesAgree(env, s, winners) && Keyed(winners)
    requires DocOps(pre) && DocOps(mid) && ValidId(d.id) && Admitted(env, d) && Replaces(winners, replaced, d)
    requires t == Through(env, s, pre, replaced, mid, d).3.store && CountersFit(t)
    ensures IndicesAgree(env, t, winners[d.id := d])
  {
    forall j | 0 <= j < |env.indices| ensures IndexAgrees(env.indices[j], t, winners[d.id := d]) {
      ReplaceIndex(env, s, winners, pre, replaced, mid, d, j);
    }
  }

  /** The operations store the document and leave these leaves. */
  ghost predicate Puts(s: Store, pre: seq<Op>, mid: seq<Op>, d: Document, leaves': map<Bytes, Value>) {
    && DocOps(pre) && DocOps(mid)
    && Apply(pre + mid, Docs, Entries(s, Docs)) == Entries(s, Docs)[d.id := Doc(d)]
    && Apply(pre + mid, Leaves, Entries(s, Leaves)) == leaves'
  }

  /** The document may be stored over these leaves, in place of the other. */
  ghost predicate Takes(env: Env, s: Store, replaced: Option<Document>, d: Document, leaves': map<Bytes, Value>) {
    && Admitted(env, d) && Replaces(WinnersOf(Entries(s, Docs)), replaced, d)
    && OnlyLeavesOf(d.id, Entries(s, Leaves), leaves') && SoundAt(d.id, d, leaves') && LeavesAdmitted(env, leaves')
  }

  lemma ReplaceKeeps(env: Env, s: Store, pre: seq<Op>, replaced: Option<Document>, mid: seq<Op>, d: Document,
                     leaves': map<Bytes, Value>, t: Store)
    requires Inv(env, s) && Puts(s, pre, mid, d, leaves') && Takes(env, s, replaced, d, leaves')
    requires t == Committed(ReplaceLog(env, s, pre, replaced, mid, d), s) && CountersFit(t)
    ensures Inv(env, t) && EntriesAre(t, s, s[Docs].entries[d.id := Doc(d)], leaves')
    ensures t[AttRefs].entries == Apply(pre + mid, AttRefs, s[AttRefs].entries)
  {
    var docs := s[Docs].entries;
    HasDocBuckets(s);
    WinnersKeyed(docs);
    AgreeHasBuckets(env, s, WinnersOf(docs));
    ReplaceCommitted(env, s, pre, replaced, mid, d);
    DocumentsStep(docs, s[Leaves].entries, d.id, d, leaves');
    WinnersStep(docs, d.id, d);
    ReplaceIndices(env, s, WinnersOf(docs), pre, replaced, mid, d, t);
  }

  lemma HasDocBuckets(s: Store)
    requires Docs in s && Leaves in s && AttRefs in s
    ensures DOC_BUCKETS <= s.Keys
  {
  }

  /** Document operations alone, leaving every winner in place. */
  lemma DocOpsKeep(env: Env, s: Store, ops: seq<Op>, docs': map<Bytes, Value>, leaves': map<Bytes, Value>)
    requires Inv(env, s) && DocOps(ops)
    requires Apply(ops, Docs, s[Docs].entries) == docs' && Apply(ops, Leaves, s[Leaves].entries) == leaves'
    requires DocumentsAgree(docs', leaves') && LeavesAdmitted(env, leaves')
    requires WinnersOf(docs') == WinnersOf(s[Docs].entries)
    ensures Inv(env, Committed(ops, s)) && EntriesAre(Committed(ops, s), s, docs', leaves')
    ensures Committed(ops, s)[AttRefs].entries == Apply(ops, AttRefs, s[AttRefs].entries)
  {
    var m := Machine(s, 0, false);
    var winners := WinnersOf(s[Docs].entries);
    AgreeHasBuckets(env, s, winners);
    DocOpsFrame(env, ops, m);
    PlainReplay(ops, m, Docs);
    PlainReplay(ops, m, Leaves);
    PlainReplay(ops, m, AttRefs);
    forall j | 0 <= j < |env.indices| ensures IndexAgrees(env.indices[j], Replay(ops, m).store, winners) {
      AgreesMoves(env.indices[j], s, Replay(ops, m).store, winners);
    }
  }
}
