/** Replicated writes and deletions of conflict branches: both touch the leaves
    first and the winner only if it changes. */
module ConflictWriters {
  import opened ByteStrings
  import opened Documents
  import opened DocStore
  import opened Effects
  import opened Engine
  import opened IndexInvariants
  import opened Indexes
  import opened Revisions
  import opened SortedKeys
  import opened StoreInvariant
  import opened Writers

  /******* The winner among the leaves *******/

  /** When the old leaves had top w, adding d leaves only the two as candidates. */
  lemma WinnerAmong(left: set<Bytes>, old': set<Bytes>, d: Bytes, w: Bytes)
    requires d in left && left <= old' + {d} && (w in left || NotAbove(w, d))
    requires forall r :: r in old' ==> WellFormed(r) && NotAbove(r, w)
    requires WellFormed(d) && WellFormed(w)
    ensures var top := if NotAbove(w, d) then d else w;
            top in left && WinnerRev(Sorted(left)) == top && forall r :: r in left ==> NotAbove(r, top)
  {
    var top := if NotAbove(w, d) then d else w;
    CompareRevsOrder(d, d, d);
    CompareRevsOrder(d, w, w);
    forall r | r in left ensures WellFormed(r) && NotAbove(r, top) {
      if r != d { CompareRevsOrder(r, w, d); }
    }
    var s := Sorted(left);
    assert d in s;
    WinnerUnique(s, top);
  }

  lemma OnlyCandidate(d: Bytes)
    requires WellFormed(d)
    ensures WinnerRev(Sorted({d})) == d && NotAbove(d, d)
  {
    CompareRevsOrder(d, d, d);
    WinnerAmong({d}, {}, d, d);
  }

  /******* Leaf operations followed by the winner's *******/

  /** What the leaf operations of a writer do. */
  ghost predicate Releaves(ops: seq<Op>, docs: map<Bytes, Value>, leaves: map<Bytes, Value>, refs: map<Bytes, Value>,
                           d: Document, gone: set<Bytes>) {
    && DocOps(ops) && Apply(ops, Docs, docs) == docs && Apply(ops, AttRefs, refs) == refs
    && Apply(ops, Leaves, leaves) == Releaved(leaves, d, gone)
  }

  lemma NewWinner(env: Env, s: Store, docs: map<Bytes, Value>, leaves: map<Bytes, Value>, stored: Option<Document>,
                  d: Document, leaves': map<Bytes, Value>, leafOps: seq<Op>, t: Store)
    requires Inv(env, s) && EntriesOf(s, docs, leaves)
    requires DocOps(leafOps) && Apply(leafOps, Docs, docs) == docs && Apply(leafOps, Leaves, leaves) == leaves'
    requires ValidId(d.id) && Takes(env, s, stored, d, leaves')
    requires t == Committed(ReplaceLog(env, s, leafOps, stored, [Put(Docs, d.id, Doc(d))], d), s) && CountersFit(t)
    ensures Inv(env, t) && EntriesAre(t, s, docs[d.id := Doc(d)], leaves')
  {
    PutAfter(leafOps, d, docs, Docs);
    PutAfter(leafOps, d, leaves, Leaves);
    ReplaceKeeps(env, s, leafOps, stored, [Put(Docs, d.id, Doc(d))], d, leaves', t);
  }

  lemma PutAfter(ops: seq<Op>, d: Document, e: map<Bytes, Value>, b: BucketName)
    ensures d.id != [] ==> DocOps([Put(Docs, d.id, Doc(d))])
    ensures var r := Apply(ops, b, e);
            Apply(ops + [Put(Docs, d.id, Doc(d))], b, e) == if b == Docs then r[d.id := Doc(d)] else r
  {
    ApplyAppend(ops, [Put(Docs, d.id, Doc(d))], b, e);
    ApplyPut(d.id, Doc(d), Docs, b, Apply(ops, b, e));
  }

  lemma OldWinner(env: Env, s: Store, docs: map<Bytes, Value>, leaves: map<Bytes, Value>,
                  d: Document, gone: set<Bytes>, leafOps: seq<Op>, w: Document)
    requires Inv(env, s) && EntriesOf(s, docs, leaves) && Releaves(leafOps, docs, leaves, s[AttRefs].entries, d, gone)
    requires d.id in docs && docs[d.id] == Doc(w) && SoundAt(d.id, w, Releaved(leaves, d, gone)) && Admitted(env, d)
    ensures Inv(env, Committed(leafOps, s)) && EntriesAre(Committed(leafOps, s), s, docs, Releaved(leaves, d, gone))
  {
    ReleavedOnly(leaves, d, gone);
    DocumentsStep(docs, leaves, d.id, w, Releaved(leaves, d, gone));
    assert docs[d.id := Doc(w)] == docs;
    ReleavedAdmitted(env, leaves, d, gone);
    DocOpsKeep(env, s, leafOps, docs, Releaved(leaves, d, gone));
  }

  /** Nothing but one ID's leaves and, if at all, its winner changed. */
  lemma LeafStepOthers(s: Store, t: Store, docs: map<Bytes, Value>, leaves: map<Bytes, Value>, d: Document,
                       gone: set<Bytes>, w: Document, docs': map<Bytes, Value>)
    requires EntriesOf(s, docs, leaves) && EntriesAre(t, s, docs', Releaved(leaves, d, gone)) && ValidId(d.id)
    requires docs' == docs || docs' == docs[d.id := Doc(w)]
    ensures OthersKept(s, t, d.id)
  {
    ReleavedOnly(leaves, d, gone);
    OthersSame(s, t, d.id);
  }

  ghost function LeftAfter(s: Store, d: Document, gone: set<Bytes>): set<Bytes> {
    LeafSet(LeavesIn(s), d.id) + {d.rev} - gone
  }

  /** A document that may join the leaves while others cease to be leaves. */
  ghost predicate MayRecord(env: Env, s: Store, d: Document, gone: set<Bytes>) {
    && ValidId(d.id) && !IsLocal(d.id) && WellFormed(d.rev) && d.history != [] && d.history[0] == d.rev
    && Admitted(env, d) && d.rev !in gone
  }

  ghost predicate TopOf(revs: set<Bytes>, w: Bytes) {
    w in revs && WellFormed(w) && forall r :: r in revs ==> NotAbove(r, w)
  }

  /** The revision the winner rule picks among the leaves that are left. */
  ghost function TopLeft(s: Store, d: Document, gone: set<Bytes>): Bytes
    requires d.rev !in gone
  {
    assert d.rev in LeftAfter(s, d, gone);
    WinnerRev(Sorted(LeftAfter(s, d, gone)))
  }

  /** The document stored in the end: the one stored already, the one that joined,
      or else the committed leaf of that revision. */
  ghost function Settled(s: Store, d: Document, gone: set<Bytes>): Option<Document>
    requires d.rev !in gone
  {
    PickFor(s, d, TopLeft(s, d, gone))
  }

  ghost function PickFor(s: Store, d: Document, top: Bytes): Option<Document> {
    var w := WinnerAt(s, d.id);
    if w.Some? && w.value.rev == top then w
    else if top == d.rev then Some(d)
    else GetLeaf(s, d.id, top)
  }

  lemma TopLeftIsTop(env: Env, s: Store, d: Document, gone: set<Bytes>)
    requires Inv(env, s) && MayRecord(env, s, d, gone)
    ensures TopOf(LeftAfter(s, d, gone), TopLeft(s, d, gone))
  {
    var left := LeftAfter(s, d, gone);
    AtId(env, s, d.id);
    assert d.rev in left;
    var top := WinnerRev(Sorted(left));
    assert top in Sorted(left);
    forall r | r in left ensures NotAbove(r, top) { assert r in Sorted(left); }
  }

  lemma LeafFits(env: Env, s: Store, id: Bytes, r: Bytes)
    requires Inv(env, s) && ValidId(id) && r in LeafSet(LeavesIn(s), id)
    ensures var w := GetLeaf(s, id, r);
            w.Some? && w.value.id == id && w.value.rev == r && Admitted(env, w.value) && Headed(w.value)
  {
    LeafSetMembers(LeavesIn(s), id, r);
    LeafAt(DocsIn(s), LeavesIn(s), id, r);
    assert LeafAdmitted(env, LeavesIn(s)[LeafKey(id, r)]);
  }

  lemma PickFits(env: Env, s: Store, d: Document, top: Bytes)
    requires Inv(env, s) && ValidId(d.id) && !IsLocal(d.id) && Admitted(env, d) && Headed(d)
    requires top == d.rev || top in LeafSet(LeavesIn(s), d.id)
    ensures var w := PickFor(s, d, top);
            && w.Some? && w.value.id == d.id && w.value.rev == top && Headed(w.value)
            && (w == WinnerAt(s, d.id) || Admitted(env, w.value))
  {
    StoredLikeWinner(env, s, d.id);
    if top != d.rev { LeafFits(env, s, d.id, top); }
    PickAmong(env, s, d, top);
  }

  lemma PickAmong(env: Env, s: Store, d: Document, top: Bytes)
    requires Admitted(env, d) && Headed(d)
    requires WinnerAt(s, d.id).Some? ==> WinnerAt(s, d.id).value.id == d.id && Headed(WinnerAt(s, d.id).value)
    requires var w := GetLeaf(s, d.id, top);
             top == d.rev
             || (w.Some? && w.value.id == d.id && w.value.rev == top && Admitted(env, w.value) && Headed(w.value))
    ensures var w := PickFor(s, d, top);
            && w.Some? && w.value.id == d.id && w.value.rev == top && Headed(w.value)
            && (w == WinnerAt(s, d.id) || Admitted(env, w.value))
  {
  }

  /** There is such a document, and every index can take it in. */
  lemma SettledFits(env: Env, s: Store, d: Document, gone: set<Bytes>)
    requires Inv(env, s) && MayRecord(env, s, d, gone)
    ensures var w := Settled(s, d, gone);
            && w.Some? && w.value.id == d.id && w.value.rev == TopLeft(s, d, gone) && Headed(w.value)
            && (w == WinnerAt(s, d.id) || Admitted(env, w.value))
  {
    TopLeftIsTop(env, s, d, gone);
    PickFits(env, s, d, TopLeft(s, d, gone));
  }

  lemma SoundTop(docs: map<Bytes, Value>, leaves: map<Bytes, Value>, d: Document, gone: set<Bytes>, w: Document)
    requires LeavesOk(docs, leaves) && ValidId(d.id) && !IsLocal(d.id) && WellFormed(d.rev)
    requires Headed(d) && Headed(w) && w.id == d.id
    requires TopOf(LeafSet(leaves, d.id) + {d.rev} - gone, w.rev)
    ensures SoundAt(d.id, w, Releaved(leaves, d, gone)) && OnlyLeavesOf(d.id, leaves, Releaved(leaves, d, gone))
  {
    ReleavedSet(leaves, d, gone);
    ReleavedOnly(leaves, d, gone);
    ReleavedSound(docs, leaves, d, gone, w);
  }

  /** d is recorded among the leaves, others are no leaves any more, and w wins. */
  ghost predicate RecordedAs(env: Env, s: Store, t: Store, d: Document, gone: set<Bytes>, w: Option<Document>) {
    && Inv(env, t) && OthersKept(s, t, d.id)
    && LeavesIn(t) == Releaved(LeavesIn(s), d, gone)
    && WinnerAt(t, d.id) == w
  }

  /** What recording d among the leaves comes to. */
  ghost predicate Recorded(env: Env, s: Store, t: Store, d: Document, gone: set<Bytes>)
    requires d.rev !in gone
  {
    RecordedAs(env, s, t, d, gone, Settled(s, d, gone))
  }

  /** All that storing w over the new leaves needs. */
  ghost predicate ReadyFor(env: Env, s: Store, docs: map<Bytes, Value>, leaves: map<Bytes, Value>, d: Document,
                           gone: set<Bytes>, w: Document) {
    && SoundAt(d.id, w, Releaved(leaves, d, gone)) && OnlyLeavesOf(d.id, leaves, Releaved(leaves, d, gone))
    && LeavesAdmitted(env, Releaved(leaves, d, gone)) && w.id == d.id
    && Replaces(WinnersOf(docs), StoredAt(s, d.id), w)
  }

  lemma RecordReady(env: Env, s: Store, docs: map<Bytes, Value>, leaves: map<Bytes, Value>, d: Document,
                    gone: set<Bytes>, w: Document)
    requires Inv(env, s) && EntriesOf(s, docs, leaves) && MayRecord(env, s, d, gone) && Settled(s, d, gone) == Some(w)
    ensures ReadyFor(env, s, docs, leaves, d, gone, w)
  {
    TopLeftIsTop(env, s, d, gone);
    SettledFits(env, s, d, gone);
    ReadyWith(env, s, docs, leaves, d, gone, w);
  }

  lemma ReadyWith(env: Env, s: Store, docs: map<Bytes, Value>, leaves: map<Bytes, Value>, d: Document,
                  gone: set<Bytes>, w: Document)
    requires Inv(env, s) && EntriesOf(s, docs, leaves) && MayRecord(env, s, d, gone) && w.id == d.id && Headed(w)
    requires TopOf(LeafSet(leaves, d.id) + {d.rev} - gone, w.rev)
    ensures ReadyFor(env, s, docs, leaves, d, gone, w)
  {
    SoundTop(docs, leaves, d, gone, w);
    ReleavedAdmitted(env, leaves, d, gone);
    AtId(env, s, d.id);
  }

  lemma RecordNew(env: Env, s: Store, docs: map<Bytes, Value>, leaves: map<Bytes, Value>, d: Document,
                  gone: set<Bytes>, leafOps: seq<Op>, stored: Option<Document>, w: Document, t: Store)
    requires Inv(env, s) && EntriesOf(s, docs, leaves) && ValidId(d.id) && ReadyFor(env, s, docs, leaves, d, gone, w)
    requires Releaves(leafOps, docs, leaves, s[AttRefs].entries, d, gone) && stored == StoredAt(s, d.id)
    requires Admitted(env, w)
    requires t == Committed(ReplaceLog(env, s, leafOps, stored, [Put(Docs, w.id, Doc(w))], w), s) && CountersFit(t)
    ensures RecordedAs(env, s, t, d, gone, Some(w))
  {
    NewWinner(env, s, docs, leaves, stored, w, Releaved(leaves, d, gone), leafOps, t);
    LeafStepOthers(s, t, docs, leaves, d, gone, w, docs[d.id := Doc(w)]);
  }

  lemma RecordBelow(env: Env, s: Store, docs: map<Bytes, Value>, leaves: map<Bytes, Value>, d: Document,
                    gone: set<Bytes>, leafOps: seq<Op>, w: Document, t: Store)
    requires Inv(env, s) && EntriesOf(s, docs, leaves) && ValidId(d.id) && ReadyFor(env, s, docs, leaves, d, gone, w)
    requires Releaves(leafOps, docs, leaves, s[AttRefs].entries, d, gone) && Admitted(env, d)
    requires d.id in docs && docs[d.id] == Doc(w)
    requires t == Committed(leafOps, s)
    ensures RecordedAs(env, s, t, d, gone, Some(w))
  {
    OldWinner(env, s, docs, leaves, d, gone, leafOps, w);
    LeafStepOthers(s, t, docs, leaves, d, gone, w, docs);
  }

  lemma WinnerOpsLog(env: Env, s: Store, stored: Option<Document>, winner: Bytes, w: Document, leafOps: seq<Op>)
    requires winner != if stored.Some? then stored.value.rev else []
    ensures leafOps + WinnerOps(env, s, stored, w.id, winner, Some(w))
         == ReplaceLog(env, s, leafOps, stored, [Put(Docs, w.id, Doc(w))], w)
  {
    Assoc(RemovalOf(env, s, stored), [Put(Docs, w.id, Doc(w))], AllStored(env.indices, s, w));
  }

  /** The document a writer takes for the winner's. */
  ghost predicate Chosen(s: Store, d: Document, gone: set<Bytes>, wd: Option<Document>)
    requires d.rev !in gone
  {
    var w, top := WinnerAt(s, d.id), TopLeft(s, d, gone);
    if top == d.rev then wd == Some(d) else (w.Some? && w.value.rev == top) || wd == GetLeaf(s, d.id, top)
  }

  lemma LeafWriterKeeps(env: Env, s: Store, docs: map<Bytes, Value>, leaves: map<Bytes, Value>, d: Document,
                        gone: set<Bytes>, leafOps: seq<Op>, wd: Option<Document>, t: Store)
    requires Inv(env, s) && EntriesOf(s, docs, leaves) && MayRecord(env, s, d, gone)
    requires Releaves(leafOps, docs, leaves, s[AttRefs].entries, d, gone) && Chosen(s, d, gone, wd)
    requires t == Committed(leafOps + WinnerOps(env, s, StoredAt(s, d.id), d.id, TopLeft(s, d, gone), wd), s)
    requires CountersFit(t)
    ensures Recorded(env, s, t, d, gone)
  {
    var stored, top, w := StoredAt(s, d.id), TopLeft(s, d, gone), Settled(s, d, gone);
    SettledFits(env, s, d, gone);
    TopLeftIsTop(env, s, d, gone);
    RecordReady(env, s, docs, leaves, d, gone, w.value);
    StoredLikeWinner(env, s, d.id);
    HasDash(top);
    WinnerLogged(env, s, d, top, w.value, wd, leafOps, stored);
    if WinnerAt(s, d.id).Some? && WinnerAt(s, d.id).value.rev == top {
      RecordBelow(env, s, docs, leaves, d, gone, leafOps, w.value, t);
    } else {
      RecordNew(env, s, docs, leaves, d, gone, leafOps, stored, w.value, t);
    }
  }

  /** The winner's part of the log: nothing, or the replacement. */
  lemma WinnerLogged(env: Env, s: Store, d: Document, top: Bytes, w: Document, wd: Option<Document>, leafOps: seq<Op>,
                     stored: Option<Document>)
    requires top != [] && PickFor(s, d, top) == Some(w) && w.id == d.id && SameRev(WinnerAt(s, d.id), stored)
    requires if top == d.rev then wd == Some(d)
             else (WinnerAt(s, d.id).Some? && WinnerAt(s, d.id).value.rev == top) || wd == GetLeaf(s, d.id, top)
    ensures var log := leafOps + WinnerOps(env, s, stored, d.id, top, wd);
            if WinnerAt(s, d.id).Some? && WinnerAt(s, d.id).value.rev == top then log == leafOps
            else log == ReplaceLog(env, s, leafOps, stored, [Put(Docs, w.id, Doc(w))], w)
  {
    if WinnerAt(s, d.id).Some? && WinnerAt(s, d.id).value.rev == top {
      assert leafOps + [] == leafOps;
    } else {
      WinnerOpsLog(env, s, stored, top, w, leafOps);
    }
  }

  /******* Who wins *******/

  /** The higher of the two, where the stored winner is not given up for nothing. */
  ghost function NextWinner(current: Option<Document>, d: Document): Option<Document> {
    if current.Some? && (!NotAbove(current.value.rev, d.rev) || current.value.rev == d.rev) then current else Some(d)
  }

  /** The stored winner stays a leaf unless it is below what joins. */
  ghost predicate KeepsWinner(s: Store, d: Document, gone: set<Bytes>) {
    var w := WinnerAt(s, d.id);
    w.Some? && w.value.rev in gone ==> NotAbove(w.value.rev, d.rev) && w.value.rev != d.rev
  }

  /** Then the winner is one of the two, never a third leaf. */
  lemma SettledNext(env: Env, s: Store, d: Document, gone: set<Bytes>)
    requires Inv(env, s) && MayRecord(env, s, d, gone) && KeepsWinner(s, d, gone)
    ensures Settled(s, d, gone) == NextWinner(WinnerAt(s, d.id), d)
  {
    AtId(env, s, d.id);
    var w := WinnerAt(s, d.id);
    Candidates(LeafSet(LeavesIn(s), d.id), d.rev, if w.Some? then Some(w.value.rev) else None, gone);
  }

  lemma Candidates(revs: set<Bytes>, d: Bytes, w: Option<Bytes>, gone: set<Bytes>)
    requires WellFormed(d) && d !in gone && forall r :: r in revs ==> WellFormed(r)
    requires w.None? ==> revs == {}
    requires w.Some? ==> TopOf(revs, w.value)
    requires w.Some? && w.value in gone ==> NotAbove(w.value, d) && w.value != d
    ensures var left := revs + {d} - gone;
            var top := if w.Some? && (!NotAbove(w.value, d) || w.value == d) then w.value else d;
            left != {} && WinnerRev(Sorted(left)) == top && TopOf(left, top)
  {
    var left := revs + {d} - gone;
    assert d in left;
    if w.None? {
      assert left == {d};
      OnlyCandidate(d);
    } else {
      WinnerAmong(left, revs, d, w.value);
    }
  }

  /** A committed leaf has to be looked up exactly when what joins names the stored
      winner among those that go and another leaf is above it. */
  lemma LookupNeeded(env: Env, s: Store, d: Document, gone: set<Bytes>)
    requires Inv(env, s) && MayRecord(env, s, d, gone)
    ensures var w, top := WinnerAt(s, d.id), TopLeft(s, d, gone);
            top != d.rev && !(w.Some? && w.value.rev == top) <==>
            w.Some? && w.value.rev in gone
            && exists r :: r in LeafSet(LeavesIn(s), d.id) && r !in gone && !NotAbove(r, d.rev)
  {
    var w, top, left := WinnerAt(s, d.id), TopLeft(s, d, gone), LeftAfter(s, d, gone);
    AtId(env, s, d.id);
    TopLeftIsTop(env, s, d, gone);
    CompareRevsOrder(top, d.rev, d.rev);
    if top != d.rev && !(w.Some? && w.value.rev == top) {
      assert top in LeafSet(LeavesIn(s), d.id) && NotAbove(d.rev, top) && !NotAbove(top, d.rev);
      if w.value.rev !in gone {
        assert w.value.rev in left;
        CompareRevsOrder(w.value.rev, top, top);
      }
    }
    if r :| r in LeafSet(LeavesIn(s), d.id) && r !in gone && !NotAbove(r, d.rev) {
      assert r in left && NotAbove(r, top);
    }
  }

  /******* PutDocumentForReplication *******/

  ghost function Delivered(given: Document): Document {
    given.(history := SuppliedHistory(given))
  }

  ghost function Ancestors(d: Document): set<Bytes> {
    if d.history == [] then {} else set r | r in d.history[1..]
  }

  /** What the storage layer takes for granted about a delivery: a revision that
      heads its history and is not its own ancestor. The rest of the history may be
      anything, so a merged one will do. */
  ghost predicate SoundDelivery(d: Document) {
    && ValidId(d.id) && !IsLocal(d.id) && WellFormed(d.rev)
    && d.history != [] && d.history[0] == d.rev && d.rev !in Ancestors(d)
  }

  /** A delivery whose history is a genuine chain: the generations fall. */
  ghost predicate ChainDelivery(d: Document) {
    SoundDelivery(d) && forall r :: r in Ancestors(d) ==> Gen(r) < Gen(d.rev)
  }

  /** A chain takes no winner away that is above its own revision. */
  lemma ChainKeepsWinner(s: Store, d: Document)
    requires ChainDelivery(d)
    ensures KeepsWinner(s, d, Ancestors(d))
  {
  }

  lemma ReleavedPruned(leaves: map<Bytes, Value>, d: Document, pruned: set<Bytes>, all: set<Bytes>)
    requires pruned <= all && d.rev !in all
    requires forall r :: r in all && r in LeafSet(leaves, d.id) ==> r in pruned
    ensures Releaved(leaves, d, pruned) == Releaved(leaves, d, all)
  {
    var base := leaves[LeafKey(d.id, d.rev) := Doc(d)];
    forall r | r in all && LeafKey(d.id, r) in base ensures r in pruned {
      LeafKeyInjective(d.id, r, d.rev);
      LeafSetMembers(leaves, d.id, r);
    }
    forall k | k in base ensures k in (set r | r in pruned :: LeafKey(d.id, r)) <==> k in (set r | r in all :: LeafKey(d.id, r)) {
      if k in (set r | r in all :: LeafKey(d.id, r)) {
        var r :| r in all && LeafKey(d.id, r) == k;
        assert r in pruned;
      }
    }
  }

  lemma DeliveryReleaves(s: Store, stored: Option<Document>, d: Document, docs: map<Bytes, Value>,
                         leaves: map<Bytes, Value>, refs: map<Bytes, Value>)
    requires SoundDelivery(d) && EntriesOf(s, docs, leaves)
    ensures Releaves(DeliveryOps(s, stored, d), docs, leaves, refs, d, Ancestors(d))
  {
    var pruned := PrunedBy(s, stored, d);
    DeliveryApply(d, pruned, docs, Docs);
    DeliveryApply(d, pruned, refs, AttRefs);
    DeliveryApply(d, pruned, leaves, Leaves);
    LeafRevsAreLeafSet(s, d.id);
    ReleavedPruned(leaves, d, (set r | r in pruned), Ancestors(d));
  }

  lemma DeliveryApply(d: Document, pruned: seq<Bytes>, e: map<Bytes, Value>, b: BucketName)
    ensures DocOps([PutLeaf(d)] + DeleteLeaves(d.id, pruned))
    ensures Apply([PutLeaf(d)] + DeleteLeaves(d.id, pruned), b, e)
         == if b == Leaves then Releaved(e, d, set r | r in pruned) else e
  {
    ApplyAppend([PutLeaf(d)], DeleteLeaves(d.id, pruned), b, e);
    ApplyPut(LeafKey(d.id, d.rev), Doc(d), Leaves, b, e);
    ApplyDeleteLeaves(d.id, pruned, b, Apply([PutLeaf(d)], b, e));
    assert (set r | r in (set o | o in pruned) :: LeafKey(d.id, r)) == set r | r in pruned :: LeafKey(d.id, r);
  }

  /** The delivery is refused only when it is the current winner already; otherwise
      it becomes a leaf, its ancestors cease to be leaves, and the highest leaf left
      is the winner. */
  ghost predicate DeliveryOutcome(env: Env, s: Store, given: Document, t: Store)
    requires SoundDelivery(Delivered(given))
  {
    var d, result := Delivered(given), ReplicationPlan(env, s, given).result;
    var w := WinnerAt(s, given.id);
    if w.Some? && w.value.rev == given.rev
    then result == Unchanged && t == s
    else result == Done(given.rev) && Recorded(env, s, t, d, Ancestors(d))
  }

  /** The plan of a delivery that is not the stored winner already. */
  lemma UnfoldDelivery(env: Env, s: Store, given: Document, left: set<Bytes>)
    requires Delivered(given).history != [] && left == RemainingLeaves(s, StoredAt(s, given.id), Delivered(given))
    requires left != {} && AdoptOps(s, StoredAt(s, given.id), given.id) == []
    requires StoredAt(s, given.id).Some? ==> RevString(StoredAt(s, given.id).value) != RevString(given)
    ensures var d, stored, p := Delivered(given), StoredAt(s, given.id), ReplicationPlan(env, s, given);
            var winner := WinnerRev(Sorted(left));
            && p.result == Done(given.rev)
            && p.ops == DeliveryOps(s, stored, d)
                        + WinnerOps(env, s, stored, d.id, winner, LeafOrSelf(s, d, winner))
  {
    var d, stored := Delivered(given), StoredAt(s, given.id);
    ReplicationUnfolds(env, s, given, stored, d);
    assert [] + DeliveryOps(s, stored, d) == DeliveryOps(s, stored, d);
  }

  lemma DeliveryPlan(env: Env, s: Store, given: Document)
    requires Inv(env, s) && SoundDelivery(Delivered(given))
    ensures var d, stored, p := Delivered(given), StoredAt(s, given.id), ReplicationPlan(env, s, given);
            var w := WinnerAt(s, given.id);
            if w.Some? && w.value.rev == given.rev then p == Plan([], Unchanged)
            else
              && p.result == Done(given.rev)
              && var winner := TopLeft(s, d, Ancestors(d));
                 p.ops == DeliveryOps(s, stored, d)
                          + WinnerOps(env, s, stored, d.id, winner, LeafOrSelf(s, d, winner))
  {
    var d, stored := Delivered(given), StoredAt(s, given.id);
    AtId(env, s, d.id);
    SameRevision(given);
    if stored.Some? { SameRevision(stored.value); }
    if !(stored.Some? && stored.value.rev == given.rev) {
      LeftByPruning(LeavesIn(s), s, stored, d);
      assert d.rev in LeftAfter(s, d, Ancestors(d));
      UnfoldDelivery(env, s, given, LeftAfter(s, d, Ancestors(d)));
    }
  }

  lemma SameRevision(d: Document)
    ensures WellFormed(d.rev) ==> RevString(d) == d.rev
  {
    if WellFormed(d.rev) { HasDash(d.rev); }
  }

  lemma LeftByPruning(leaves: map<Bytes, Value>, s: Store, stored: Option<Document>, d: Document)
    requires leaves == Entries(s, Leaves) && SoundDelivery(d)
    requires stored.Some? ==> stored.value.rev in LeafSet(leaves, d.id) && stored.value.id == d.id
    ensures AdoptOps(s, stored, d.id) == []
    ensures RemainingLeaves(s, stored, d) == LeafSet(leaves, d.id) + {d.rev} - Ancestors(d)
  {
    LeafRevsAreLeafSet(s, d.id);
    if stored.Some? {
      assert stored.value.rev in (set r | r in LeafRevs(s, d.id));
    }
  }

  lemma ReplicationKeeps(env: Env, s: Store, given: Document)
    requires Inv(env, s) && SoundDelivery(Delivered(given)) && Admitted(env, given)
    requires CountersFit(Committed(ReplicationPlan(env, s, given).ops, s))
    ensures DeliveryOutcome(env, s, given, Committed(ReplicationPlan(env, s, given).ops, s))
  {
    var d := Delivered(given);
    DeliveryPlan(env, s, given);
    var w := WinnerAt(s, given.id);
    if !(w.Some? && w.value.rev == given.rev) {
      var docs, leaves := s[Docs].entries, s[Leaves].entries;
      DeliveryReleaves(s, StoredAt(s, d.id), d, docs, leaves, s[AttRefs].entries);
      AdmitsSameData(env, given, d);
      LeafWriterKeeps(env, s, docs, leaves, d, Ancestors(d), DeliveryOps(s, StoredAt(s, d.id), d),
                      LeafOrSelf(s, d, TopLeft(s, d, Ancestors(d))),
                      Committed(ReplicationPlan(env, s, given).ops, s));
    }
  }

  /******* DeleteDocument *******/

  lemma BranchReleaves(d: Document, rev: Bytes, docs: map<Bytes, Value>, leaves: map<Bytes, Value>, refs: map<Bytes, Value>)
    requires rev != d.rev
    ensures Releaves([DeleteLeaf(d.id, rev), PutLeaf(d)], docs, leaves, refs, d, {rev})
  {
    BranchApply(d, rev, docs, Docs);
    BranchApply(d, rev, refs, AttRefs);
    BranchApply(d, rev, leaves, Leaves);
  }

  lemma BranchApply(d: Document, rev: Bytes, e: map<Bytes, Value>, b: BucketName)
    requires rev != d.rev
    ensures DocOps([DeleteLeaf(d.id, rev), PutLeaf(d)])
    ensures Apply([DeleteLeaf(d.id, rev), PutLeaf(d)], b, e) == if b == Leaves then Releaved(e, d, {rev}) else e
  {
    ApplyAppend([DeleteLeaf(d.id, rev)], [PutLeaf(d)], b, e);
    assert [DeleteLeaf(d.id, rev)] + [PutLeaf(d)] == [DeleteLeaf(d.id, rev), PutLeaf(d)];
    ApplyDelete(LeafKey(d.id, rev), Leaves, b, e);
    ApplyPut(LeafKey(d.id, d.rev), Doc(d), Leaves, b, Apply([DeleteLeaf(d.id, rev)], b, e));
    LeafKeyInjective(d.id, rev, d.rev);
    assert (set r | r in {rev} :: LeafKey(d.id, r)) == {LeafKey(d.id, rev)};
  }

  lemma TombstoneMayRecord(env: Env, s: Store, id: Bytes, rev: Bytes, leaf: Document)
    requires ValidId(id) && !IsLocal(id) && WellFormed(rev)
    requires WinnerAt(s, id).Some? ==> WinnerAt(s, id).value.rev != rev
    ensures DASH in rev
    ensures var d := BranchTombstone(env, id, rev, leaf);
            MayRecord(env, s, d, {rev}) && KeepsWinner(s, d, {rev}) && d.deleted && d.id == id && Gen(d.rev) == Gen(rev) + 1
  {
    HasDash(rev);
    var doc := Tombstone(id, rev);
    FormatParse(NextGeneration(Revision(doc)), env.hash(doc));
    CompareRevsOrder(rev, rev, rev);
    EditBeats(rev, env.hash(doc), rev);
  }

  lemma LeafFound(env: Env, s: Store, id: Bytes, rev: Bytes)
    requires Inv(env, s) && ValidId(id)
    ensures rev in LeafRevs(s, id) <==> rev in LeafSet(LeavesIn(s), id)
    ensures rev in LeafRevs(s, id) ==> GetLeaf(s, id, rev).Some? && WellFormed(rev) && !IsLocal(id)
  {
    LeafRevsMembers(s, id, rev);
    LeafSetMembers(LeavesIn(s), id, rev);
    if rev in LeafRevs(s, id) {
      LeafAt(DocsIn(s), LeavesIn(s), id, rev);
      assert LeafOk(LeafKey(id, rev), LeavesIn(s)[LeafKey(id, rev)]);
    }
  }

  /** Deleting the winner is an edit; deleting another leaf replaces it by a
      tombstone one generation up; deleting anything else is refused. */
  ghost predicate DeleteOutcome(env: Env, s: Store, id: Bytes, rev: Bytes, t: Store) {
    var w, result := WinnerAt(s, id), DeletePlan(env, s, id, rev).result;
    if w.None? then result == NotFound && t == s
    else if w.value.rev == rev then
      result == PutPlan(env, s, Bare(id, rev)).result && PutOutcome(env, s, Bare(id, rev), t)
    else if rev !in LeafSet(LeavesIn(s), id) then result == Conflict && t == s
    else
      && GetLeaf(s, id, rev).Some? && DASH in rev
      && var d := BranchTombstone(env, id, rev, GetLeaf(s, id, rev).value);
         && result == Done(d.rev) && EndsBranch(env, s, id, rev, d) && Gen(d.rev) == Gen(rev) + 1 && d.rev != rev
         && Recorded(env, s, t, d, {rev}) && WinnerAt(t, id) == NextWinner(w, d)
  }

  /** A deletion stores no data and no attachments. */
  ghost function Bare(id: Bytes, rev: Bytes): Document {
    Document(id, rev, true, 0, [], map[], map[])
  }

  /** The tombstone goes on from the history of the leaf it replaces. */
  ghost predicate EndsBranch(env: Env, s: Store, id: Bytes, rev: Bytes, d: Document)
    requires GetLeaf(s, id, rev).Some?
  {
    var before := GetLeaf(s, id, rev).value.history;
    && d == Bare(id, d.rev).(history := d.history) && NextNamed(env, Bare(id, rev), d.rev)
    && GoesOn(d.history, d.rev, if before == [] then [rev] else before)
  }

  lemma TombstoneEnds(env: Env, s: Store, id: Bytes, rev: Bytes, leaf: Document)
    requires WellFormed(rev) && DASH in rev && GetLeaf(s, id, rev) == Some(leaf)
    ensures EndsBranch(env, s, id, rev, BranchTombstone(env, id, rev, leaf))
  {
    HasDash(rev);
    FormatParse(NextGeneration(Revision(Tombstone(id, rev))), env.hash(Tombstone(id, rev)));
    NextOfWellFormed(rev);
  }

  lemma LeftWithTombstone(s: Store, rev: Bytes, d: Document)
    requires rev != d.rev
    ensures LeavesWithTombstone(s, rev, d) == LeftAfter(s, d, {rev})
  {
    LeafRevsAreLeafSet(s, d.id);
  }

  lemma BranchKeeps(env: Env, s: Store, rev: Bytes, stored: Document, d: Document, t: Store)
    requires Inv(env, s) && MayRecord(env, s, d, {rev}) && KeepsWinner(s, d, {rev}) && StoredAt(s, d.id) == Some(stored)
    requires t == Committed(BranchLog(env, s, stored, rev, d), s) && CountersFit(t)
    ensures Recorded(env, s, t, d, {rev}) && WinnerAt(t, d.id) == NextWinner(WinnerAt(s, d.id), d)
  {
    var docs, leaves := s[Docs].entries, s[Leaves].entries;
    BranchReleaves(d, rev, docs, leaves, s[AttRefs].entries);
    LeftWithTombstone(s, rev, d);
    SettledNext(env, s, d, {rev});
    AtId(env, s, d.id);
    var winner := WinnerRev(Sorted(LeavesWithTombstone(s, rev, d)));
    LeafWriterKeeps(env, s, docs, leaves, d, {rev}, [DeleteLeaf(d.id, rev), PutLeaf(d)],
                    BranchWinner(s, stored, d, winner), t);
  }

  lemma UnfoldRemoval(env: Env, s: Store, id: Bytes, rev: Bytes, stored: Document, leaf: Document)
    requires DASH in rev && stored.rev != rev
    requires GetDocument(s, id) == Found(stored) && rev in LeafRevs(s, id) && GetLeaf(s, id, rev) == Some(leaf)
    ensures var d := BranchTombstone(env, id, rev, leaf);
            DeletePlan(env, s, id, rev) == Plan(BranchLog(env, s, stored, rev, d), Done(d.rev))
  {
  }

  lemma RemovalKeeps(env: Env, s: Store, id: Bytes, rev: Bytes, stored: Document, leaf: Document, t: Store)
    requires Inv(env, s) && ValidId(id) && !IsLocal(id) && WellFormed(rev) && DASH in rev
    requires StoredAt(s, id) == Some(stored) && SameRev(WinnerAt(s, id), Some(stored)) && stored.rev != rev
    requires t == Committed(BranchLog(env, s, stored, rev, BranchTombstone(env, id, rev, leaf)), s) && CountersFit(t)
    ensures var d := BranchTombstone(env, id, rev, leaf);
            && d.deleted && Gen(d.rev) == Gen(rev) + 1 && d.rev != rev
            && Recorded(env, s, t, d, {rev}) && WinnerAt(t, id) == NextWinner(WinnerAt(s, id), d)
  {
    TombstoneMayRecord(env, s, id, rev, leaf);
    BranchKeeps(env, s, rev, stored, BranchTombstone(env, id, rev, leaf), t);
  }

  /** Nothing there, or no leaf of that revision: refused. */
  lemma RefusedDelete(env: Env, s: Store, id: Bytes, rev: Bytes)
    requires Inv(env, s) && ValidId(id)
    requires WinnerAt(s, id).None? || (WinnerAt(s, id).value.rev != rev && rev !in LeafRevs(s, id))
    ensures DeletePlan(env, s, id, rev) == Plan([], if WinnerAt(s, id).None? then NotFound else Conflict)
  {
    ReadStored(env, s, id);
  }

  lemma DeletedWinner(env: Env, s: Store, id: Bytes, rev: Bytes)
    requires Inv(env, s) && ValidId(id) && WinnerAt(s, id).Some? && WinnerAt(s, id).value.rev == rev
    requires CountersFit(Committed(DeletePlan(env, s, id, rev).ops, s))
    ensures DeletePlan(env, s, id, rev) == PutPlan(env, s, Tombstone(id, rev)) && Admitted(env, Tombstone(id, rev))
    ensures PutOutcome(env, s, Tombstone(id, rev), Committed(DeletePlan(env, s, id, rev).ops, s))
  {
    ReadStored(env, s, id);
    PutKeeps(env, s, Tombstone(id, rev));
  }

  lemma BranchToDelete(env: Env, s: Store, id: Bytes, rev: Bytes) returns (stored: Document, leaf: Document)
    requires Inv(env, s) && ValidId(id) && WinnerAt(s, id).Some? && WinnerAt(s, id).value.rev != rev
    requires rev in LeafRevs(s, id)
    ensures !IsLocal(id) && WellFormed(rev) && DASH in rev && rev in LeafSet(LeavesIn(s), id)
    ensures StoredAt(s, id) == Some(stored) && SameRev(WinnerAt(s, id), Some(stored)) && stored.rev != rev
    ensures GetLeaf(s, id, rev) == Some(leaf)
    ensures var d := BranchTombstone(env, id, rev, leaf);
            DeletePlan(env, s, id, rev) == Plan(BranchLog(env, s, stored, rev, d), Done(d.rev))
  {
    LeafFound(env, s, id, rev);
    ReadStored(env, s, id);
    HasDash(rev);
    stored, leaf := GetDocument(s, id).doc, GetLeaf(s, id, rev).value;
    UnfoldRemoval(env, s, id, rev, stored, leaf);
  }

  lemma DeleteKeeps(env: Env, s: Store, id: Bytes, rev: Bytes)
    requires Inv(env, s) && ValidId(id)
    requires CountersFit(Committed(DeletePlan(env, s, id, rev).ops, s))
    ensures DeleteOutcome(env, s, id, rev, Committed(DeletePlan(env, s, id, rev).ops, s))
  {
    if WinnerAt(s, id).None? || (WinnerAt(s, id).value.rev != rev && rev !in LeafRevs(s, id)) {
      LeafFound(env, s, id, rev);
      RefusedDelete(env, s, id, rev);
    } else if WinnerAt(s, id).value.rev == rev {
      DeletedWinner(env, s, id, rev);
    } else {
      var stored, leaf := BranchToDelete(env, s, id, rev);
      TombstoneEnds(env, s, id, rev, leaf);
      RemovalKeeps(env, s, id, rev, stored, leaf, Committed(DeletePlan(env, s, id, rev).ops, s));
    }
  }

  /******* What a delivery carries *******/

  /** The revisions of a "_revisions" object: a first generation that falls by one
      with each hash; no more than a thousand count. */
  ghost predicate SentAs(fields: map<Bytes, Json>, start: int, ids: seq<Bytes>, h: seq<Bytes>) {
    && START_FIELD in fields && fields[START_FIELD] == Num(start)
    && IDS_FIELD in fields && fields[IDS_FIELD].Arr? && |fields[IDS_FIELD].items| == |ids|
    && (forall i :: 0 <= i < |ids| ==> fields[IDS_FIELD].items[i] == Str(ids[i]))
    && |h| == (if |ids| < 1000 then |ids| else 1000)
    && forall i :: 0 <= i < |h| ==> h[i] == Format(start - i, ids[i])
  }

  /** The history a delivery comes with: that of its "_revisions", or else the one it
      has, or else its revision alone. */
  ghost predicate Carries(given: Document, h: seq<Bytes>) {
    if REVISIONS_FIELD in given.data && given.data[REVISIONS_FIELD].Obj? then
      h != [] && exists start, ids :: SentAs(given.data[REVISIONS_FIELD].fields, start, ids, h)
    else if given.history != [] then h == given.history
    else h == [given.rev] && given.rev != []
  }

  lemma {:induction false} ParsedIds(items: seq<Json>, start: int, ids: seq<Bytes>)
    requires |items| == |ids| && forall i :: 0 <= i < |ids| ==> items[i] == Str(ids[i])
    ensures |ParseIds(items, start)| == |ids|
    ensures forall i :: 0 <= i < |ids| ==> ParseIds(items, start)[i] == Format(start - i, ids[i])
  {
    if items != [] {
      ParsedIds(items[1..], start - 1, ids[1..]);
      var rest := ParseIds(items[1..], start - 1);
      assert ParseIds(items, start) == [Format(start, ids[0])] + rest;
      forall i | 0 <= i < |ids| ensures ParseIds(items, start)[i] == Format(start - i, ids[i]) {
        if i > 0 { assert rest[i - 1] == Format(start - 1 - (i - 1), ids[1..][i - 1]); }
      }
    }
  }

  lemma CarriedIsSupplied(given: Document, h: seq<Bytes>)
    requires Carries(given, h)
    ensures Delivered(given) == given.(history := h)
  {
    if REVISIONS_FIELD in given.data && given.data[REVISIONS_FIELD].Obj? {
      var fields := given.data[REVISIONS_FIELD].fields;
      var start, ids :| SentAs(fields, start, ids, h);
      ParsedIds(fields[IDS_FIELD].items, start, ids);
      assert Capped(ParseIds(fields[IDS_FIELD].items, start)) == h;
    }
  }

  /** What a delivery that carries history h comes to: unless its revision is stored
      already, that is a leaf with exactly this history, the others in it are no
      leaves, and the highest of the leaves there now is the winner. */
  ghost predicate HistoryRecorded(env: Env, s: Store, given: Document, h: seq<Bytes>, t: Store) {
    var id, w, result := given.id, WinnerAt(s, given.id), ReplicationPlan(env, s, given).result;
    if w.Some? && w.value.rev == given.rev then result == Unchanged && t == s
    else
      && result == Done(given.rev) && h != []
      && LeafSet(LeavesIn(t), id) == LeafSet(LeavesIn(s), id) + {h[0]} - (set r | r in h[1..])
      && GetLeaf(t, id, given.rev) == Some(given.(history := h))
      && WinnerAt(t, id).Some? && TopOf(LeafSet(LeavesIn(t), id), WinnerAt(t, id).value.rev)
  }

  lemma HistoryIsRecorded(env: Env, s: Store, given: Document, h: seq<Bytes>)
    requires Inv(env, s) && ValidId(given.id) && !IsLocal(given.id) && WellFormed(given.rev) && Admitted(env, given)
    requires Carries(given, h) && h[0] == given.rev && given.rev !in h[1..]
    requires CountersFit(Committed(ReplicationPlan(env, s, given).ops, s))
    ensures HistoryRecorded(env, s, given, h, Committed(ReplicationPlan(env, s, given).ops, s))
  {
    CarriedIsSupplied(given, h);
    ReplicationKeeps(env, s, given);
    var d, t := given.(history := h), Committed(ReplicationPlan(env, s, given).ops, s);
    if !(WinnerAt(s, given.id).Some? && WinnerAt(s, given.id).value.rev == given.rev) {
      AdmitsSameData(env, given, d);
      ReleavedSet(LeavesIn(s), d, Ancestors(d));
      SettledFits(env, s, d, Ancestors(d));
      TopLeftIsTop(env, s, d, Ancestors(d));
      JoinedLeaf(LeavesIn(s), d, Ancestors(d));
    }
  }

  lemma JoinedLeaf(leaves: map<Bytes, Value>, d: Document, gone: set<Bytes>)
    requires d.rev !in gone
    ensures var after := Releaved(leaves, d, gone);
            LeafKey(d.id, d.rev) in after && after[LeafKey(d.id, d.rev)] == Doc(d)
  {
    forall r | r in gone ensures LeafKey(d.id, r) != LeafKey(d.id, d.rev) { LeafKeyInjective(d.id, r, d.rev); }
  }

  /** The member a peer sends for a history. */
  function RevisionsJson(h: seq<Bytes>): Json
    requires h != []
  {
    Obj(map[START_FIELD := Num(RevisionsOf(h).start), IDS_FIELD := Arr(AsJson(RevisionsOf(h).ids))])
  }

  /** A genuine history sent as "_revisions" arrives as it was: the delivery records
      exactly it, and all its earlier revisions cease to be leaves. */
  lemma SentHistoryRecorded(env: Env, s: Store, given: Document, h: seq<Bytes>)
    requires Inv(env, s) && ValidId(given.id) && !IsLocal(given.id) && Admitted(env, given)
    requires 0 < |h| <= HISTORY_CAP && Consecutive(h) && given.rev == h[0]
    requires REVISIONS_FIELD in given.data && given.data[REVISIONS_FIELD] == RevisionsJson(h)
    requires CountersFit(Committed(ReplicationPlan(env, s, given).ops, s))
    ensures HistoryRecorded(env, s, given, h, Committed(ReplicationPlan(env, s, given).ops, s))
  {
    SentConsecutive(h);
    assert SentAs(given.data[REVISIONS_FIELD].fields, Gen(h[0]), RevisionsOf(h).ids, h);
    HistoryIsRecorded(env, s, given, h);
  }

  lemma SentConsecutive(h: seq<Bytes>)
    requires h != [] && Consecutive(h)
    ensures forall i :: 0 <= i < |h| ==> h[i] == Format(Gen(h[0]) - i, HashPart(h[i]))
    ensures h[0] !in h[1..]
  {
    forall i | 0 <= i < |h| ensures h[i] == Format(Gen(h[0]) - i, HashPart(h[i])) { assert WellFormed(h[i]); }
    forall i | 0 <= i < |h[1..]| ensures h[1..][i] != h[0] { assert Gen(h[1..][i]) == Gen(h[i + 1]) < Gen(h[0]); }
  }
}
