/** The three writers keep the store invariant; what each does to the leaves and
    the winner of its document. */
module Writers {
  import opened ByteStrings
  import opened Documents
  import opened DocStore
  import opened Effects
  import opened Engine
  import opened IndexInvariants
  import opened Indexes
  import opened Revisions
  import opened SortedKeys
  import opened StoreInvariant

  /** The leaf revisions recorded for an ID. */
  ghost function LeafSet(leaves: map<Bytes, Value>, id: Bytes): set<Bytes> {
    set k | k in leaves && id + [0] <= k :: k[|id| + 1..]
  }

  lemma LeafSetMembers(leaves: map<Bytes, Value>, id: Bytes, r: Bytes)
    ensures r in LeafSet(leaves, id) <==> LeafKey(id, r) in leaves
  {
    var k := LeafKey(id, r);
    if k in leaves {
      assert k[..|id| + 1] == id + [0] && k[|id| + 1..] == r;
    }
    if r in LeafSet(leaves, id) {
      var k' :| k' in leaves && id + [0] <= k' && k'[|id| + 1..] == r;
      assert k' == k'[..|id| + 1] + k'[|id| + 1..];
      assert k'[..|id| + 1] == id + [0];
    }
  }

  lemma LeafRevsAreLeafSet(s: Store, id: Bytes)
    ensures (set r | r in LeafRevs(s, id)) == LeafSet(Entries(s, Leaves), id)
  {
    forall r ensures r in LeafRevs(s, id) <==> r in LeafSet(Entries(s, Leaves), id) {
      LeafRevsMembers(s, id, r);
      LeafSetMembers(Entries(s, Leaves), id, r);
    }
  }

  ghost function DocsIn(s: Store): map<Bytes, Value> {
    Entries(s, Docs)
  }

  ghost function LeavesIn(s: Store): map<Bytes, Value> {
    Entries(s, Leaves)
  }

  ghost function WinnerAt(s: Store, id: Bytes): Option<Document> {
    if id in DocsIn(s) && DocsIn(s)[id].Doc? then Some(DocsIn(s)[id].doc) else None
  }

  ghost function StoredAt(s: Store, id: Bytes): Option<Document> {
    var read := GetDocument(s, id);
    if read.Found? then Some(read.doc) else None
  }

  /** w is an ID's winner: one of its leaves, and none is above it. */
  ghost predicate TopLeaf(leaves: map<Bytes, Value>, id: Bytes, w: Document) {
    && w.id == id && WellFormed(w.rev) && Headed(w) && w.rev in LeafSet(leaves, id)
    && forall r :: r in LeafSet(leaves, id) ==> NotAbove(r, w.rev)
  }

  lemma LeavesWellFormed(docs: map<Bytes, Value>, leaves: map<Bytes, Value>, id: Bytes)
    requires LeavesOk(docs, leaves) && ValidId(id)
    ensures forall r :: r in LeafSet(leaves, id) ==> WellFormed(r)
    ensures id !in docs ==> LeafSet(leaves, id) == {}
  {
    forall r | r in LeafSet(leaves, id) ensures WellFormed(r) && id in docs {
      LeafSetMembers(leaves, id, r);
      LeafAt(docs, leaves, id, r);
    }
  }

  lemma WinnerIsTop(docs: map<Bytes, Value>, leaves: map<Bytes, Value>, id: Bytes)
    requires DocsOk(docs) && WinnersOk(docs, leaves) && id in docs && !IsLocal(id)
    ensures docs[id].Doc? && TopLeaf(leaves, id, docs[id].doc)
  {
    var w := docs[id].doc;
    assert WinnerOk(docs, leaves, id);
    LeafSetMembers(leaves, id, w.rev);
    forall r | r in LeafSet(leaves, id) ensures NotAbove(r, w.rev) { LeafSetMembers(leaves, id, r); }
  }

  /** What the invariant says of one non-local ID. */
  lemma AtId(env: Env, s: Store, id: Bytes)
    requires Inv(env, s) && ValidId(id) && !IsLocal(id)
    ensures forall r :: r in LeafSet(LeavesIn(s), id) ==> WellFormed(r)
    ensures WinnerAt(s, id).None? ==>
              StoredAt(s, id).None? && LeafSet(LeavesIn(s), id) == {} && id !in WinnersOf(DocsIn(s))
    ensures WinnerAt(s, id).Some? ==>
              && TopLeaf(LeavesIn(s), id, WinnerAt(s, id).value)
              && StoredAt(s, id).Some? && ReadOf(WinnerAt(s, id).value, StoredAt(s, id).value)
              && id in WinnersOf(DocsIn(s)) && WinnersOf(DocsIn(s))[id] == WinnerAt(s, id).value
  {
    ReadStored(env, s, id);
    LeavesWellFormed(DocsIn(s), LeavesIn(s), id);
    if id in DocsIn(s) { WinnerIsTop(DocsIn(s), LeavesIn(s), id); }
  }

  /** A read finds a document exactly when one is stored, with the same revision. */
  lemma StoredLikeWinner(env: Env, s: Store, id: Bytes)
    requires Inv(env, s)
    ensures SameRev(WinnerAt(s, id), StoredAt(s, id))
    ensures WinnerAt(s, id).Some? ==> WinnerAt(s, id).value.id == id
    ensures WinnerAt(s, id).Some? && !IsLocal(id) ==> Headed(WinnerAt(s, id).value)
  {
    ReadStored(env, s, id);
    assert id in DocsIn(s) && !IsLocal(id) ==> WinnerOk(DocsIn(s), LeavesIn(s), id);
    assert id in DocsIn(s) ==> DocsIn(s)[id].Doc? && DocsIn(s)[id].doc.id == id;
  }

  ghost predicate SameRev(a: Option<Document>, b: Option<Document>) {
    (a.Some? <==> b.Some?) && (a.Some? ==> a.value.rev == b.value.rev)
  }

  lemma LeafAt(docs: map<Bytes, Value>, leaves: map<Bytes, Value>, id: Bytes, r: Bytes)
    requires LeavesOk(docs, leaves) && ValidId(id) && LeafKey(id, r) in leaves
    ensures WellFormed(r) && id in docs && leaves[LeafKey(id, r)].Doc?
    ensures var d := leaves[LeafKey(id, r)].doc;
            d.id == id && d.rev == r && d.history != [] && d.history[0] == r
  {
    var k := LeafKey(id, r);
    assert LeafOk(k, leaves[k]);
    var d := leaves[k].doc;
    assert k[..|id| + 1] == id + [0];
    LeafPrefix(id, d.id, d.rev);
    LeafKeyInjective(id, r, d.rev);
  }

  /******* Single operations on the entries *******/

  lemma ApplyPut(k: Bytes, v: Value, b: BucketName, b': BucketName, e: map<Bytes, Value>)
    ensures Apply([Put(b, k, v)], b', e) == if b == b' then e[k := v] else e
  {
    assert Apply([Put(b, k, v)][1..], b', e) == e;
  }

  lemma ApplyDelete(k: Bytes, b: BucketName, b': BucketName, e: map<Bytes, Value>)
    ensures Apply([Delete(b, k)], b', e) == if b == b' then e - {k} else e
  {
    assert Apply([Delete(b, k)][1..], b', e) == e;
  }

  lemma {:induction false} ApplyDeleteLeaves(id: Bytes, revs: seq<Bytes>, b: BucketName, e: map<Bytes, Value>)
    ensures Apply(DeleteLeaves(id, revs), b, e)
         == if b == Leaves then e - (set r | r in revs :: LeafKey(id, r)) else e
    decreases revs
  {
    if revs == [] {
      assert e - {} == e;
    } else {
      var ops := DeleteLeaves(id, revs);
      assert ops[1..] == DeleteLeaves(id, revs[1..]);
      var e1 := if b == Leaves then e - {LeafKey(id, revs[0])} else e;
      ApplyDeleteLeaves(id, revs[1..], b, e1);
      assert (set r | r in revs :: LeafKey(id, r))
          == {LeafKey(id, revs[0])} + (set r | r in revs[1..] :: LeafKey(id, r)) by {
        assert revs == [revs[0]] + revs[1..];
      }
      MinusTwice(e, {LeafKey(id, revs[0])}, set r | r in revs[1..] :: LeafKey(id, r));
    }
  }

  /******* One put and some deletes of an ID's leaves *******/

  /** Leaves after recording d and dropping the given revisions. */
  ghost function Releaved(leaves: map<Bytes, Value>, d: Document, gone: set<Bytes>): map<Bytes, Value> {
    leaves[LeafKey(d.id, d.rev) := Doc(d)] - (set r | r in gone :: LeafKey(d.id, r))
  }

  lemma ReleavedSet(leaves: map<Bytes, Value>, d: Document, gone: set<Bytes>)
    ensures LeafSet(Releaved(leaves, d, gone), d.id) == LeafSet(leaves, d.id) + {d.rev} - gone
  {
    var after := Releaved(leaves, d, gone);
    forall r ensures r in LeafSet(after, d.id) <==> (r in LeafSet(leaves, d.id) || r == d.rev) && r !in gone {
      LeafSetMembers(after, d.id, r);
      LeafSetMembers(leaves, d.id, r);
      LeafKeyInjective(d.id, r, d.rev);
      if LeafKey(d.id, r) in (set o | o in gone :: LeafKey(d.id, o)) {
        var o :| o in gone && LeafKey(d.id, o) == LeafKey(d.id, r);
        LeafKeyInjective(d.id, r, o);
      }
    }
  }

  lemma ReleavedOnly(leaves: map<Bytes, Value>, d: Document, gone: set<Bytes>)
    ensures OnlyLeavesOf(d.id, leaves, Releaved(leaves, d, gone))
  {
    forall r ensures d.id + [0] <= LeafKey(d.id, r) {
      assert LeafKey(d.id, r)[..|d.id| + 1] == d.id + [0];
    }
  }

  lemma ReleavedAdmitted(env: Env, leaves: map<Bytes, Value>, d: Document, gone: set<Bytes>)
    requires LeavesAdmitted(env, leaves) && Admitted(env, d)
    ensures LeavesAdmitted(env, Releaved(leaves, d, gone))
  {
    var after := Releaved(leaves, d, gone);
    forall k | k in after ensures LeafAdmitted(env, after[k]) {
      if k != LeafKey(d.id, d.rev) { assert LeafAdmitted(env, leaves[k]); }
    }
  }

  /** The new leaves of the ID are sound when w is a highest one among them. */
  lemma ReleavedSound(docs: map<Bytes, Value>, leaves: map<Bytes, Value>, d: Document, gone: set<Bytes>, w: Document)
    requires LeavesOk(docs, leaves) && ValidId(d.id) && !IsLocal(d.id) && WellFormed(d.rev)
    requires Headed(d) && Headed(w) && w.id == d.id && WellFormed(w.rev)
    requires w.rev in LeafSet(Releaved(leaves, d, gone), d.id)
    requires forall r :: r in LeafSet(Releaved(leaves, d, gone), d.id) ==> NotAbove(r, w.rev)
    ensures SoundAt(d.id, w, Releaved(leaves, d, gone))
  {
    var after := Releaved(leaves, d, gone);
    LeafSetMembers(after, d.id, w.rev);
    forall r | LeafKey(d.id, r) in after ensures NotAbove(r, w.rev) { LeafSetMembers(after, d.id, r); }
    forall k | k in after && d.id + [0] <= k ensures LeafOk(k, after[k]) && after[k].doc.id == d.id {
      if k != LeafKey(d.id, d.rev) {
        assert LeafOk(k, leaves[k]);
        LeafPrefix(d.id, leaves[k].doc.id, leaves[k].doc.rev);
      }
    }
  }

  /******* PutDocument *******/

  ghost function PutDocOps(stored: Option<Document>, d: Document): seq<Op> {
    [Put(Docs, d.id, Doc(d))] + (if stored.Some? then [DeleteLeaf(d.id, stored.value.rev)] else []) + [PutLeaf(d)]
  }

  ghost function RevOf(stored: Option<Document>): set<Bytes> {
    if stored.Some? then {stored.value.rev} else {}
  }

  lemma PutDocOpsApply(stored: Option<Document>, d: Document, b: BucketName, e: map<Bytes, Value>)
    requires d.id != [] && (stored.Some? ==> stored.value.rev != d.rev)
    ensures DocOps(PutDocOps(stored, d))
    ensures Apply(PutDocOps(stored, d), b, e)
         == if b == Docs then e[d.id := Doc(d)] else if b == Leaves then Releaved(e, d, RevOf(stored)) else e
  {
    var a := [Put(Docs, d.id, Doc(d))];
    var gone := if stored.Some? then [DeleteLeaf(d.id, stored.value.rev)] else [];
    var c := [PutLeaf(d)];
    ApplyAppend(a + gone, c, b, e);
    ApplyAppend(a, gone, b, e);
    ApplyPut(d.id, Doc(d), Docs, b, e);
    var e1 := Apply(a, b, e);
    if stored.Some? {
      ApplyDelete(LeafKey(d.id, stored.value.rev), Leaves, b, e1);
      LeafKeyInjective(d.id, stored.value.rev, d.rev);
      assert (set r | r in RevOf(stored) :: LeafKey(d.id, r)) == {LeafKey(d.id, stored.value.rev)};
    } else {
      assert (set r | r in RevOf(stored) :: LeafKey(d.id, r)) == {};
    }
    var e2 := Apply(a + gone, b, e);
    ApplyPut(LeafKey(d.id, d.rev), Doc(d), Leaves, b, e2);
  }

  /** Stamping keeps what the indices look at. */
  lemma AdmitsSameData(env: Env, doc: Document, d: Document)
    requires Admitted(env, doc) && d.id == doc.id && d.deleted == doc.deleted && d.data == doc.data
    ensures Admitted(env, d)
  {
    forall j | 0 <= j < |env.indices| ensures Admits(env.indices[j], d) {
      assert Admits(env.indices[j], doc);
      if env.indices[j].MangoIndex? {
        assert FieldValues(env.indices[j].fields, d) == FieldValues(env.indices[j].fields, doc);
      }
    }
  }

  /** A new revision is above every leaf: it comes after the winner's, or there
      is no leaf yet. */
  lemma StampedTops(env: Env, leaves: map<Bytes, Value>, stored: Option<Document>, doc: Document)
    requires Revision(doc).Some? ==> DASH in Revision(doc).value
    requires stored.Some? ==>
               && Revision(doc) == Some(stored.value.rev) && WellFormed(stored.value.rev)
               && forall r :: r in LeafSet(leaves, doc.id) ==> NotAbove(r, stored.value.rev)
    requires stored.None? ==> LeafSet(leaves, doc.id) == {}
    ensures var d := Stamped(env, stored, doc);
            && WellFormed(d.rev) && d.history != [] && d.history[0] == d.rev
            && (stored.Some? ==> stored.value.rev != d.rev)
            && forall r :: r in LeafSet(leaves, doc.id) ==> NotAbove(r, d.rev) && r != d.rev
  {
    var d := Stamped(env, stored, doc);
    FormatParse(NextGeneration(Revision(doc)), env.hash(doc));
    if stored.Some? {
      var top := stored.value.rev;
      CompareRevsOrder(top, top, top);
      EditBeats(top, env.hash(doc), top);
      forall r | r in LeafSet(leaves, doc.id) ensures NotAbove(r, d.rev) && r != d.rev {
        EditBeats(top, env.hash(doc), r);
        CompareRevsOrder(r, d.rev, r);
      }
    }
  }

  /** The leaves and the winner after a local edit. */
  ghost predicate Edited(s: Store, t: Store, id: Bytes, d: Document) {
    && WinnerAt(t, id) == Some(d) && d.id == id
    && (forall r :: r in LeafSet(LeavesIn(s), id) ==> !NotAbove(d.rev, r))
    && LeafSet(LeavesIn(t), id)
       == LeafSet(LeavesIn(s), id) - (if WinnerAt(s, id).Some? then {WinnerAt(s, id).value.rev} else {}) + {d.rev}
  }

  lemma PutIsReplace(env: Env, s: Store, stored: Option<Document>, d: Document)
    ensures RemovalOf(env, s, stored) + PutDocOps(stored, d) + AllStored(env.indices, s, d)
         == ReplaceLog(env, s, [], stored, PutDocOps(stored, d), d)
  {
    Assoc(RemovalOf(env, s, stored), PutDocOps(stored, d), AllStored(env.indices, s, d));
  }

  /** Names for the entries of the two document buckets. */
  ghost predicate EntriesOf(s: Store, docs: map<Bytes, Value>, leaves: map<Bytes, Value>) {
    Docs in s && Leaves in s && s[Docs].entries == docs && s[Leaves].entries == leaves
  }

  lemma StoreEdit(env: Env, s: Store, docs: map<Bytes, Value>, leaves: map<Bytes, Value>,
                  stored: Option<Document>, d: Document, t: Store)
    requires Inv(env, s) && EntriesOf(s, docs, leaves)
    requires ValidId(d.id) && !IsLocal(d.id) && Admitted(env, d)
    requires Replaces(WinnersOf(docs), stored, d) && (stored.Some? ==> stored.value.rev != d.rev)
    requires WellFormed(d.rev) && d.history != [] && d.history[0] == d.rev
    requires forall r :: r in LeafSet(leaves, d.id) ==> NotAbove(r, d.rev)
    requires t == Committed(ReplaceLog(env, s, [], stored, PutDocOps(stored, d), d), s) && CountersFit(t)
    ensures Inv(env, t) && EntriesAre(t, s, docs[d.id := Doc(d)], Releaved(leaves, d, RevOf(stored)))
    ensures t[AttRefs].entries == s[AttRefs].entries
  {
    EditApplies(s, stored, d);
    EditTakes(env, s, docs, leaves, stored, d);
    ReplaceKeeps(env, s, [], stored, PutDocOps(stored, d), d, Releaved(leaves, d, RevOf(stored)), t);
  }

  lemma EditTakes(env: Env, s: Store, docs: map<Bytes, Value>, leaves: map<Bytes, Value>, stored: Option<Document>, d: Document)
    requires Inv(env, s) && EntriesOf(s, docs, leaves) && ValidId(d.id) && !IsLocal(d.id) && Admitted(env, d)
    requires Replaces(WinnersOf(docs), stored, d) && (stored.Some? ==> stored.value.rev != d.rev)
    requires WellFormed(d.rev) && d.history != [] && d.history[0] == d.rev
    requires forall r :: r in LeafSet(leaves, d.id) ==> NotAbove(r, d.rev)
    ensures Takes(env, s, stored, d, Releaved(leaves, d, RevOf(stored)))
  {
    EditLeaves(env, s, docs, leaves, d, RevOf(stored));
  }

  lemma EditLeaves(env: Env, s: Store, docs: map<Bytes, Value>, leaves: map<Bytes, Value>, d: Document, gone: set<Bytes>)
    requires Inv(env, s) && EntriesOf(s, docs, leaves) && ValidId(d.id) && !IsLocal(d.id) && Admitted(env, d)
    requires WellFormed(d.rev) && d.history != [] && d.history[0] == d.rev && d.rev !in gone
    requires forall r :: r in LeafSet(leaves, d.id) ==> NotAbove(r, d.rev)
    ensures SoundAt(d.id, d, Releaved(leaves, d, gone)) && OnlyLeavesOf(d.id, leaves, Releaved(leaves, d, gone))
    ensures LeavesAdmitted(env, Releaved(leaves, d, gone))
  {
    EditSound(docs, leaves, d, gone);
    ReleavedAdmitted(env, leaves, d, gone);
  }

  lemma EditApplies(s: Store, stored: Option<Document>, d: Document)
    requires Docs in s && Leaves in s && AttRefs in s
    requires d.id != [] && (stored.Some? ==> stored.value.rev != d.rev)
    ensures Puts(s, [], PutDocOps(stored, d), d, Releaved(s[Leaves].entries, d, RevOf(stored)))
    ensures Apply([] + PutDocOps(stored, d), AttRefs, s[AttRefs].entries) == s[AttRefs].entries
  {
    var ops := PutDocOps(stored, d);
    PutDocOpsApply(stored, d, Docs, s[Docs].entries);
    PutDocOpsApply(stored, d, Leaves, s[Leaves].entries);
    PutDocOpsApply(stored, d, AttRefs, s[AttRefs].entries);
    assert [] + ops == ops;
  }

  lemma EditSound(docs: map<Bytes, Value>, leaves: map<Bytes, Value>, d: Document, gone: set<Bytes>)
    requires LeavesOk(docs, leaves) && ValidId(d.id) && !IsLocal(d.id) && d.rev !in gone
    requires WellFormed(d.rev) && d.history != [] && d.history[0] == d.rev
    requires forall r :: r in LeafSet(leaves, d.id) ==> NotAbove(r, d.rev)
    ensures SoundAt(d.id, d, Releaved(leaves, d, gone)) && OnlyLeavesOf(d.id, leaves, Releaved(leaves, d, gone))
  {
    ReleavedSet(leaves, d, gone);
    ReleavedOnly(leaves, d, gone);
    CompareRevsOrder(d.rev, d.rev, d.rev);
    ReleavedSound(docs, leaves, d, gone, d);
  }

  ghost predicate OthersKept(s: Store, t: Store, id: Bytes) {
    forall o :: o != id && ValidId(o) ==>
      WinnerAt(t, o) == WinnerAt(s, o) && LeafSet(LeavesIn(t), o) == LeafSet(LeavesIn(s), o)
  }

  lemma OthersSame(s: Store, t: Store, id: Bytes)
    requires ValidId(id) && OnlyLeavesOf(id, LeavesIn(s), LeavesIn(t))
    requires forall o :: o != id ==> (o in DocsIn(t) <==> o in DocsIn(s))
    requires forall o :: o != id && o in DocsIn(s) ==> DocsIn(t)[o] == DocsIn(s)[o]
    ensures OthersKept(s, t, id)
  {
    forall o | o != id && ValidId(o)
      ensures WinnerAt(t, o) == WinnerAt(s, o) && LeafSet(LeavesIn(t), o) == LeafSet(LeavesIn(s), o)
    {
      SameLeafSet(id, o, LeavesIn(s), LeavesIn(t));
    }
  }

  lemma SameLeafSet(id: Bytes, o: Bytes, before: map<Bytes, Value>, after: map<Bytes, Value>)
    requires ValidId(id) && ValidId(o) && o != id && OnlyLeavesOf(id, before, after)
    ensures LeafSet(after, o) == LeafSet(before, o)
  {
    forall r ensures r in LeafSet(after, o) <==> r in LeafSet(before, o) {
      LeafPrefix(id, o, r);
      LeafSetMembers(before, o, r);
      LeafSetMembers(after, o, r);
    }
  }

  /** What a call to PutDocument leaves behind. */
  ghost predicate PutOutcome(env: Env, s: Store, doc: Document, t: Store) {
    var result := PutPlan(env, s, doc).result;
    && Inv(env, t) && OthersKept(s, t, doc.id)
    && (!result.Done? ==> t == s)
    && (result.Done? ==> WinnerAt(t, doc.id).Some? && WinnerAt(t, doc.id).value.rev == result.rev)
    && (result.Done? && !IsLocal(doc.id) ==> Edited(s, t, doc.id, WinnerAt(t, doc.id).value))
    && (result == Conflict <==> Misnamed(s, doc))
    && (result.Done? <==> !Misnamed(s, doc) && (IsLocal(doc.id) || Editable(doc)))
    && (result.Done? ==> if IsLocal(doc.id) then LocalStored(s, t, doc, result.rev) else EditStored(env, s, t, doc, result.rev))
  }

  /** The history a read shows; a stored document from before histories were kept has
      its revision only. */
  ghost function Shown(s: Store, id: Bytes): seq<Bytes> {
    var read := GetDocument(s, id);
    if !read.Found? then []
    else if read.doc.history == [] && read.doc.rev != [] then [read.doc.rev]
    else read.doc.history
  }

  /** A history goes on from another with one revision, and is cut after a thousand. */
  ghost predicate GoesOn(h: seq<Bytes>, r: Bytes, before: seq<Bytes>) {
    h == [r] + (if |before| < 1000 then before else before[..999])
  }

  /** An edit stores what it was given, under the next generation and the hash of its
      content, with the new revision on top of the history a read showed before; its
      leaf is the same document. */
  ghost predicate EditStored(env: Env, s: Store, t: Store, doc: Document, r: Bytes) {
    && (exists h :: GoesOn(h, r, Shown(s, doc.id)) && WinnerAt(t, doc.id) == Some(doc.(rev := r, history := h)))
    && GetLeaf(t, doc.id, r) == WinnerAt(t, doc.id)
    && NextNamed(env, doc, r)
  }

  ghost predicate NextNamed(env: Env, doc: Document, r: Bytes) {
    && WellFormed(r) && HashPart(r) == env.hash(doc)
    && (Revision(doc).None? ==> Gen(r) == 1)
    && (Revision(doc).Some? && WellFormed(Revision(doc).value) ==> Gen(r) == Gen(Revision(doc).value) + 1)
  }

  /** A local document counts its edits: 0-1, 0-2 and so on. */
  ghost predicate LocalStored(s: Store, t: Store, doc: Document, r: Bytes) {
    && WinnerAt(t, doc.id) == Some(doc.(rev := r))
    && (WinnerAt(s, doc.id).None? ==> r == Format(0, Itoa(1)))
    && forall n: nat :: WinnerAt(s, doc.id).Some? && WinnerAt(s, doc.id).value.rev == Format(0, Itoa(n)) ==>
         r == Format(0, Itoa(n + 1))
  }

  lemma LocalCounts(stored: Document, n: nat)
    requires stored.rev == Format(0, Itoa(n))
    ensures NextLocalRevision(stored) == Format(0, Itoa(n + 1))
  {
    FormatParse(0, Itoa(n));
    AtoiItoa(n);
    HasDash(stored.rev);
    assert Itoa(0) == [48];
  }

  lemma StampedNames(env: Env, s: Store, doc: Document, stored: Option<Document>)
    requires stored == StoredAt(s, doc.id) && (Revision(doc).Some? ==> DASH in Revision(doc).value)
    ensures var d := Stamped(env, stored, doc);
            && NextNamed(env, doc, d.rev) && GoesOn(d.history, d.rev, Shown(s, doc.id))
            && d == doc.(rev := d.rev, history := d.history)
  {
    NextIsNamed(env, doc);
  }

  lemma NextIsNamed(env: Env, doc: Document)
    requires Revision(doc).Some? ==> DASH in Revision(doc).value
    ensures NextNamed(env, doc, Format(NextGeneration(Revision(doc)), env.hash(doc)))
  {
    FormatParse(NextGeneration(Revision(doc)), env.hash(doc));
    if Revision(doc).Some? && WellFormed(Revision(doc).value) { NextOfWellFormed(Revision(doc).value); }
  }

  lemma NextOfWellFormed(r: Bytes)
    requires WellFormed(r) && DASH in r
    ensures NextGeneration(Some(r)) == Gen(r) + 1
  {
    CompareRevsOrder(r, r, r);
    EditBeats(r, [], r);
    FormatParse(NextGeneration(Some(r)), []);
  }

  /** The document just stored is the winner and the leaf under its revision. */
  lemma LeafStored(t: Store, s: Store, docs: map<Bytes, Value>, leaves: map<Bytes, Value>, d: Document, gone: set<Bytes>)
    requires EntriesAre(t, s, docs[d.id := Doc(d)], Releaved(leaves, d, gone)) && d.rev !in gone
    ensures WinnerAt(t, d.id) == Some(d) && GetLeaf(t, d.id, d.rev) == Some(d)
  {
    forall r | r in gone ensures LeafKey(d.id, r) != LeafKey(d.id, d.rev) { LeafKeyInjective(d.id, r, d.rev); }
  }

  /** There is a document and the edit does not name its revision. */
  ghost predicate Misnamed(s: Store, doc: Document) {
    WinnerAt(s, doc.id).Some? && Revision(doc) != Some(WinnerAt(s, doc.id).value.rev)
  }

  /** A revision without a dash makes the source panic where it takes the hash off. */
  ghost predicate Editable(doc: Document) {
    Revision(doc).Some? ==> DASH in Revision(doc).value
  }

  lemma ReadRevision(s: Store, id: Bytes)
    requires GetDocument(s, id).Found?
    ensures var d := GetDocument(s, id).doc; Revision(d) == Some(d.rev)
  {
    var meta := WithMeta(Entries(s, Docs)[id].doc);
    assert meta.data[REV_FIELD] == Str(meta.rev);
  }

  /** Which edits are refused. */
  lemma PutRefused(env: Env, s: Store, doc: Document)
    requires Inv(env, s) && ValidId(doc.id)
    ensures var result := PutPlan(env, s, doc).result;
            && (result == Conflict <==> Misnamed(s, doc))
            && (result.Done? <==> !Misnamed(s, doc) && (IsLocal(doc.id) || Editable(doc)))
  {
    StoredLikeWinner(env, s, doc.id);
    if StoredAt(s, doc.id).Some? { ReadRevision(s, doc.id); }
    PutResult(env, s, doc, WinnerAt(s, doc.id), StoredAt(s, doc.id));
  }

  lemma PutResult(env: Env, s: Store, doc: Document, w: Option<Document>, stored: Option<Document>)
    requires stored == StoredAt(s, doc.id) && SameRev(w, stored)
    requires stored.Some? ==> Revision(stored.value) == Some(stored.value.rev)
    ensures var result, misnamed := PutPlan(env, s, doc).result, w.Some? && Revision(doc) != Some(w.value.rev);
            && (result == Conflict <==> misnamed)
            && (result.Done? <==> !misnamed && (IsLocal(doc.id) || Editable(doc)))
  {
  }

  lemma PutLocalKeeps(env: Env, s: Store, doc: Document, t: Store)
    requires Inv(env, s) && ValidId(doc.id) && IsLocal(doc.id) && PutPlan(env, s, doc).result.Done?
    requires t == Committed(PutPlan(env, s, doc).ops, s)
    ensures PutOutcome(env, s, doc, t)
  {
    PutRefused(env, s, doc);
    var d := doc.(rev := PutPlan(env, s, doc).result.rev);
    var ops := [Put(Docs, doc.id, Doc(d))];
    assert PutPlan(env, s, doc).ops == ops;
    ApplyPut(doc.id, Doc(d), Docs, Docs, DocsIn(s));
    ApplyPut(doc.id, Doc(d), Docs, Leaves, LeavesIn(s));
    LocalStep(DocsIn(s), LeavesIn(s), d);
    DocOpsKeep(env, s, ops, DocsIn(s)[doc.id := Doc(d)], LeavesIn(s));
    OthersSame(s, t, doc.id);
    StoredLikeWinner(env, s, doc.id);
    LocalNamed(env, s, doc, t);
  }

  lemma LocalNamed(env: Env, s: Store, doc: Document, t: Store)
    requires IsLocal(doc.id) && PutPlan(env, s, doc).result.Done? && SameRev(WinnerAt(s, doc.id), StoredAt(s, doc.id))
    requires WinnerAt(t, doc.id) == Some(doc.(rev := PutPlan(env, s, doc).result.rev))
    ensures LocalStored(s, t, doc, PutPlan(env, s, doc).result.rev)
  {
    assert Itoa(1) == [49] && Itoa(0) == [48];
    assert Format(0, Itoa(1)) == [48, DASH, 49];
    forall n: nat | WinnerAt(s, doc.id).Some? && WinnerAt(s, doc.id).value.rev == Format(0, Itoa(n))
      ensures PutPlan(env, s, doc).result.rev == Format(0, Itoa(n + 1))
    {
      LocalCounts(StoredAt(s, doc.id).value, n);
    }
  }

  /** All that storing an edit needs, gathered. */
  ghost predicate EditReady(env: Env, docs: map<Bytes, Value>, leaves: map<Bytes, Value>,
                            stored: Option<Document>, d: Document) {
    && LeavesOk(docs, leaves) && Replaces(WinnersOf(docs), stored, d) && Admitted(env, d)
    && (stored.Some? ==> stored.value.rev != d.rev)
    && WellFormed(d.rev) && d.history != [] && d.history[0] == d.rev
    && (forall r :: r in LeafSet(leaves, d.id) ==> NotAbove(r, d.rev) && r != d.rev)
  }

  lemma EditIsReady(env: Env, s: Store, doc: Document, docs: map<Bytes, Value>, leaves: map<Bytes, Value>,
                    stored: Option<Document>)
    requires Inv(env, s) && ValidId(doc.id) && !IsLocal(doc.id) && Admitted(env, doc)
    requires PutPlan(env, s, doc).result.Done?
    requires EntriesOf(s, docs, leaves) && stored == StoredAt(s, doc.id)
    ensures Revision(doc).Some? ==> DASH in Revision(doc).value
    ensures EditReady(env, docs, leaves, stored, Stamped(env, stored, doc))
  {
    AtId(env, s, doc.id);
    EditableRevision(s, stored, doc);
    StampedTops(env, leaves, stored, doc);
    AdmitsSameData(env, doc, Stamped(env, stored, doc));
  }

  lemma EditDone(s: Store, t: Store, docs: map<Bytes, Value>, leaves: map<Bytes, Value>, stored: Option<Document>,
                 d: Document)
    requires EntriesOf(s, docs, leaves) && EntriesAre(t, s, docs[d.id := Doc(d)], Releaved(leaves, d, RevOf(stored)))
    requires ValidId(d.id) && (stored.Some? <==> WinnerAt(s, d.id).Some?)
    requires stored.Some? ==> WinnerAt(s, d.id).value.rev == stored.value.rev != d.rev
    requires forall r :: r in LeafSet(leaves, d.id) ==> NotAbove(r, d.rev) && r != d.rev && WellFormed(r)
    requires WellFormed(d.rev)
    ensures Edited(s, t, d.id, d) && OthersKept(s, t, d.id)
  {
    ReleavedSet(leaves, d, RevOf(stored));
    ReleavedOnly(leaves, d, RevOf(stored));
    OthersSame(s, t, d.id);
    forall r | r in LeafSet(LeavesIn(s), d.id) ensures !NotAbove(d.rev, r) {
      CompareRevsOrder(r, d.rev, r);
    }
  }

  lemma PutEditKeeps(env: Env, s: Store, doc: Document, t: Store)
    requires Inv(env, s) && ValidId(doc.id) && !IsLocal(doc.id) && Admitted(env, doc)
    requires PutPlan(env, s, doc).result.Done?
    requires t == Committed(PutPlan(env, s, doc).ops, s) && CountersFit(t)
    ensures PutOutcome(env, s, doc, t)
  {
    var docs, leaves, stored := s[Docs].entries, s[Leaves].entries, StoredAt(s, doc.id);
    EditIsReady(env, s, doc, docs, leaves, stored);
    PutRefused(env, s, doc);
    var d := Stamped(env, stored, doc);
    PutIsReplace(env, s, stored, d);
    StoreEdit(env, s, docs, leaves, stored, d, t);
    AtId(env, s, doc.id);
    EditDone(s, t, docs, leaves, stored, d);
    StampedNames(env, s, doc, stored);
    LeafStored(t, s, docs, leaves, d, RevOf(stored));
  }

  lemma EditableRevision(s: Store, stored: Option<Document>, doc: Document)
    requires stored.Some? ==> WellFormed(stored.value.rev) && ValidUpdateRevision(stored.value, doc)
    ensures stored.Some? ==> Revision(doc) == Some(stored.value.rev)
  {
    if stored.Some? { HasDash(stored.value.rev); }
  }

  lemma PutKeeps(env: Env, s: Store, doc: Document)
    requires Inv(env, s) && ValidId(doc.id) && Admitted(env, doc)
    requires CountersFit(Committed(PutPlan(env, s, doc).ops, s))
    ensures PutOutcome(env, s, doc, Committed(PutPlan(env, s, doc).ops, s))
  {
    var t := Committed(PutPlan(env, s, doc).ops, s);
    if !PutPlan(env, s, doc).result.Done? {
      PutRefused(env, s, doc);
      assert PutPlan(env, s, doc).ops == [];
    } else if IsLocal(doc.id) {
      PutLocalKeeps(env, s, doc, t);
    } else {
      PutEditKeeps(env, s, doc, t);
    }
  }
}
