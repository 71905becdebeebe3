/** Replicas converge: what a database holds after a set of deliveries does not
    depend on their order or on repeats. */
module Convergence {
  import opened ByteStrings
  import opened ConflictWriters
  import opened Documents
  import opened DocStore
  import opened Effects
  import opened Engine
  import opened IndexInvariants
  import opened Indexes
  import opened Revisions
  import opened Runs
  import opened SortedKeys
  import opened StoreInvariant
  import opened Writers

  /******* The winner, whatever the order *******/

  ghost predicate AllDeliveries(ws: seq<Write>) {
    forall w :: w in ws ==> w.Deliver?
  }

  /** Deliveries whose histories are genuine chains. */
  ghost predicate AllChains(ws: seq<Write>) {
    forall w :: w in ws ==> w.Deliver? && ChainDelivery(Delivered(w.doc))
  }

  ghost function RevsFor(ws: seq<Write>, id: Bytes): set<Bytes>
    requires AllDeliveries(ws)
  {
    set w | w in ws && IdOf(w) == id :: w.doc.rev
  }

  ghost function LastWinner(current: Option<Document>, ws: seq<Write>, id: Bytes): Option<Document>
    requires AllDeliveries(ws)
    decreases ws
  {
    if ws == [] then current
    else LastWinner(if ws[0].doc.id == id then NextWinner(current, Delivered(ws[0].doc)) else current, ws[1..], id)
  }

  lemma DeliveryWinner(env: Env, s: Store, given: Document, id: Bytes)
    requires Inv(env, s) && Acceptable(env, Deliver(given)) && ChainDelivery(Delivered(given)) && ValidId(id)
    requires CountersFit(Committed(ReplicationPlan(env, s, given).ops, s))
    ensures var t := Committed(ReplicationPlan(env, s, given).ops, s);
            Inv(env, t) && WinnerAt(t, id)
            == if given.id == id then NextWinner(WinnerAt(s, id), Delivered(given)) else WinnerAt(s, id)
  {
    ReplicationKeeps(env, s, given);
    var d := Delivered(given);
    if !(WinnerAt(s, given.id).Some? && WinnerAt(s, given.id).value.rev == given.rev) {
      ChainKeepsWinner(s, d);
      AdmitsSameData(env, given, d);
      SettledNext(env, s, d, Ancestors(d));
    }
  }

  lemma {:induction false} RunWinner(env: Env, s: Store, ws: seq<Write>, id: Bytes)
    requires Inv(env, s) && AllAcceptable(env, ws) && FitsAlong(env, s, ws) && LandsAlong(env, s, ws)
    requires AllChains(ws) && ValidId(id)
    ensures WinnerAt(Run(env, s, ws), id) == LastWinner(WinnerAt(s, id), ws, id)
    decreases ws
  {
    if ws != [] {
      assert ws[0] in ws;
      DeliveryWinner(env, s, ws[0].doc, id);
      RunWinner(env, Landed(PlanOf(env, s, ws[0]).ops, s), ws[1..], id);
    }
  }

  ghost function RevIn(w: Option<Document>): set<Bytes> {
    if w.Some? then {w.value.rev} else {}
  }

  ghost predicate TopIn(revs: set<Bytes>, w: Option<Document>) {
    if revs == {} then w.None? else w.Some? && TopOf(revs, w.value.rev)
  }

  lemma NextIsTop(current: Option<Document>, d: Document)
    requires WellFormed(d.rev) && (current.Some? ==> WellFormed(current.value.rev))
    ensures TopIn(RevIn(current) + {d.rev}, NextWinner(current, d))
  {
    CompareRevsOrder(d.rev, d.rev, d.rev);
    if current.Some? {
      CompareRevsOrder(current.value.rev, d.rev, d.rev);
      CompareRevsOrder(current.value.rev, current.value.rev, d.rev);
    }
  }

  lemma TopInMore(revs: set<Bytes>, next: Option<Document>, more: set<Bytes>, last: Option<Document>)
    requires revs != {} && TopIn(revs, next) && TopIn(RevIn(next) + more, last)
    ensures TopIn(revs + more, last)
  {
    var v, w := next.value.rev, last.value.rev;
    assert v in RevIn(next) + more;
    forall r | r in revs + more ensures NotAbove(r, w) {
      if r in revs { CompareRevsOrder(r, v, w); }
    }
  }

  ghost predicate NamedDeliveries(ws: seq<Write>) {
    forall w :: w in ws ==> w.Deliver? && WellFormed(w.doc.rev)
  }

  lemma RevsForHead(base: set<Bytes>, ws: seq<Write>, id: Bytes)
    requires NamedDeliveries(ws) && ws != []
    ensures NamedDeliveries(ws[1..]) && ws[0].Deliver? && WellFormed(ws[0].doc.rev)
    ensures ws[0].doc.id == id ==> base + RevsFor(ws, id) == base + {ws[0].doc.rev} + RevsFor(ws[1..], id)
    ensures ws[0].doc.id != id ==> base + RevsFor(ws, id) == base + RevsFor(ws[1..], id)
  {
    assert ws == [ws[0]] + ws[1..];
  }

  lemma NoRevs(current: Option<Document>, id: Bytes)
    ensures RevIn(current) + RevsFor([], id) == RevIn(current)
  {
  }

  lemma {:induction false} LastIsTop(current: Option<Document>, ws: seq<Write>, id: Bytes)
    requires NamedDeliveries(ws) && (current.Some? ==> WellFormed(current.value.rev))
    ensures TopIn(RevIn(current) + RevsFor(ws, id), LastWinner(current, ws, id))
    decreases ws, 0
  {
    if ws == [] {
      NoRevs(current, id);
      if current.Some? { CompareRevsOrder(current.value.rev, current.value.rev, current.value.rev); }
    } else {
      RevsForHead(RevIn(current), ws, id);
      if ws[0].doc.id == id {
        NextThenTop(current, Delivered(ws[0].doc), ws[1..], id);
      } else {
        LastIsTop(current, ws[1..], id);
      }
    }
  }

  lemma {:induction false} NextThenTop(current: Option<Document>, d: Document, rest: seq<Write>, id: Bytes)
    requires NamedDeliveries(rest) && WellFormed(d.rev) && (current.Some? ==> WellFormed(current.value.rev))
    ensures TopIn(RevIn(current) + {d.rev} + RevsFor(rest, id), LastWinner(NextWinner(current, d), rest, id))
    decreases rest, 1
  {
    var next := NextWinner(current, d);
    NextIsTop(current, d);
    LastIsTop(next, rest, id);
    TopInMore(RevIn(current) + {d.rev}, next, RevsFor(rest, id), LastWinner(next, rest, id));
  }

  ghost predicate Received(env: Env, ws: seq<Write>) {
    && EnvOk(env) && AllAcceptable(env, ws) && AllChains(ws)
    && FitsAlong(env, EmptyStore(env), ws) && LandsAlong(env, EmptyStore(env), ws)
  }

  /** The stored document is a delivery of the highest revision, and there is none
      exactly when nothing was delivered. */
  lemma WinnerIsHighest(env: Env, ws: seq<Write>, id: Bytes)
    requires Received(env, ws) && ValidId(id)
    ensures TopIn(RevsFor(ws, id), WinnerAt(Run(env, EmptyStore(env), ws), id))
  {
    EmptyStoreInv(env);
    RunWinner(env, EmptyStore(env), ws, id);
    LastIsTop(None, ws, id);
    assert RevIn(None) + RevsFor(ws, id) == RevsFor(ws, id);
  }

  lemma TopUnique(revs: set<Bytes>, v: Bytes, w: Bytes)
    requires TopOf(revs, v) && TopOf(revs, w)
    ensures v == w
  {
    CompareRevsOrder(v, w, v);
  }

  /** The same revisions in any order, with any repeats, give the same winner. */
  lemma SameWinner(env: Env, env': Env, ws: seq<Write>, ws': seq<Write>, id: Bytes)
    requires Received(env, ws) && Received(env', ws') && ValidId(id)
    requires RevsFor(ws, id) == RevsFor(ws', id)
    ensures var w, w' := WinnerAt(Run(env, EmptyStore(env), ws), id), WinnerAt(Run(env', EmptyStore(env'), ws'), id);
            (w.Some? <==> w'.Some?) && (w.Some? ==> w.value.rev == w'.value.rev)
  {
    WinnerIsHighest(env, ws, id);
    WinnerIsHighest(env', ws', id);
    var w, w' := WinnerAt(Run(env, EmptyStore(env), ws), id), WinnerAt(Run(env', EmptyStore(env'), ws'), id);
    if w.Some? && w'.Some? { TopUnique(RevsFor(ws, id), w.value.rev, w'.value.rev); }
  }

  /******* The leaves, when each delivery is first filtered *******/

  predicate Has(s: Store, id: Bytes, rev: Bytes) {
    var read := GetDocument(s, id);
    read.Found? && HasRevision(read.doc, rev)
  }

  /** A delivery as the replicator makes it: nothing is sent that the receiving
      side says it has. */
  function Offer(env: Env, s: Store, d: Document): Store {
    if Has(s, d.id, d.rev) then s else Landed(ReplicationPlan(env, s, d).ops, s)
  }

  /** No key of it is too long. */
  predicate Arrives(env: Env, s: Store, d: Document) {
    Has(s, d.id, d.rev) || KeysFit(ReplicationPlan(env, s, d).ops)
  }

  function OfferAll(env: Env, s: Store, ds: seq<Document>): Store
    decreases ds
  {
    if ds == [] then s else OfferAll(env, Offer(env, s, ds[0]), ds[1..])
  }

  /** The ancestry of each revision, itself first: the tails of a chain are the
      chains of its members. */
  type Tree = Bytes -> seq<Bytes>

  ghost predicate IsTree(chain: Tree) {
    && (forall r :: chain(r) != [] && chain(r)[0] == r)
    && (forall r, i {:trigger TailIs(chain, r, i)} :: 0 <= i < |chain(r)| ==> TailIs(chain, r, i))
  }

  ghost predicate TailIs(chain: Tree, r: Bytes, i: nat)
    requires i < |chain(r)|
  {
    chain(chain(r)[i]) == chain(r)[i..]
  }

  /** The revisions that are no other's ancestor. */
  ghost function Tips(chain: Tree, revs: set<Bytes>): set<Bytes> {
    set r | r in revs && forall o :: o in revs && o != r ==> r !in chain(o)
  }

  ghost predicate LeafFrom(leaves: map<Bytes, Value>, id: Bytes, r: Bytes, chain: Tree) {
    && LeafKey(id, r) in leaves && leaves[LeafKey(id, r)].Doc? && leaves[LeafKey(id, r)].doc.history == chain(r)
  }

  /** The store holds exactly the tips, each with its chain, and every revision is
      on one of them. */
  ghost predicate Holds(s: Store, id: Bytes, chain: Tree, revs: set<Bytes>) {
    var leaves := LeafSet(LeavesIn(s), id);
    && leaves == Tips(chain, revs)
    && Covered(chain, leaves, revs)
    && (forall l :: l in leaves ==> LeafFrom(LeavesIn(s), id, l, chain))
    && (WinnerAt(s, id).Some? ==> WinnerAt(s, id).value.history == chain(WinnerAt(s, id).value.rev))
  }

  ghost predicate Covered(chain: Tree, leaves: set<Bytes>, revs: set<Bytes>) {
    forall r :: r in revs ==> exists l :: l in leaves && r in chain(l)
  }

  /******* What a store has *******/

  lemma {:induction false} BranchRevs(s: Store, id: Bytes, rev: Bytes, history: seq<Bytes>, leaves: seq<Bytes>, r: Bytes)
    ensures r in AddBranches(s, id, rev, history, leaves) <==>
            r in history || exists l :: l in leaves && l != rev && GetLeaf(s, id, l).Some? && r in GetLeaf(s, id, l).value.history
    decreases leaves
  {
    if leaves != [] {
      var leaf := GetLeaf(s, id, leaves[0]);
      var next := if leaves[0] != rev && leaf.Some? then AppendNew(history, leaf.value.history) else history;
      BranchRevs(s, id, rev, next, leaves[1..], r);
      assert leaves == [leaves[0]] + leaves[1..];
    }
  }

  /** A revision is known when it is on the chain of a leaf. */
  lemma KnownOnLeaf(env: Env, s: Store, id: Bytes, chain: Tree, revs: set<Bytes>, rev: Bytes)
    requires Inv(env, s) && ValidId(id) && !IsLocal(id) && IsTree(chain) && Holds(s, id, chain, revs)
    ensures Has(s, id, rev) <==> exists l :: l in LeafSet(LeavesIn(s), id) && rev in chain(l)
  {
    AtId(env, s, id);
    if WinnerAt(s, id).Some? {
      var w := WinnerAt(s, id).value;
      ReadHistory(env, s, id, w, rev);
      forall l | l in LeafSet(LeavesIn(s), id) ensures GetLeaf(s, id, l).Some? && GetLeaf(s, id, l).value.history == chain(l) {
        assert LeafFrom(LeavesIn(s), id, l, chain);
      }
      assert chain(w.rev)[0] == w.rev;
    }
  }

  ghost predicate OnOtherLeaf(s: Store, id: Bytes, rev: Bytes, leaves: set<Bytes>, r: Bytes) {
    exists l :: l in leaves && l != rev && GetLeaf(s, id, l).Some? && r in GetLeaf(s, id, l).value.history
  }

  lemma BranchHistory(s: Store, d: Document, leaves: set<Bytes>, r: Bytes)
    requires leaves == (set l | l in LeafRevs(s, d.id)) && d.rev in leaves
    ensures r in WithBranches(s, d).history <==> r in d.history || OnOtherLeaf(s, d.id, d.rev, leaves, r)
  {
    var revs := LeafRevs(s, d.id);
    if |revs| > 1 {
      BranchRevs(s, d.id, d.rev, d.history, revs, r);
    } else {
      assert forall l :: l in revs ==> l == d.rev;
    }
  }

  lemma ReadHistory(env: Env, s: Store, id: Bytes, w: Document, r: Bytes)
    requires Inv(env, s) && ValidId(id) && !IsLocal(id) && WinnerAt(s, id) == Some(w)
    ensures GetDocument(s, id).Found? && GetDocument(s, id).doc.rev == w.rev
    ensures r in GetDocument(s, id).doc.history <==>
            r in w.history || OnOtherLeaf(s, id, w.rev, LeafSet(LeavesIn(s), id), r)
  {
    AtId(env, s, id);
    LeafRevsAreLeafSet(s, id);
    SequenceKept(env, s, id, w);
    BranchHistory(s, WithSequence(s, WithMeta(w)).value, LeafSet(LeavesIn(s), id), r);
  }

  lemma SequenceKept(env: Env, s: Store, id: Bytes, w: Document)
    requires Inv(env, s) && ValidId(id) && !IsLocal(id) && WinnerAt(s, id) == Some(w)
    ensures WithSequence(s, WithMeta(w)).Some?
    ensures var d := WithSequence(s, WithMeta(w)).value;
            d.id == id && d.rev == w.rev && d.history == w.history && GetDocument(s, id) == Found(WithBranches(s, d))
  {
    HasSequence(env, s, id);
  }

  /******* Tips of a tree *******/

  lemma OnChain(chain: Tree, o: Bytes, r: Bytes, x: Bytes)
    requires IsTree(chain) && r in chain(o)
    ensures x in chain(r) ==> x in chain(o)
    ensures o in chain(r) ==> r == o
    ensures |chain(r)| <= |chain(o)|
  {
    var i :| 0 <= i < |chain(o)| && chain(o)[i] == r;
    assert TailIs(chain, o, i);
    if o in chain(r) {
      var j :| 0 <= j < |chain(r)| && chain(r)[j] == o;
      assert TailIs(chain, r, j);
      assert |chain(o)| == |chain(o)| - i - j;
    }
  }

  /** A revision on the chain of one already there adds no tip and ends none. */
  lemma TipsAddKnown(chain: Tree, revs: set<Bytes>, r: Bytes, l: Bytes)
    requires IsTree(chain) && l in Tips(chain, revs) && r in chain(l)
    ensures Tips(chain, revs + {r}) == Tips(chain, revs)
  {
    forall x ensures x in Tips(chain, revs + {r}) <==> x in Tips(chain, revs) {
      OnChain(chain, l, r, x);
      OnChain(chain, l, r, l);
    }
  }

  lemma NotItsAncestor(chain: Tree, r: Bytes)
    requires IsTree(chain)
    ensures r !in chain(r)[1..]
  {
    forall i | 1 <= i < |chain(r)| ensures chain(r)[i] != r { assert TailIs(chain, r, i); }
  }

  /** A new revision is a tip, and its ancestors are none any more. */
  lemma TipsAddNew(chain: Tree, revs: set<Bytes>, r: Bytes)
    requires IsTree(chain) && forall o :: o in revs ==> r !in chain(o)
    ensures Tips(chain, revs + {r}) == Tips(chain, revs) + {r} - (set x | x in chain(r)[1..])
  {
    var past := chain(r)[1..];
    assert chain(r) == [r] + past;
    NotItsAncestor(chain, r);
    forall x ensures x in Tips(chain, revs + {r}) <==> (x in Tips(chain, revs) || x == r) && x !in past {
    }
  }

  lemma StillCovered(chain: Tree, leaves: set<Bytes>, revs: set<Bytes>, r: Bytes)
    requires IsTree(chain) && Covered(chain, leaves, revs)
    ensures Covered(chain, leaves + {r} - (set x | x in chain(r)[1..]), revs + {r})
  {
    var after := leaves + {r} - (set x | x in chain(r)[1..]);
    assert chain(r) == [r] + chain(r)[1..];
    NotItsAncestor(chain, r);
    forall x | x in revs + {r} ensures exists l :: l in after && x in chain(l) {
      if x == r {
        assert r in after;
      } else {
        var l :| l in leaves && x in chain(l);
        if l in chain(r) {
          OnChain(chain, r, l, x);
          assert r in after;
        } else {
          assert l in after;
        }
      }
    }
  }

  /******* One offer *******/

  ghost predicate FromTree(d: Document, chain: Tree) {
    Delivered(d).history == chain(d.rev)
  }

  lemma ReleavedFrom(leaves: map<Bytes, Value>, d: Document, gone: set<Bytes>, chain: Tree, l: Bytes)
    requires d.history == chain(d.rev) && d.rev !in gone
    requires l == d.rev || (l !in gone && LeafFrom(leaves, d.id, l, chain))
    ensures LeafFrom(Releaved(leaves, d, gone), d.id, l, chain)
  {
    forall r | r in gone ensures LeafKey(d.id, r) != LeafKey(d.id, l) { LeafKeyInjective(d.id, r, l); }
    LeafKeyInjective(d.id, d.rev, l);
  }

  lemma LeafElsewhere(leaves: map<Bytes, Value>, d: Document, gone: set<Bytes>, chain: Tree, id: Bytes, l: Bytes)
    requires ValidId(id) && ValidId(d.id) && id != d.id && LeafFrom(leaves, id, l, chain)
    ensures LeafFrom(Releaved(leaves, d, gone), id, l, chain)
  {
    LeafOpAbout(id, l);
    LeafPrefix(d.id, id, l);
    LeafOpAbout(d.id, d.rev);
    forall r | r in gone ensures LeafKey(d.id, r) != LeafKey(id, l) { LeafOpAbout(d.id, r); }
  }

  /** No earlier revision descends from one the store does not have. */
  lemma NewIsUnrelated(env: Env, s: Store, id: Bytes, chain: Tree, revs: set<Bytes>, rev: Bytes)
    requires Inv(env, s) && ValidId(id) && !IsLocal(id) && IsTree(chain) && Holds(s, id, chain, revs)
    ensures forall o :: o in revs && rev in chain(o) ==> Has(s, id, rev)
  {
    KnownOnLeaf(env, s, id, chain, revs, rev);
    forall o | o in revs && rev in chain(o) ensures Has(s, id, rev) {
      var l :| l in LeafSet(LeavesIn(s), id) && o in chain(l);
      OnChain(chain, l, o, rev);
    }
  }

  lemma RecordedTips(leaves: map<Bytes, Value>, d: Document, chain: Tree, revs: set<Bytes>)
    requires IsTree(chain) && d.history == chain(d.rev)
    requires LeafSet(leaves, d.id) == Tips(chain, revs) && Covered(chain, LeafSet(leaves, d.id), revs)
    requires forall o :: o in revs ==> d.rev !in chain(o)
    ensures var after := LeafSet(Releaved(leaves, d, Ancestors(d)), d.id);
            after == Tips(chain, revs + {d.rev}) && Covered(chain, after, revs + {d.rev})
            && after == LeafSet(leaves, d.id) + {d.rev} - Ancestors(d)
  {
    assert (set x | x in chain(d.rev)[1..]) == Ancestors(d);
    TipsAddNew(chain, revs, d.rev);
    ReleavedSet(leaves, d, Ancestors(d));
    StillCovered(chain, LeafSet(leaves, d.id), revs, d.rev);
  }

  lemma RecordedChains(leaves: map<Bytes, Value>, d: Document, chain: Tree)
    requires d.history == chain(d.rev) && d.rev !in Ancestors(d)
    requires forall l :: l in LeafSet(leaves, d.id) ==> LeafFrom(leaves, d.id, l, chain)
    ensures forall l :: l in LeafSet(leaves, d.id) + {d.rev} - Ancestors(d)
              ==> LeafFrom(Releaved(leaves, d, Ancestors(d)), d.id, l, chain)
  {
    forall l | l in LeafSet(leaves, d.id) + {d.rev} - Ancestors(d)
      ensures LeafFrom(Releaved(leaves, d, Ancestors(d)), d.id, l, chain)
    {
      ReleavedFrom(leaves, d, Ancestors(d), chain, l);
    }
  }

  /** The winner is a leaf with its chain: one stored already, or the new one. */
  lemma SettledChain(s: Store, d: Document, chain: Tree, top: Bytes)
    requires d.history == chain(d.rev) && PickFor(s, d, top).Some?
    requires WinnerAt(s, d.id).Some? ==> WinnerAt(s, d.id).value.history == chain(WinnerAt(s, d.id).value.rev)
    requires top == d.rev || LeafFrom(LeavesIn(s), d.id, top, chain)
    ensures var w := PickFor(s, d, top).value;
            w.history == chain(top) && (w.rev == top ==> w.history == chain(w.rev))
  {
  }

  lemma RecordedHolds(s: Store, t: Store, d: Document, chain: Tree, revs: set<Bytes>, w: Document)
    requires IsTree(chain) && Holds(s, d.id, chain, revs) && d.history == chain(d.rev)
    requires d.rev !in Ancestors(d)
    requires LeavesIn(t) == Releaved(LeavesIn(s), d, Ancestors(d)) && WinnerAt(t, d.id) == Some(w)
    requires PickFor(s, d, w.rev) == Some(w) && w.rev in LeftAfter(s, d, Ancestors(d))
    requires forall o :: o in revs ==> d.rev !in chain(o)
    ensures Holds(t, d.id, chain, revs + {d.rev})
  {
    RecordedTips(LeavesIn(s), d, chain, revs);
    RecordedChains(LeavesIn(s), d, chain);
    SettledChain(s, d, chain, w.rev);
  }

  lemma OfferHere(env: Env, s: Store, d: Document, chain: Tree, revs: set<Bytes>)
    requires Inv(env, s) && Acceptable(env, Deliver(d)) && CountersFit(Offer(env, s, d)) && Arrives(env, s, d)
    requires IsTree(chain) && Holds(s, d.id, chain, revs) && FromTree(d, chain)
    ensures Inv(env, Offer(env, s, d)) && Holds(Offer(env, s, d), d.id, chain, revs + {d.rev})
  {
    if Has(s, d.id, d.rev) {
      OfferKnown(env, s, d, chain, revs);
    } else {
      NewIsUnrelated(env, s, d.id, chain, revs, d.rev);
      OfferNew(env, s, d);
      var w := NewTop(env, s, d);
      RecordedHolds(s, Offer(env, s, d), Delivered(d), chain, revs, w);
    }
  }

  lemma NewTop(env: Env, s: Store, d: Document) returns (w: Document)
    requires Inv(env, s) && Acceptable(env, Deliver(d))
    ensures var e := Delivered(d);
            && Settled(s, e, Ancestors(e)) == Some(w) && PickFor(s, e, w.rev) == Some(w)
            && w.rev in LeftAfter(s, e, Ancestors(e))
  {
    var e := Delivered(d);
    AdmitsSameData(env, d, e);
    SettledFits(env, s, e, Ancestors(e));
    TopLeftIsTop(env, s, e, Ancestors(e));
    w := Settled(s, e, Ancestors(e)).value;
  }

  lemma OfferKnown(env: Env, s: Store, d: Document, chain: Tree, revs: set<Bytes>)
    requires Inv(env, s) && ValidId(d.id) && !IsLocal(d.id) && IsTree(chain) && Holds(s, d.id, chain, revs)
    requires Has(s, d.id, d.rev)
    ensures Holds(s, d.id, chain, revs + {d.rev})
  {
    KnownOnLeaf(env, s, d.id, chain, revs, d.rev);
    var l :| l in LeafSet(LeavesIn(s), d.id) && d.rev in chain(l);
    KnownHolds(s, d.id, chain, revs, d.rev, l);
  }

  lemma KnownHolds(s: Store, id: Bytes, chain: Tree, revs: set<Bytes>, r: Bytes, l: Bytes)
    requires IsTree(chain) && Holds(s, id, chain, revs) && l in LeafSet(LeavesIn(s), id) && r in chain(l)
    ensures Holds(s, id, chain, revs + {r})
  {
    TipsAddKnown(chain, revs, r, l);
  }

  lemma OfferNew(env: Env, s: Store, d: Document)
    requires Inv(env, s) && Acceptable(env, Deliver(d)) && !Has(s, d.id, d.rev) && CountersFit(Offer(env, s, d))
    requires Arrives(env, s, d)
    ensures SoundDelivery(Delivered(d)) && Recorded(env, s, Offer(env, s, d), Delivered(d), Ancestors(Delivered(d)))
  {
    ReplicationKeeps(env, s, d);
    NotWinner(env, s, d);
  }

  lemma NotWinner(env: Env, s: Store, d: Document)
    requires Inv(env, s) && ValidId(d.id) && !IsLocal(d.id) && !Has(s, d.id, d.rev)
    ensures WinnerAt(s, d.id).Some? ==> WinnerAt(s, d.id).value.rev != d.rev
  {
    AtId(env, s, d.id);
  }

  lemma OfferElsewhere(env: Env, s: Store, d: Document, id: Bytes, chain: Tree, revs: set<Bytes>)
    requires Inv(env, s) && Acceptable(env, Deliver(d)) && CountersFit(Offer(env, s, d)) && Arrives(env, s, d)
    requires ValidId(id) && id != d.id && Holds(s, id, chain, revs)
    ensures Inv(env, Offer(env, s, d)) && Holds(Offer(env, s, d), id, chain, revs)
  {
    if !Has(s, d.id, d.rev) {
      OfferNew(env, s, d);
      var t, e := Offer(env, s, d), Delivered(d);
      forall l | l in LeafSet(LeavesIn(t), id) ensures LeafFrom(LeavesIn(t), id, l, chain) {
        assert LeafFrom(LeavesIn(s), id, l, chain);
        LeafElsewhere(LeavesIn(s), e, Ancestors(e), chain, id, l);
      }
    }
  }

  /******* All of them *******/

  ghost function RevsOffered(ds: seq<Document>, id: Bytes): set<Bytes> {
    set d | d in ds && d.id == id :: d.rev
  }

  ghost predicate Offered(env: Env, s: Store, ds: seq<Document>, id: Bytes, chain: Tree)
    decreases ds
  {
    && CountersFit(s)
    && (ds != [] ==>
          && Acceptable(env, Deliver(ds[0])) && Arrives(env, s, ds[0]) && (ds[0].id == id ==> FromTree(ds[0], chain))
          && Offered(env, Offer(env, s, ds[0]), ds[1..], id, chain))
  }

  lemma {:induction false} OffersHold(env: Env, s: Store, ds: seq<Document>, id: Bytes, chain: Tree, revs: set<Bytes>)
    requires Inv(env, s) && ValidId(id) && IsTree(chain) && Holds(s, id, chain, revs) && Offered(env, s, ds, id, chain)
    ensures Inv(env, OfferAll(env, s, ds)) && Holds(OfferAll(env, s, ds), id, chain, revs + RevsOffered(ds, id))
    decreases ds
  {
    if ds == [] {
      assert revs + RevsOffered(ds, id) == revs;
    } else {
      var next := if ds[0].id == id then revs + {ds[0].rev} else revs;
      OfferStep(env, s, ds[0], id, chain, revs);
      OfferedHead(ds, id, revs);
      OffersHold(env, Offer(env, s, ds[0]), ds[1..], id, chain, next);
    }
  }

  lemma OfferStep(env: Env, s: Store, d: Document, id: Bytes, chain: Tree, revs: set<Bytes>)
    requires Inv(env, s) && Acceptable(env, Deliver(d)) && CountersFit(Offer(env, s, d)) && Arrives(env, s, d)
    requires ValidId(id) && IsTree(chain) && Holds(s, id, chain, revs) && (d.id == id ==> FromTree(d, chain))
    ensures Inv(env, Offer(env, s, d))
    ensures Holds(Offer(env, s, d), id, chain, if d.id == id then revs + {d.rev} else revs)
  {
    if d.id == id {
      OfferHere(env, s, d, chain, revs);
    } else {
      OfferElsewhere(env, s, d, id, chain, revs);
    }
  }

  lemma OfferedHead(ds: seq<Document>, id: Bytes, revs: set<Bytes>)
    requires ds != []
    ensures revs + RevsOffered(ds, id)
         == (if ds[0].id == id then revs + {ds[0].rev} else revs) + RevsOffered(ds[1..], id)
  {
    assert ds == [ds[0]] + ds[1..];
  }

  lemma NothingHeld(env: Env, id: Bytes, chain: Tree)
    requires EnvOk(env)
    ensures Holds(EmptyStore(env), id, chain, {})
  {
    HasAllBuckets(env.indices);
  }

  /** Each delivery filtered first, the leaves are exactly the offered revisions
      that are no offered revision's ancestor, and the winner is the highest. */
  lemma LeavesAreTips(env: Env, ds: seq<Document>, id: Bytes, chain: Tree)
    requires EnvOk(env) && ValidId(id) && !IsLocal(id) && IsTree(chain) && Offered(env, EmptyStore(env), ds, id, chain)
    ensures var t := OfferAll(env, EmptyStore(env), ds);
            && LeafSet(LeavesIn(t), id) == Tips(chain, RevsOffered(ds, id))
            && TopIn(LeafSet(LeavesIn(t), id), WinnerAt(t, id))
            && (forall r :: r in RevsOffered(ds, id) ==> Has(t, id, r))
  {
    var t := OfferAll(env, EmptyStore(env), ds);
    EmptyStoreInv(env);
    NothingHeld(env, id, chain);
    OffersHold(env, EmptyStore(env), ds, id, chain, {});
    assert {} + RevsOffered(ds, id) == RevsOffered(ds, id);
    AtId(env, t, id);
    forall r | r in RevsOffered(ds, id) ensures Has(t, id, r) {
      KnownOnLeaf(env, t, id, chain, RevsOffered(ds, id), r);
    }
  }

  /** Two databases offered the same revisions of one tree, in any order and with
      any repeats, end with the same leaves and the same winner. */
  lemma SameLeaves(env: Env, env': Env, ds: seq<Document>, ds': seq<Document>, id: Bytes, chain: Tree)
    requires EnvOk(env) && EnvOk(env') && ValidId(id) && !IsLocal(id) && IsTree(chain)
    requires Offered(env, EmptyStore(env), ds, id, chain) && Offered(env', EmptyStore(env'), ds', id, chain)
    requires RevsOffered(ds, id) == RevsOffered(ds', id)
    ensures var t, t' := OfferAll(env, EmptyStore(env), ds), OfferAll(env', EmptyStore(env'), ds');
            && LeafSet(LeavesIn(t), id) == LeafSet(LeavesIn(t'), id)
            && RevIn(WinnerAt(t, id)) == RevIn(WinnerAt(t', id))
  {
    LeavesAreTips(env, ds, id, chain);
    LeavesAreTips(env', ds', id, chain);
    var t, t' := OfferAll(env, EmptyStore(env), ds), OfferAll(env', EmptyStore(env'), ds');
    if WinnerAt(t, id).Some? && WinnerAt(t', id).Some? {
      TopUnique(LeafSet(LeavesIn(t), id), WinnerAt(t, id).value.rev, WinnerAt(t', id).value.rev);
    }
  }

  /******* Reads as deliveries *******/

  /** A read names every leaf. */
  lemma ReadNamesLeaves(env: Env, s: Store, id: Bytes, d: Document)
    requires Inv(env, s) && ValidId(id) && !IsLocal(id) && GetDocument(s, id) == Found(d)
    ensures forall l :: l in LeafSet(LeavesIn(s), id) ==> HasRevision(d, l)
  {
    AtId(env, s, id);
    forall l | l in LeafSet(LeavesIn(s), id) && l != d.rev ensures l in d.history {
      LeafSetMembers(LeavesIn(s), id, l);
      LeafAt(DocsIn(s), LeavesIn(s), id, l);
      LeafNamesItself(s, id, l);
      ReadHistory(env, s, id, WinnerAt(s, id).value, l);
    }
  }

  lemma LeafNamesItself(s: Store, id: Bytes, l: Bytes)
    requires LeafKey(id, l) in LeavesIn(s) && LeavesIn(s)[LeafKey(id, l)].Doc?
    requires var d := LeavesIn(s)[LeafKey(id, l)].doc; d.history != [] && d.history[0] == l
    ensures GetLeaf(s, id, l).Some? && l in GetLeaf(s, id, l).value.history
  {
  }

  /** A read merges the histories of all branches. Delivered as it is, it makes
      every other branch of the sender an ancestor, so the receiver drops those
      leaves although the sender still has them: all the sender's leaves are leaves of
      the receiver exactly when the sender has no other. */
  lemma BranchesLost(env: Env, s: Store, env': Env, t: Store, id: Bytes, d: Document)
    requires Inv(env, s) && ValidId(id) && !IsLocal(id) && GetDocument(s, id) == Found(d)
    requires d.id == id && REVISIONS_FIELD !in d.data && Acceptable(env', Deliver(d))
    requires Inv(env', t) && !Has(t, id, d.rev) && CountersFit(Offer(env', t, d)) && Arrives(env', t, d)
    ensures var after := LeafSet(LeavesIn(Offer(env', t, d)), id);
            && d.rev in after && (forall l :: l in LeafSet(LeavesIn(s), id) && l != d.rev ==> l !in after)
            && (LeafSet(LeavesIn(s), id) <= after <==> LeafSet(LeavesIn(s), id) == {d.rev})
  {
    ReadWinner(env, s, id, d);
    ReadNamesLeaves(env, s, id, d);
    OfferNew(env', t, d);
    DeliveredLeaves(t, d, LeafSet(LeavesIn(s), id));
    OnlyOne(LeafSet(LeavesIn(s), id), LeafSet(LeavesIn(Offer(env', t, d)), id), d.rev);
  }

  lemma ReadWinner(env: Env, s: Store, id: Bytes, d: Document)
    requires Inv(env, s) && ValidId(id) && !IsLocal(id) && GetDocument(s, id) == Found(d)
    ensures d.rev in LeafSet(LeavesIn(s), id)
  {
    AtId(env, s, id);
  }

  lemma OnlyOne(all: set<Bytes>, after: set<Bytes>, r: Bytes)
    requires r in all && r in after && forall l :: l in all && l != r ==> l !in after
    ensures all <= after <==> all == {r}
  {
  }

  lemma DeliveredLeaves(t: Store, d: Document, named: set<Bytes>)
    requires REVISIONS_FIELD !in d.data && SoundDelivery(Delivered(d))
    requires forall l :: l in named ==> HasRevision(d, l)
    ensures var after := LeafSet(Releaved(LeavesIn(t), Delivered(d), Ancestors(Delivered(d))), d.id);
            d.rev in after && forall l :: l in named && l != d.rev ==> l !in after
  {
    var e := Delivered(d);
    ReleavedSet(LeavesIn(t), e, Ancestors(e));
    forall l | l in named && l != d.rev ensures l in Ancestors(e) { NamedIsAncestor(d, l); }
  }

  lemma NamedIsAncestor(d: Document, l: Bytes)
    requires REVISIONS_FIELD !in d.data && l in d.history && l != d.rev
    requires Delivered(d).history != [] && Delivered(d).history[0] == d.rev
    ensures l in Ancestors(Delivered(d))
  {
    assert d.history == [d.history[0]] + d.history[1..];
  }
}
