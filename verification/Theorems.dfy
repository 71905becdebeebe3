/** What holds in every store that edits, replication and deletions can reach. */
module Theorems {
  import opened ByteStrings
  import opened ChangesFeed
  import opened ConflictWriters
  import opened Documents
  import opened DocStore
  import opened Engine
  import opened IndexInvariants
  import opened Indexes
  import opened Rebuilds
  import opened Revisions
  import opened Runs
  import opened SortedKeys
  import opened StoreInvariant
  import opened ViewRep
  import opened Writers

  /** Some run of acceptable writes leads from the empty database to here. */
  ghost predicate Reachable(env: Env, s: Store) {
    EnvOk(env) && exists ws :: AllAcceptable(env, ws) && FitsAlong(env, EmptyStore(env), ws) && s == Run(env, EmptyStore(env), ws)
  }

  lemma ReachableSound(env: Env, s: Store)
    requires Reachable(env, s)
    ensures Inv(env, s)
  {
    var ws :| AllAcceptable(env, ws) && FitsAlong(env, EmptyStore(env), ws) && s == Run(env, EmptyStore(env), ws);
    ReachableInv(env, ws);
  }

  /** The stored revision is a leaf and no leaf is above it; there are leaves exactly
      when there is a document. */
  lemma WinnerIsHighestLeaf(env: Env, s: Store, id: Bytes)
    requires Reachable(env, s) && ValidId(id) && !IsLocal(id)
    ensures WinnerAt(s, id).Some? <==> LeafSet(LeavesIn(s), id) != {}
    ensures WinnerAt(s, id).Some? ==> TopLeaf(LeavesIn(s), id, WinnerAt(s, id).value)
  {
    ReachableSound(env, s);
    AtId(env, s, id);
  }

  /** No key is too long, and no counter outgrows 64 bits. */
  ghost predicate CommitFits(ops: seq<Op>, s: Store) {
    KeysFit(ops) && CountersFit(Landed(ops, s))
  }

  /** An edit wins over every leaf there was, conflict branches included. */
  lemma EditWins(env: Env, s: Store, doc: Document)
    requires Reachable(env, s) && Acceptable(env, Edit(doc)) && !IsLocal(doc.id)
    requires PutPlan(env, s, doc).result.Done? && CommitFits(PutPlan(env, s, doc).ops, s)
    ensures var t := Landed(PutPlan(env, s, doc).ops, s);
            && WinnerAt(t, doc.id).Some? && WinnerAt(t, doc.id).value.rev == PutPlan(env, s, doc).result.rev
            && forall r :: r in LeafSet(LeavesIn(s), doc.id) ==> !NotAbove(WinnerAt(t, doc.id).value.rev, r)
  {
    ReachableSound(env, s);
    PutKeeps(env, s, doc);
  }

  /** When the leaf of a conflict branch is deleted, the winner is the tombstone or
      the document that was the winner before; no third leaf is ever looked up. */
  lemma BranchDeletionWinner(env: Env, s: Store, id: Bytes, rev: Bytes)
    requires Reachable(env, s) && ValidId(id) && CommitFits(DeletePlan(env, s, id, rev).ops, s)
    requires WinnerAt(s, id).Some? && WinnerAt(s, id).value.rev != rev && rev in LeafSet(LeavesIn(s), id)
    ensures var t := Landed(DeletePlan(env, s, id, rev).ops, s);
            && DeletePlan(env, s, id, rev).result.Done? && WinnerAt(t, id).Some?
            && (WinnerAt(t, id) == WinnerAt(s, id)
                || (WinnerAt(t, id).value.deleted && WinnerAt(t, id).value.rev == DeletePlan(env, s, id, rev).result.rev))
            && LeafSet(LeavesIn(t), id) == LeafSet(LeavesIn(s), id) + {DeletePlan(env, s, id, rev).result.rev} - {rev}
  {
    ReachableSound(env, s);
    DeleteKeeps(env, s, id, rev);
    var d := BranchTombstone(env, id, rev, GetLeaf(s, id, rev).value);
    ReleavedSet(LeavesIn(s), d, {rev});
  }

  /** A delivery, whatever its history, leaves the highest of the leaves that are
      left as the winner, its document found; a committed leaf has to be looked up for
      it exactly when the history names the stored winner and a leaf it does not name
      is above the delivery. */
  lemma DeliveryWinner(env: Env, s: Store, given: Document)
    requires Reachable(env, s) && Acceptable(env, Deliver(given))
    requires CommitFits(ReplicationPlan(env, s, given).ops, s)
    requires !(WinnerAt(s, given.id).Some? && WinnerAt(s, given.id).value.rev == given.rev)
    ensures var d, t := Delivered(given), Landed(ReplicationPlan(env, s, given).ops, s);
            var left := LeafSet(LeavesIn(s), d.id) + {d.rev} - Ancestors(d);
            && LeafSet(LeavesIn(t), d.id) == left
            && WinnerAt(t, d.id).Some? && TopOf(left, WinnerAt(t, d.id).value.rev)
            && (WinnerAt(t, d.id) != Some(d) && WinnerAt(t, d.id) != WinnerAt(s, d.id) ==>
                  WinnerAt(t, d.id) == GetLeaf(s, d.id, WinnerAt(t, d.id).value.rev))
    ensures var d, w := Delivered(given), WinnerAt(s, given.id);
            var top := TopLeft(s, d, Ancestors(d));
            top != d.rev && !(w.Some? && w.value.rev == top) <==>
            w.Some? && w.value.rev in Ancestors(d)
            && exists r :: r in LeafSet(LeavesIn(s), d.id) && r !in Ancestors(d) && !NotAbove(r, d.rev)
  {
    ReachableSound(env, s);
    var d := Delivered(given);
    AdmitsSameData(env, given, d);
    ReplicationKeeps(env, s, given);
    ReleavedSet(LeavesIn(s), d, Ancestors(d));
    SettledFits(env, s, d, Ancestors(d));
    TopLeftIsTop(env, s, d, Ancestors(d));
    LookupNeeded(env, s, d, Ancestors(d));
  }

  /** Each document that is stored has exactly one entry in the feed, under the
      sequence a read reports for it, and reading never fails for want of one. */
  lemma OneChangeEach(env: Env, s: Store, id: Bytes, k: Bytes)
    requires Reachable(env, s) && ValidId(id) && !IsLocal(id)
    ensures k in FeedKeys(s) && Entries(s, Changes)[k] == Bin(id) <==>
            GetDocument(s, id).Found? && k == U64Key(GetDocument(s, id).doc.localSeq)
    ensures id in DocsIn(s) <==> GetDocument(s, id).Found?
  {
    ReachableSound(env, s);
    ChangesAgreeIn(env, s);
    ReadStored(env, s, id);
    if k in FeedKeys(s) && Entries(s, Changes)[k] == Bin(id) { FedIsRead(env, s, id, k); }
    if GetDocument(s, id).Found? { ReadIsFed(env, s, id); }
  }

  lemma FedIsRead(env: Env, s: Store, id: Bytes, k: Bytes)
    requires Inv(env, s) && k in FeedKeys(s) && Entries(s, Changes)[k] == Bin(id)
    ensures GetDocument(s, id).Found? && k == U64Key(GetDocument(s, id).doc.localSeq)
  {
    ChangesAgreeIn(env, s);
    EntryNumber(s, WinnersOf(DocsIn(s)).Keys, k);
    EntryFound(env, s, k);
  }

  lemma ReadIsFed(env: Env, s: Store, id: Bytes)
    requires Inv(env, s) && ValidId(id) && !IsLocal(id) && GetDocument(s, id).Found?
    ensures var k := U64Key(GetDocument(s, id).doc.localSeq);
            k in FeedKeys(s) && Entries(s, Changes)[k] == Bin(id)
  {
    ChangesAgreeIn(env, s);
    ReadStored(env, s, id);
    AtId(env, s, id);
    HasSequence(env, s, id);
    assert SequencedBy(s[Changes], s[ChangesInv], id);
    FedIsRead(env, s, id, s[ChangesInv].entries[id].bytes);
  }

  ghost predicate Has(env: Env, i: Index) {
    exists k :: 0 <= k < |env.indices| && env.indices[k] == i
  }

  lemma IndexAgreesIn(env: Env, s: Store, i: Index)
    requires Inv(env, s) && Has(env, i)
    ensures IndexAgrees(i, s, WinnersOf(DocsIn(s)))
  {
    var k :| 0 <= k < |env.indices| && env.indices[k] == i;
    assert IndexAgrees(env.indices[k], s, WinnersOf(DocsIn(s)));
  }

  /** The deleted index holds the tombstones, and what the iterator reports as the
      total is the number of live documents that are not local. */
  lemma DeletedAndTotal(env: Env, s: Store)
    requires Reachable(env, s) && Has(env, DeletedIndex)
    ensures forall id :: id in Entries(s, DeletedDocs) <==>
              id in DocsIn(s) && !IsLocal(id) && WinnerAt(s, id).Some? && WinnerAt(s, id).value.deleted
    ensures TotalRows(s) == |LiveIds(DocsIn(s))|
  {
    ReachableSound(env, s);
    IndexAgreesIn(env, s, DeletedIndex);
    TotalExact(s);
  }

  /******* Views *******/

  /** Row j that the map function emits for a document; deleted documents, design
      documents and local ones are not mapped. */
  ghost predicate Emitted(docs: Winners, mapFn: Document -> seq<Row>, id: Bytes, j: int) {
    id in docs && !docs[id].deleted && !IsDesign(id) && !IsLocal(id) && 0 <= j < |mapFn(docs[id])|
  }

  type Numbering = (Bytes, int) -> nat

  ghost function KeyAt(docs: Winners, mapFn: Document -> seq<Row>, number: Numbering, id: Bytes, j: int): Bytes
    requires Emitted(docs, mapFn, id, j)
  {
    SeqSuffixed(mapFn(docs[id])[j].key, number(id, j))
  }

  ghost function InvAt(number: Numbering, id: Bytes, j: int): Bytes {
    SeqSuffixed(id, number(id, j))
  }

  /** Row j of a document stands under its key, and its record points at it. */
  ghost predicate Stands(main: map<Bytes, Value>, inv: map<Bytes, Value>, docs: Winners, mapFn: Document -> seq<Row>,
                         number: Numbering, id: Bytes, j: int)
    requires Emitted(docs, mapFn, id, j)
  {
    var k, r := KeyAt(docs, mapFn, number, id, j), InvAt(number, id, j);
    && k in main && main[k] == mapFn(docs[id])[j].value
    && r in inv && inv[r] == Bin(k)
  }

  /** The emitted rows and the entries are one to one, and so are the rows and the
      records. */
  ghost predicate HoldsRows(main: map<Bytes, Value>, inv: map<Bytes, Value>, docs: Winners, mapFn: Document -> seq<Row>,
                            number: Numbering) {
    && (forall id, j :: Emitted(docs, mapFn, id, j) ==> Stands(main, inv, docs, mapFn, number, id, j))
    && (forall id, j, id', j' {:trigger Emitted(docs, mapFn, id, j), Emitted(docs, mapFn, id', j')} ::
          Emitted(docs, mapFn, id, j) && Emitted(docs, mapFn, id', j') && (id, j) != (id', j') ==>
            && KeyAt(docs, mapFn, number, id, j) != KeyAt(docs, mapFn, number, id', j')
            && InvAt(number, id, j) != InvAt(number, id', j'))
    && (forall k :: k in main ==> exists id, j :: Emitted(docs, mapFn, id, j) && k == KeyAt(docs, mapFn, number, id, j))
    && (forall r :: r in inv ==> exists id, j :: Emitted(docs, mapFn, id, j) && r == InvAt(number, id, j))
  }

  ghost function NumberIn(p: Placement): Numbering {
    (id, j) => if Slot(p, id, j) then SeqAt(p, id, j) else 0
  }

  lemma SlotStands(main: Bucket, inv: Bucket, mapFn: Document -> seq<Row>, docs: Winners, p: Placement, id: Bytes, j: int)
    requires ViewAgrees(main, inv, mapFn, docs, p) && Keyed(docs)
    ensures Slot(p, id, j) <==> Emitted(docs, mapFn, id, j)
    ensures Slot(p, id, j) ==>
              && KeyAt(docs, mapFn, NumberIn(p), id, j) == RowAt(p, id, j) && InvAt(NumberIn(p), id, j) == RecordAt(p, id, j)
              && Stands(main.entries, inv.entries, docs, mapFn, NumberIn(p), id, j)
  {
  }

  lemma SlotsApart(p: Placement, counter: nat, id: Bytes, j: int, id': Bytes, j': int)
    requires Bounded(p, counter) && Apart(p) && Slot(p, id, j) && Slot(p, id', j') && (id, j) != (id', j')
    ensures RowAt(p, id, j) != RowAt(p, id', j') && RecordAt(p, id, j) != RecordAt(p, id', j')
  {
    if RowAt(p, id, j) == RowAt(p, id', j') {
      SuffixInjective(p.rows[id][j].key, SeqAt(p, id, j), p.rows[id'][j'].key, SeqAt(p, id', j'));
    }
    if RecordAt(p, id, j) == RecordAt(p, id', j') {
      SuffixInjective(id, SeqAt(p, id, j), id', SeqAt(p, id', j'));
    }
  }

  lemma EntryHasSlot(main: Bucket, inv: Bucket, mapFn: Document -> seq<Row>, docs: Winners, p: Placement, k: Bytes)
    requires ViewAgrees(main, inv, mapFn, docs, p) && Keyed(docs)
    ensures k in main.entries ==>
              exists id, j :: Emitted(docs, mapFn, id, j) && k == KeyAt(docs, mapFn, NumberIn(p), id, j)
    ensures k in inv.entries ==> exists id, j :: Emitted(docs, mapFn, id, j) && k == InvAt(NumberIn(p), id, j)
  {
    if k in main.entries {
      var id, j :| Slot(p, id, j) && k == RowAt(p, id, j);
      SlotStands(main, inv, mapFn, docs, p, id, j);
    }
    if k in inv.entries {
      var id, j :| Slot(p, id, j) && k == RecordAt(p, id, j);
      SlotStands(main, inv, mapFn, docs, p, id, j);
    }
  }

  lemma EmittedStand(main: Bucket, inv: Bucket, mapFn: Document -> seq<Row>, docs: Winners, p: Placement)
    requires ViewAgrees(main, inv, mapFn, docs, p) && Keyed(docs)
    ensures forall id, j :: Emitted(docs, mapFn, id, j) ==>
              Stands(main.entries, inv.entries, docs, mapFn, NumberIn(p), id, j)
  {
    forall id, j | Emitted(docs, mapFn, id, j) ensures Stands(main.entries, inv.entries, docs, mapFn, NumberIn(p), id, j) {
      SlotStands(main, inv, mapFn, docs, p, id, j);
    }
  }

  lemma EmittedApart(main: Bucket, inv: Bucket, mapFn: Document -> seq<Row>, docs: Winners, p: Placement,
                     id: Bytes, j: int, id': Bytes, j': int)
    requires ViewAgrees(main, inv, mapFn, docs, p) && Keyed(docs)
    requires Emitted(docs, mapFn, id, j) && Emitted(docs, mapFn, id', j') && (id, j) != (id', j')
    ensures KeyAt(docs, mapFn, NumberIn(p), id, j) != KeyAt(docs, mapFn, NumberIn(p), id', j')
    ensures InvAt(NumberIn(p), id, j) != InvAt(NumberIn(p), id', j')
  {
    SlotStands(main, inv, mapFn, docs, p, id, j);
    SlotStands(main, inv, mapFn, docs, p, id', j');
    SlotsApart(p, main.counter, id, j, id', j');
  }

  lemma PlacedHoldsRows(main: Bucket, inv: Bucket, mapFn: Document -> seq<Row>, docs: Winners, p: Placement, number: Numbering)
    requires ViewAgrees(main, inv, mapFn, docs, p) && Keyed(docs) && number == NumberIn(p)
    ensures HoldsRows(main.entries, inv.entries, docs, mapFn, number)
  {
    EmittedStand(main, inv, mapFn, docs, p);
    forall id, j, id', j' | Emitted(docs, mapFn, id, j) && Emitted(docs, mapFn, id', j') && (id, j) != (id', j')
      ensures KeyAt(docs, mapFn, number, id, j) != KeyAt(docs, mapFn, number, id', j')
      ensures InvAt(number, id, j) != InvAt(number, id', j')
    {
      EmittedApart(main, inv, mapFn, docs, p, id, j, id', j');
    }
    forall k
      ensures k in main.entries ==> exists id, j :: Emitted(docs, mapFn, id, j) && k == KeyAt(docs, mapFn, number, id, j)
      ensures k in inv.entries ==> exists id, j :: Emitted(docs, mapFn, id, j) && k == InvAt(number, id, j)
    {
      EntryHasSlot(main, inv, mapFn, docs, p, k);
    }
  }

  /** A view holds exactly the rows emitted for the live documents, equal ones as
      often as they were emitted: some numbering of the rows makes them one to one with
      the entries, and with the records, each of which points at its own row. */
  lemma ViewHoldsRows(env: Env, s: Store, view: nat, mapFn: Document -> seq<Row>) returns (number: Numbering)
    requires Reachable(env, s) && Has(env, ViewIndex(view, mapFn))
    ensures HoldsRows(Entries(s, View(view)), Entries(s, ViewInv(view)), WinnersOf(DocsIn(s)), mapFn, number)
  {
    ReachableSound(env, s);
    IndexAgreesIn(env, s, ViewIndex(view, mapFn));
    var p :| ViewAgrees(s[View(view)], s[ViewInv(view)], mapFn, WinnersOf(DocsIn(s)), p);
    number := NumberIn(p);
    WinnersKeyed(DocsIn(s));
    PlacedHoldsRows(s[View(view)], s[ViewInv(view)], mapFn, WinnersOf(DocsIn(s)), p, number);
  }
}
