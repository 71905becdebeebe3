/** The document layer: what each writer reads from the snapshot and logs. */
module DocStore {
  import opened ByteStrings
  import opened Documents
  import opened Engine
  import opened Indexes
  import opened Revisions
  import opened SortedKeys

  /** The database's indices and the hash of a document's content. */
  datatype Env = Env(indices: seq<Index>, hash: Document -> Bytes)

  datatype Result =
    | Done(rev: Bytes)
    | Unchanged          // replication already has this revision
    | Conflict
    | NotFound
    | ReadError
    | CommitError        // a key was too long
    | Crash              // the source panics here

  /** The operations a call appends to the log, and what it returns. */
  datatype Plan = Plan(ops: seq<Op>, result: Result)

  datatype Read = Missing | Unreadable | Found(doc: Document)

  /******* Leaf revisions *******/

  function LeafKey(id: Bytes, rev: Bytes): Bytes {
    id + [0] + rev
  }

  function SuffixesAfter(p: Bytes, keys: seq<Bytes>): (r: seq<Bytes>)
    requires forall j :: 0 <= j < |keys| ==> p <= keys[j]
    ensures |r| == |keys| && forall j :: 0 <= j < |r| ==> r[j] == keys[j][|p|..]
  {
    seq(|keys|, j requires 0 <= j < |keys| => keys[j][|p|..])
  }

  function KeysUnder(p: Bytes, entries: map<Bytes, Value>): (keys: seq<Bytes>)
    ensures forall k :: k in keys <==> k in entries && p <= k
    ensures forall j :: 0 <= j < |keys| ==> p <= keys[j]
  {
    var keys := Sorted(set k | k in entries && p <= k);
    assert forall j | 0 <= j < |keys| :: keys[j] in keys;
    keys
  }

  /** The leaf revisions of an ID, in key order. */
  function LeafRevs(s: Store, id: Bytes): seq<Bytes> {
    SuffixesAfter(id + [0], KeysUnder(id + [0], Entries(s, Leaves)))
  }

  function GetLeaf(s: Store, id: Bytes, rev: Bytes): Option<Document> {
    var leaves := Entries(s, Leaves);
    if LeafKey(id, rev) in leaves && leaves[LeafKey(id, rev)].Doc? then Some(leaves[LeafKey(id, rev)].doc) else None
  }

  function PutLeaf(doc: Document): Op {
    Put(Leaves, LeafKey(doc.id, doc.rev), Doc(doc))
  }

  function DeleteLeaf(id: Bytes, rev: Bytes): Op {
    Delete(Leaves, LeafKey(id, rev))
  }

  /******* Reading *******/

  /** Appends the revisions not there yet. */
  function AppendNew(history: seq<Bytes>, revs: seq<Bytes>): (h: seq<Bytes>)
    ensures forall r :: r in h <==> r in history || r in revs
    ensures history <= h
    decreases revs
  {
    if revs == [] then history
    else
      var next := if revs[0] in history then history else history + [revs[0]];
      assert revs == [revs[0]] + revs[1..];
      AppendNew(next, revs[1..])
  }

  /** Adds the histories of the conflict branches to the winner's. */
  function AddBranches(s: Store, id: Bytes, rev: Bytes, history: seq<Bytes>, leaves: seq<Bytes>): seq<Bytes>
    decreases leaves
  {
    if leaves == [] then history
    else
      var leaf := GetLeaf(s, id, leaves[0]);
      var next := if leaves[0] != rev && leaf.Some? then AppendNew(history, leaf.value.history) else history;
      AddBranches(s, id, rev, next, leaves[1..])
  }

  function OthersThan(rev: Bytes, revs: seq<Bytes>): seq<Bytes> {
    if revs == [] then []
    else
      var last := |revs| - 1;
      OthersThan(rev, revs[..last]) + (if revs[last] == rev then [] else [revs[last]])
  }

  function AsJson(revs: seq<Bytes>): seq<Json> {
    seq(|revs|, j requires 0 <= j < |revs| => Str(revs[j]))
  }

  /** The attachments as a member of the data, one object a file name. */
  function AttachmentsJson(attachments: map<Bytes, Bytes>): Json {
    Obj(map name | name in attachments :: Obj(map[]))
  }

  /** The stored document with its meta members filled in. */
  function WithMeta(doc: Document): Document {
    var data := doc.data[ID_FIELD := Str(doc.id)][REV_FIELD := Str(doc.rev)];
    var marked := if doc.deleted then data[DELETED_FIELD := Bool(true)] else data;
    doc.(data := if doc.attachments != map[] then marked[ATTACHMENTS_FIELD := AttachmentsJson(doc.attachments)] else marked)
  }

  function WithBranches(s: Store, doc: Document): Document {
    var leaves := LeafRevs(s, doc.id);
    if doc.rev in leaves && |leaves| > 1 then
      doc.(history := AddBranches(s, doc.id, doc.rev, doc.history, leaves),
           data := doc.data[CONFLICTS_FIELD := Arr(AsJson(OthersThan(doc.rev, leaves)))])
    else doc
  }

  /** LocalSeq: the sequence from the changes invalidation bucket; local
      documents have none. */
  function WithSequence(s: Store, doc: Document): Option<Document> {
    var inv := Entries(s, ChangesInv);
    if IsLocal(doc.id) then Some(doc)
    else if doc.id in inv && inv[doc.id].Bin? then Some(doc.(localSeq := FromBigEndian(inv[doc.id].bytes)))
    else None
  }

  function GetDocument(s: Store, id: Bytes): Read {
    var docs := Entries(s, Docs);
    if id !in docs then Missing
    else if !docs[id].Doc? then Unreadable
    else match WithSequence(s, WithMeta(docs[id].doc))
      case None => Unreadable
      case Some(doc) => Found(WithBranches(s, doc))
  }

  /******* PutDocument *******/

  function NewRevision(env: Env, doc: Document): Bytes
    requires Revision(doc).Some? ==> DASH in Revision(doc).value
  {
    Format(NextGeneration(Revision(doc)), env.hash(doc))
  }

  function HistoryOf(stored: Option<Document>): seq<Bytes> {
    if stored.None? then []
    else if stored.value.history != [] then stored.value.history
    else if stored.value.rev != [] then [stored.value.rev]
    else []
  }

  function Stamped(env: Env, stored: Option<Document>, doc: Document): Document
    requires Revision(doc).Some? ==> DASH in Revision(doc).value
  {
    var rev := NewRevision(env, doc);
    doc.(rev := rev, history := Capped([rev] + HistoryOf(stored)))
  }

  function RemovalOf(env: Env, s: Store, stored: Option<Document>): seq<Op> {
    if stored.Some? then AllDeleted(env.indices, s, stored.value) else []
  }

  function PutPlan(env: Env, s: Store, doc: Document): Plan {
    var read := GetDocument(s, doc.id);
    var stored := if read.Found? then Some(read.doc) else None;
    if stored.Some? && !ValidUpdateRevision(stored.value, doc) then Plan([], Conflict)
    else if IsLocal(doc.id) then
      var rev := if stored.Some? then NextLocalRevision(stored.value) else [48, DASH, 49];
      Plan([Put(Docs, doc.id, Doc(doc.(rev := rev)))], Done(rev))
    else if Revision(doc).Some? && DASH !in Revision(doc).value then Plan([], Crash)
    else
      var d := Stamped(env, stored, doc);
      var docOps := [Put(Docs, doc.id, Doc(d))]
                    + (if stored.Some? then [DeleteLeaf(doc.id, stored.value.rev)] else []) + [PutLeaf(d)];
      Plan(RemovalOf(env, s, stored) + docOps + AllStored(env.indices, s, d), Done(d.rev))
  }

  /******* PutDocumentForReplication *******/

  function ParseIds(items: seq<Json>, start: int): (h: seq<Bytes>)
    decreases items
  {
    if items == [] then []
    else (if items[0].Str? then [Format(start, items[0].s)] else []) + ParseIds(items[1..], start - 1)
  }

  /** The history a peer supplied in "_revisions", or else the one at hand, or
      at least the revision itself. */
  function SuppliedHistory(doc: Document): seq<Bytes> {
    var given :=
      if REVISIONS_FIELD in doc.data && doc.data[REVISIONS_FIELD].Obj? then
        var f := doc.data[REVISIONS_FIELD].fields;
        var start := if START_FIELD in f && f[START_FIELD].Num? then f[START_FIELD].n else 0;
        var ids := if IDS_FIELD in f && f[IDS_FIELD].Arr? then f[IDS_FIELD].items else [];
        Capped(ParseIds(ids, start))
      else doc.history;
    if given == [] && doc.rev != [] then [doc.rev] else given
  }

  /** The members of `from` that occur in `leaves`, each once. */
  function Pruned(from: seq<Bytes>, leaves: set<Bytes>): (p: seq<Bytes>)
    ensures forall r :: r in p <==> r in from && r in leaves
    decreases from
  {
    if from == [] then []
    else
      assert from == [from[0]] + from[1..];
      if from[0] in leaves then [from[0]] + Pruned(from[1..], leaves - {from[0]})
      else Pruned(from[1..], leaves)
  }

  function DeleteLeaves(id: Bytes, revs: seq<Bytes>): (ops: seq<Op>)
    ensures |ops| == |revs| && forall j :: 0 <= j < |ops| ==> ops[j] == DeleteLeaf(id, revs[j])
  {
    seq(|revs|, j requires 0 <= j < |revs| => DeleteLeaf(id, revs[j]))
  }

  function RevString(doc: Document): Bytes {
    if Revision(doc).Some? then Revision(doc).value else []
  }

  /** What happens to the docs bucket and the indices once the winner is known. */
  function WinnerOps(env: Env, s: Store, stored: Option<Document>, id: Bytes,
                     winner: Bytes, winnerDoc: Option<Document>): seq<Op> {
    var current := if stored.Some? then stored.value.rev else [];
    if winnerDoc.Some? && winner != current then
      RemovalOf(env, s, stored) + [Put(Docs, id, Doc(winnerDoc.value))]
      + AllStored(env.indices, s, winnerDoc.value)
    else []
  }

  /** The leaves a delivery would compete with: those committed, and the stored
      winner even if it has no leaf entry. */
  function Competing(s: Store, stored: Option<Document>, id: Bytes): set<Bytes> {
    (set r | r in LeafRevs(s, id)) + (if stored.Some? then {stored.value.rev} else {})
  }

  /** The delivery's ancestors that were leaves. */
  function PrunedBy(s: Store, stored: Option<Document>, doc: Document): seq<Bytes>
    requires doc.history != []
  {
    Pruned(doc.history[1..], Competing(s, stored, doc.id) + {doc.rev})
  }

  function RemainingLeaves(s: Store, stored: Option<Document>, doc: Document): set<Bytes>
    requires doc.history != []
  {
    Competing(s, stored, doc.id) + {doc.rev} - (set r | r in PrunedBy(s, stored, doc))
  }

  /** A stored winner from before leaves were kept is recorded as one. */
  function AdoptOps(s: Store, stored: Option<Document>, id: Bytes): seq<Op> {
    if stored.Some? && stored.value.rev !in LeafRevs(s, id) then [PutLeaf(stored.value)] else []
  }

  function DeliveryOps(s: Store, stored: Option<Document>, doc: Document): seq<Op>
    requires doc.history != []
  {
    [PutLeaf(doc)] + DeleteLeaves(doc.id, PrunedBy(s, stored, doc))
  }

  function LeafOrSelf(s: Store, doc: Document, winner: Bytes): Option<Document> {
    if winner == doc.rev then Some(doc) else GetLeaf(s, doc.id, winner)
  }

  /** The leaf entries, then the winner and the indices. */
  function DeliveryLog(env: Env, s: Store, stored: Option<Document>, doc: Document): seq<Op>
    requires doc.history != [] && RemainingLeaves(s, stored, doc) != {}
  {
    var winner := WinnerRev(Sorted(RemainingLeaves(s, stored, doc)));
    AdoptOps(s, stored, doc.id) + DeliveryOps(s, stored, doc)
    + WinnerOps(env, s, stored, doc.id, winner, LeafOrSelf(s, doc, winner))
  }

  function ReplicationPlan(env: Env, s: Store, given: Document): Plan {
    var read := GetDocument(s, given.id);
    var stored := if read.Found? then Some(read.doc) else None;
    var doc := given.(history := SuppliedHistory(given));
    if stored.Some? && RevString(stored.value) == RevString(given) then Plan([], Unchanged)
    else if doc.history == [] || RemainingLeaves(s, stored, doc) == {} then Plan([], Crash)
    else Plan(DeliveryLog(env, s, stored, doc), Done(doc.rev))
  }

  /******* DeleteDocument *******/

  function Tombstone(id: Bytes, rev: Bytes): Document {
    Document(id, rev, true, 0, [], map[], map[])
  }

  /** The tombstone that ends a conflict branch. */
  function BranchTombstone(env: Env, id: Bytes, rev: Bytes, leaf: Document): Document
    requires rev == [] || DASH in rev
  {
    var doc := Tombstone(id, rev);
    var newRev := NewRevision(env, doc);
    var past := if leaf.history == [] && rev != [] then [rev] else leaf.history;
    doc.(rev := newRev, history := Capped([newRev] + past))
  }

  function LeavesWithTombstone(s: Store, rev: Bytes, tombstone: Document): (left: set<Bytes>)
    ensures tombstone.rev in left
  {
    (set r | r in LeafRevs(s, tombstone.id)) - {rev} + {tombstone.rev}
  }

  function BranchWinner(s: Store, stored: Document, tombstone: Document, winner: Bytes): Option<Document> {
    if winner == tombstone.rev then Some(tombstone)
    else if winner == stored.rev then Some(stored)
    else GetLeaf(s, tombstone.id, winner)
  }

  function BranchLog(env: Env, s: Store, stored: Document, rev: Bytes, tombstone: Document): seq<Op> {
    var winner := WinnerRev(Sorted(LeavesWithTombstone(s, rev, tombstone)));
    [DeleteLeaf(tombstone.id, rev), PutLeaf(tombstone)]
    + WinnerOps(env, s, Some(stored), tombstone.id, winner, BranchWinner(s, stored, tombstone, winner))
  }

  function DeletePlan(env: Env, s: Store, id: Bytes, rev: Bytes): Plan {
    match GetDocument(s, id)
    case Unreadable => Plan([], ReadError)
    case Missing => Plan([], NotFound)
    case Found(stored) =>
      if stored.rev == rev then PutPlan(env, s, Tombstone(id, rev))
      else if rev !in LeafRevs(s, id) then Plan([], Conflict)
      else match GetLeaf(s, id, rev)
        case None => Plan([], Conflict)
        case Some(leaf) =>
          if rev != [] && DASH !in rev then Plan([], Crash)
          else
            var tombstone := BranchTombstone(env, id, rev, leaf);
            Plan(BranchLog(env, s, stored, rev, tombstone), Done(tombstone.rev))
  }

  /******* Plans unfolded *******/

  /** The plan of a delivery that is not the stored revision. */
  lemma ReplicationUnfolds(env: Env, s: Store, given: Document, stored: Option<Document>, doc: Document)
    requires stored == (var read := GetDocument(s, given.id); if read.Found? then Some(read.doc) else None)
    requires doc == given.(history := SuppliedHistory(given))
    requires stored.Some? ==> RevString(stored.value) != RevString(given)
    ensures ReplicationPlan(env, s, given)
         == if doc.history == [] || RemainingLeaves(s, stored, doc) == {} then Plan([], Crash)
            else Plan(DeliveryLog(env, s, stored, doc), Done(given.rev))
  {
  }

  /** The plan of a deletion that does not name the stored revision. */
  lemma RemovalUnfolds(env: Env, s: Store, id: Bytes, rev: Bytes, stored: Document, leaf: Option<Document>)
    requires GetDocument(s, id) == Found(stored) && stored.rev != rev && leaf == GetLeaf(s, id, rev)
    ensures DeletePlan(env, s, id, rev)
         == if rev !in LeafRevs(s, id) || leaf.None? then Plan([], Conflict)
            else if rev != [] && DASH !in rev then Plan([], Crash)
            else
              var d := BranchTombstone(env, id, rev, leaf.value);
              Plan(BranchLog(env, s, stored, rev, d), Done(d.rev))
  {
  }
}
