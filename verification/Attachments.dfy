/** Attachments: blobs named by digest, counted by reference, and removed when the
    count falls to zero. */
module Attachments {
  import opened ByteStrings
  import opened Databases
  import opened Documents
  import opened DocStore
  import opened Effects
  import opened Engine
  import opened IndexInvariants
  import opened Indexes
  import opened Revisions
  import opened Runs
  import opened StoreInvariant
  import opened Transactions
  import opened Writers

  /******* Reference counts *******/

  function LittleEndian(n: nat, width: nat): (b: Bytes)
    ensures |b| == width
  {
    if width == 0 then [] else [n % 256] + LittleEndian(n / 256, width - 1)
  }

  function FromLittleEndian(b: Bytes): nat {
    if b == [] then 0 else b[0] + 256 * FromLittleEndian(b[1..])
  }

  lemma {:induction false} LittleEndianRoundTrip(n: nat, width: nat)
    requires n < Pow256(width)
    ensures FromLittleEndian(LittleEndian(n, width)) == n
  {
    if width > 0 {
      assert n / 256 < Pow256(width - 1);
      LittleEndianRoundTrip(n / 256, width - 1);
      assert LittleEndian(n, width)[1..] == LittleEndian(n / 256, width - 1);
    }
  }

  const I64: nat := 0x8000_0000_0000_0000

  function EncodeRef(n: nat): Value {
    Bin(LittleEndian(n, 8))
  }

  /** Anything shorter than eight bytes counts as none. */
  function DecodeRef(v: Value): nat {
    if v.Bin? && |v.bytes| >= 8 then FromLittleEndian(v.bytes[..8]) else 0
  }

  lemma RefRoundTrip(n: nat)
    requires n < U64
    ensures DecodeRef(EncodeRef(n)) == n
  {
    Widths();
    LittleEndianRoundTrip(n, 8);
    assert LittleEndian(n, 8)[..8] == LittleEndian(n, 8);
  }

  function Count(refs: map<Bytes, Value>, digest: Bytes): nat {
    if digest in refs then DecodeRef(refs[digest]) else 0
  }

  function Increment(refs: map<Bytes, Value>, digest: Bytes): seq<Op> {
    [Put(AttRefs, digest, EncodeRef(Count(refs, digest) + 1))]
  }

  /** A count that would reach zero is taken out. */
  function Decrement(refs: map<Bytes, Value>, digest: Bytes): seq<Op> {
    if Count(refs, digest) <= 1 then [Delete(AttRefs, digest)]
    else [Put(AttRefs, digest, EncodeRef(Count(refs, digest) - 1))]
  }

  method IncAttRef(tx: WriteTransaction, digest: Bytes)
    modifies tx`opLog
    ensures tx.opLog == old(tx.opLog) + Increment(Entries(tx.snapshot, AttRefs), digest)
  {
    var data := tx.Get(AttRefs, digest);
    var count := if data.Some? then DecodeRef(data.value) else 0;
    tx.Append(Put(AttRefs, digest, EncodeRef(count + 1)));
  }

  method DecAttRef(tx: WriteTransaction, digest: Bytes) returns (left: nat)
    modifies tx`opLog
    ensures tx.opLog == old(tx.opLog) + Decrement(Entries(tx.snapshot, AttRefs), digest)
    ensures left == 0 <==> Count(Entries(tx.snapshot, AttRefs), digest) <= 1
  {
    var data := tx.Get(AttRefs, digest);
    var count := if data.Some? then DecodeRef(data.value) else 0;
    if count <= 1 {
      left := 0;
      tx.Append(Delete(AttRefs, digest));
    } else {
      left := count - 1;
      tx.Append(Put(AttRefs, digest, EncodeRef(left)));
    }
  }

  /******* The two operations *******/

  /** What a call logs, what it returns, and the blob it removes after a commit. */
  datatype AttPlan = AttPlan(ops: seq<Op>, result: Result, remove: Option<Bytes>)

  function WithRev(doc: Document, rev: Bytes): Document {
    if rev != [] then doc.(rev := rev) else doc
  }

  /** The document the attachment goes to, as it is written back. */
  function Attached(doc: Document, name: Bytes, digest: Bytes, rev: Bytes): Document {
    WithRev(doc.(attachments := doc.attachments[name := digest]), rev)
  }

  function Detached(doc: Document, name: Bytes, rev: Bytes): Document {
    WithRev(doc.(attachments := doc.attachments - {name}), rev)
  }

  /** The replaced blob, if another is put in its place. */
  function ReplacedDigest(doc: Document, name: Bytes, digest: Bytes): Option<Bytes> {
    if name in doc.attachments && doc.attachments[name] != digest then Some(doc.attachments[name]) else None
  }

  function Released(refs: map<Bytes, Value>, digest: Option<Bytes>): Option<Bytes> {
    if digest.Some? && Count(refs, digest.value) <= 1 then digest else None
  }

  function AttachRefs(refs: map<Bytes, Value>, doc: Document, name: Bytes, digest: Bytes): seq<Op> {
    var replaced := ReplacedDigest(doc, name, digest);
    Increment(refs, digest) + (if replaced.Some? then Decrement(refs, replaced.value) else [])
  }

  /** The count operations and the document's, or nothing if it is not written. */
  function Written(env: Env, s: Store, refOps: seq<Op>, doc: Document, remove: Option<Bytes>): AttPlan {
    var put := PutPlan(env, s, doc);
    if put.result.Done? then AttPlan(refOps + put.ops, put.result, remove) else AttPlan([], put.result, None)
  }

  function PutAttachmentPlan(env: Env, s: Store, id: Bytes, name: Bytes, digest: Bytes, rev: Bytes): AttPlan {
    var refs := Entries(s, AttRefs);
    match GetDocument(s, id)
    case Missing => AttPlan([], NotFound, None)
    case Unreadable => AttPlan([], ReadError, None)
    case Found(doc) =>
      Written(env, s, AttachRefs(refs, doc, name, digest), Attached(doc, name, digest, rev),
              Released(refs, ReplacedDigest(doc, name, digest)))
  }

  function DeleteAttachmentPlan(env: Env, s: Store, id: Bytes, name: Bytes, rev: Bytes): AttPlan {
    var refs := Entries(s, AttRefs);
    match GetDocument(s, id)
    case Missing => AttPlan([], NotFound, None)
    case Unreadable => AttPlan([], ReadError, None)
    case Found(doc) =>
      if name !in doc.attachments then AttPlan([], NotFound, None)
      else Written(env, s, Decrement(refs, doc.attachments[name]), Detached(doc, name, rev),
                   Released(refs, Some(doc.attachments[name])))
  }

  /** Nothing is removed, nor changed, if the commit fails. */
  predicate Ends(db: Database, p: AttPlan, s: Store, result: Result, remove: Option<Bytes>)
    reads db
  {
    && db.store == Landed(p.ops, s)
    && if Lands(p.ops, s) then result == p.result && remove == p.remove else result == CommitError && remove.None?
  }

  /** One transaction, given up whole if the document is not written. */
  method PutAttachment(db: Database, id: Bytes, name: Bytes, digest: Bytes, rev: Bytes)
    returns (result: Result, remove: Option<Bytes>)
    modifies db`store
    ensures Ends(db, PutAttachmentPlan(db.env, old(db.store), id, name, digest, rev), old(db.store), result, remove)
  {
    var t := db.Begin();
    var read := t.GetDocument(id);
    if read.Missing? { return NotFound, None; }
    if read.Unreadable? { return ReadError, None; }
    remove := CountAttach(t.tx, read.doc, name, digest);
    assert t.tx.opLog == AttachRefs(Entries(t.tx.snapshot, AttRefs), read.doc, name, digest);
    result, remove := WriteBack(db, t, Attached(read.doc, name, digest, rev), remove);
  }

  /** Writes the document after the counts, and commits only if that works. */
  method WriteBack(db: Database, t: Transaction, doc: Document, release: Option<Bytes>)
    returns (result: Result, remove: Option<Bytes>)
    requires t.env == db.env && t.tx.snapshot == db.store && t.tx.seqNo == 0
    modifies db`store, t.tx
    ensures Ends(db, Written(db.env, old(db.store), old(t.tx.opLog), doc, release), old(db.store), result, remove)
  {
    result := t.PutDocument(doc);
    if !result.Done? { return result, None; }
    remove := release;
    var ok := db.Finish(t);
    if !ok { result, remove := CommitError, None; }
  }

  method CountAttach(tx: WriteTransaction, doc: Document, name: Bytes, digest: Bytes) returns (remove: Option<Bytes>)
    modifies tx`opLog
    ensures tx.opLog == old(tx.opLog) + AttachRefs(Entries(tx.snapshot, AttRefs), doc, name, digest)
    ensures remove == Released(Entries(tx.snapshot, AttRefs), ReplacedDigest(doc, name, digest))
  {
    ghost var refs := Entries(tx.snapshot, AttRefs);
    IncAttRef(tx, digest);
    remove := None;
    var replaced := ReplacedDigest(doc, name, digest);
    if replaced.Some? {
      var left := DecAttRef(tx, replaced.value);
      if left == 0 { remove := replaced; }
      Assoc(old(tx.opLog), Increment(refs, digest), Decrement(refs, replaced.value));
    } else {
      assert Increment(refs, digest) + [] == Increment(refs, digest);
    }
  }

  method DeleteAttachment(db: Database, id: Bytes, name: Bytes, rev: Bytes)
    returns (result: Result, remove: Option<Bytes>)
    modifies db`store
    ensures Ends(db, DeleteAttachmentPlan(db.env, old(db.store), id, name, rev), old(db.store), result, remove)
  {
    var t := db.Begin();
    var read := t.GetDocument(id);
    if read.Missing? { return NotFound, None; }
    if read.Unreadable? { return ReadError, None; }
    if name !in read.doc.attachments { return NotFound, None; }
    result, remove := DetachFrom(db, t, read.doc, name, rev);
  }

  method DetachFrom(db: Database, t: Transaction, doc: Document, name: Bytes, rev: Bytes)
    returns (result: Result, remove: Option<Bytes>)
    requires t.env == db.env && t.tx.snapshot == db.store && t.tx.seqNo == 0 && t.tx.opLog == [] && name in doc.attachments
    modifies db`store, t.tx
    ensures var refs := Entries(old(db.store), AttRefs);
            Ends(db, Written(db.env, old(db.store), Decrement(refs, doc.attachments[name]), Detached(doc, name, rev),
                             Released(refs, Some(doc.attachments[name]))), old(db.store), result, remove)
  {
    var left := DecAttRef(t.tx, doc.attachments[name]);
    remove := if left == 0 then Some(doc.attachments[name]) else None;
    assert t.tx.opLog == Decrement(Entries(t.tx.snapshot, AttRefs), doc.attachments[name]);
    result, remove := WriteBack(db, t, Detached(doc, name, rev), remove);
  }

  /******* References held by documents *******/

  /** The documents' attachments with this digest. */
  ghost function Refs(docs: map<Bytes, Value>, digest: Bytes): set<(Bytes, Bytes)> {
    set id, name | id in docs && docs[id].Doc? && name in docs[id].doc.attachments
                   && docs[id].doc.attachments[name] == digest :: (id, name)
  }

  /** No digest is counted lower than it is used. */
  ghost predicate Counted(s: Store) {
    forall digest {:trigger Refs(DocsIn(s), digest)} ::
      |Refs(DocsIn(s), digest)| <= Count(Entries(s, AttRefs), digest)
  }

  lemma RefsMember(docs: map<Bytes, Value>, digest: Bytes, p: (Bytes, Bytes))
    ensures p in Refs(docs, digest) <==>
            p.0 in docs && docs[p.0].Doc? && p.1 in docs[p.0].doc.attachments && docs[p.0].doc.attachments[p.1] == digest
  {
  }

  lemma FewerRefs(a: set<(Bytes, Bytes)>, b: set<(Bytes, Bytes)>)
    requires a <= b
    ensures |a| <= |b|
  {
    assert b == a + (b - a);
  }

  /** Dropping attachments of a document drops references. */
  lemma RefsShrink(docs: map<Bytes, Value>, id: Bytes, was: Document, d: Document, digest: Bytes)
    requires id in docs && docs[id] == Doc(was) && d.attachments.Items <= was.attachments.Items
    ensures |Refs(docs[id := Doc(d)], digest)| <= |Refs(docs, digest)|
  {
    forall p | p in Refs(docs[id := Doc(d)], digest) ensures p in Refs(docs, digest) {
      RefsMember(docs[id := Doc(d)], digest, p);
      RefsMember(docs, digest, p);
      if p.0 == id { assert (p.1, digest) in d.attachments.Items; }
    }
    FewerRefs(Refs(docs[id := Doc(d)], digest), Refs(docs, digest));
  }

  /** Attaching adds one reference to the digest and takes one from the other. */
  lemma RefsAttach(docs: map<Bytes, Value>, id: Bytes, was: Document, d: Document, name: Bytes, new': Bytes, digest: Bytes)
    requires id in docs && docs[id] == Doc(was) && d.attachments == was.attachments[name := new']
    ensures var after, before := Refs(docs[id := Doc(d)], digest), Refs(docs, digest);
            if digest == new' then
              |after| == |before| + (if name in was.attachments && was.attachments[name] == digest then 0 else 1)
            else if name in was.attachments && was.attachments[name] == digest then |after| + 1 == |before|
            else after == before
  {
    var docs' := docs[id := Doc(d)];
    var after, before := Refs(docs', digest), Refs(docs, digest);
    forall p ensures p in after <==> if p == (id, name) then digest == new' else p in before {
      AttachMember(docs, id, was, d, name, new', digest, p);
    }
    RefsMember(docs, digest, (id, name));
    OneChanged(before, after, (id, name), digest == new');
  }

  lemma AttachMember(docs: map<Bytes, Value>, id: Bytes, was: Document, d: Document, name: Bytes, new': Bytes, digest: Bytes,
                     p: (Bytes, Bytes))
    requires id in docs && docs[id] == Doc(was) && d.attachments == was.attachments[name := new']
    ensures p in Refs(docs[id := Doc(d)], digest) <==> if p == (id, name) then digest == new' else p in Refs(docs, digest)
  {
    RefsMember(docs[id := Doc(d)], digest, p);
    RefsMember(docs, digest, p);
  }

  lemma OneChanged(before: set<(Bytes, Bytes)>, after: set<(Bytes, Bytes)>, q: (Bytes, Bytes), there: bool)
    requires forall p :: p in after <==> if p == q then there else p in before
    ensures if there then |after| == |before| + (if q in before then 0 else 1)
            else if q in before then |after| + 1 == |before| else after == before
  {
    if there {
      assert after == before + {q};
    } else {
      assert after == before - {q};
    }
  }

  lemma RefsDetach(docs: map<Bytes, Value>, id: Bytes, was: Document, d: Document, name: Bytes, digest: Bytes)
    requires id in docs && docs[id] == Doc(was) && name in was.attachments && d.attachments == was.attachments - {name}
    ensures var after, before := Refs(docs[id := Doc(d)], digest), Refs(docs, digest);
            if was.attachments[name] == digest then |after| + 1 == |before| else after == before
  {
    var docs' := docs[id := Doc(d)];
    var after, before := Refs(docs', digest), Refs(docs, digest);
    forall p ensures p in after <==> if p == (id, name) then false else p in before {
      DetachMember(docs, id, was, d, name, digest, p);
    }
    RefsMember(docs, digest, (id, name));
    OneChanged(before, after, (id, name), false);
  }

  lemma DetachMember(docs: map<Bytes, Value>, id: Bytes, was: Document, d: Document, name: Bytes, digest: Bytes,
                     p: (Bytes, Bytes))
    requires id in docs && docs[id] == Doc(was) && name in was.attachments && d.attachments == was.attachments - {name}
    ensures p in Refs(docs[id := Doc(d)], digest) <==> p in Refs(docs, digest) && p != (id, name)
  {
    RefsMember(docs[id := Doc(d)], digest, p);
    RefsMember(docs, digest, p);
  }

  /******* The counts and the document commit together *******/

  ghost predicate RefOps(ops: seq<Op>) {
    forall op :: op in ops ==> op.bucket == AttRefs && ((op.Put? && op.key != []) || op.Delete?)
  }

  lemma {:induction false} RefOpsElsewhere(ops: seq<Op>, b: BucketName, e: map<Bytes, Value>)
    requires RefOps(ops) && b != AttRefs
    ensures DocOps(ops) && Apply(ops, b, e) == e
    decreases ops
  {
    if ops != [] {
      assert ops[0] in ops;
      RefOpsElsewhere(ops[1..], b, e);
    }
  }

  /** The commit stores the document, keeps the store sound and applies the counts. */
  ghost predicate WrittenWith(env: Env, s: Store, t: Store, refOps: seq<Op>, doc: Document) {
    && Inv(env, t)
    && (exists d: Document :: d.id == doc.id && d.attachments == doc.attachments && DocsIn(t) == DocsIn(s)[doc.id := Doc(d)]
                              && PutPlan(env, s, doc).result == Done(d.rev))
    && Entries(t, AttRefs) == Apply(refOps, AttRefs, Entries(s, AttRefs))
  }

  lemma RefsThenPut(refOps: seq<Op>, ops: seq<Op>, docs: map<Bytes, Value>, leaves: map<Bytes, Value>, refs: map<Bytes, Value>)
    requires RefOps(refOps) && DocOps(ops) && Apply(ops, AttRefs, Apply(refOps, AttRefs, refs)) == Apply(refOps, AttRefs, refs)
    ensures DocOps(refOps)
    ensures Apply(refOps + ops, Docs, docs) == Apply(ops, Docs, docs)
    ensures Apply(refOps + ops, Leaves, leaves) == Apply(ops, Leaves, leaves)
    ensures Apply(refOps + ops, AttRefs, refs) == Apply(refOps, AttRefs, refs)
  {
    RefOpsElsewhere(refOps, Docs, docs);
    RefOpsElsewhere(refOps, Leaves, leaves);
    ApplyAppend(refOps, ops, Docs, docs);
    ApplyAppend(refOps, ops, Leaves, leaves);
    ApplyAppend(refOps, ops, AttRefs, refs);
  }

  lemma LocalWritten(env: Env, s: Store, refOps: seq<Op>, doc: Document, t: Store)
    requires Inv(env, s) && RefOps(refOps) && ValidId(doc.id) && IsLocal(doc.id) && PutPlan(env, s, doc).result.Done?
    requires t == Committed(refOps + PutPlan(env, s, doc).ops, s)
    ensures WrittenWith(env, s, t, refOps, doc)
  {
    var d := doc.(rev := PutPlan(env, s, doc).result.rev);
    var ops := [Put(Docs, doc.id, Doc(d))];
    var docs, leaves, refs := s[Docs].entries, s[Leaves].entries, s[AttRefs].entries;
    assert PutPlan(env, s, doc).ops == ops;
    ApplyPut(doc.id, Doc(d), Docs, Docs, docs);
    ApplyPut(doc.id, Doc(d), Docs, Leaves, leaves);
    ApplyPut(doc.id, Doc(d), Docs, AttRefs, Apply(refOps, AttRefs, refs));
    RefsThenPut(refOps, ops, docs, leaves, refs);
    LocalStep(docs, leaves, d);
    DocOpsKeep(env, s, refOps + ops, docs[doc.id := Doc(d)], leaves);
  }

  lemma EditWritten(env: Env, s: Store, refOps: seq<Op>, doc: Document, t: Store)
    requires Inv(env, s) && RefOps(refOps) && ValidId(doc.id) && !IsLocal(doc.id) && Admitted(env, doc)
    requires PutPlan(env, s, doc).result.Done? && t == Committed(refOps + PutPlan(env, s, doc).ops, s) && CountersFit(t)
    ensures WrittenWith(env, s, t, refOps, doc)
  {
    var docs, leaves, stored := s[Docs].entries, s[Leaves].entries, StoredAt(s, doc.id);
    EditIsReady(env, s, doc, docs, leaves, stored);
    var d := Stamped(env, stored, doc);
    EditLogged(env, s, refOps, stored, d);
    StoreCounted(env, s, docs, leaves, refOps, stored, d, t);
  }

  lemma EditLogged(env: Env, s: Store, refOps: seq<Op>, stored: Option<Document>, d: Document)
    ensures refOps + (RemovalOf(env, s, stored) + PutDocOps(stored, d) + AllStored(env.indices, s, d))
         == ReplaceLog(env, s, refOps, stored, PutDocOps(stored, d), d)
  {
    Assoc(RemovalOf(env, s, stored), PutDocOps(stored, d), AllStored(env.indices, s, d));
  }

  lemma CountedApply(refOps: seq<Op>, stored: Option<Document>, d: Document, docs: map<Bytes, Value>,
                     leaves: map<Bytes, Value>, refs: map<Bytes, Value>)
    requires RefOps(refOps) && d.id != [] && (stored.Some? ==> stored.value.rev != d.rev)
    ensures DocOps(refOps) && DocOps(PutDocOps(stored, d))
    ensures Apply(refOps + PutDocOps(stored, d), Docs, docs) == docs[d.id := Doc(d)]
    ensures Apply(refOps + PutDocOps(stored, d), Leaves, leaves) == Releaved(leaves, d, RevOf(stored))
    ensures Apply(refOps + PutDocOps(stored, d), AttRefs, refs) == Apply(refOps, AttRefs, refs)
  {
    PutDocOpsApply(stored, d, Docs, docs);
    PutDocOpsApply(stored, d, Leaves, leaves);
    PutDocOpsApply(stored, d, AttRefs, Apply(refOps, AttRefs, refs));
    RefsThenPut(refOps, PutDocOps(stored, d), docs, leaves, refs);
  }

  lemma CountedPuts(s: Store, refOps: seq<Op>, stored: Option<Document>, d: Document, docs: map<Bytes, Value>,
                    leaves: map<Bytes, Value>)
    requires EntriesOf(s, docs, leaves) && RefOps(refOps) && d.id != [] && (stored.Some? ==> stored.value.rev != d.rev)
    ensures Puts(s, refOps, PutDocOps(stored, d), d, Releaved(leaves, d, RevOf(stored)))
    ensures Apply(refOps + PutDocOps(stored, d), AttRefs, Entries(s, AttRefs)) == Apply(refOps, AttRefs, Entries(s, AttRefs))
  {
    CountedApply(refOps, stored, d, docs, leaves, Entries(s, AttRefs));
  }

  lemma StoreCounted(env: Env, s: Store, docs: map<Bytes, Value>, leaves: map<Bytes, Value>, refOps: seq<Op>,
                     stored: Option<Document>, d: Document, t: Store)
    requires Inv(env, s) && EntriesOf(s, docs, leaves) && RefOps(refOps) && ValidId(d.id) && !IsLocal(d.id)
    requires EditReady(env, docs, leaves, stored, d)
    requires t == Committed(ReplaceLog(env, s, refOps, stored, PutDocOps(stored, d), d), s) && CountersFit(t)
    ensures Inv(env, t) && DocsIn(t) == docs[d.id := Doc(d)]
    ensures Entries(t, AttRefs) == Apply(refOps, AttRefs, Entries(s, AttRefs))
  {
    CountedPuts(s, refOps, stored, d, docs, leaves);
    EditTakes(env, s, docs, leaves, stored, d);
    ReplaceKeeps(env, s, refOps, stored, PutDocOps(stored, d), d, Releaved(leaves, d, RevOf(stored)), t);
  }

  /******* Counts *******/

  lemma IncrementCounts(refs: map<Bytes, Value>, digest: Bytes, h: Bytes)
    requires digest != [] && Count(refs, digest) + 1 < U64
    ensures RefOps(Increment(refs, digest))
    ensures Count(Apply(Increment(refs, digest), AttRefs, refs), h) == Count(refs, h) + (if h == digest then 1 else 0)
  {
    RefRoundTrip(Count(refs, digest) + 1);
    ApplyPut(digest, EncodeRef(Count(refs, digest) + 1), AttRefs, AttRefs, refs);
  }

  /** Taking one off leaves at least one less, and exactly none if it was the last. */
  lemma DecrementCounts(refs: map<Bytes, Value>, at: map<Bytes, Value>, digest: Bytes, h: Bytes)
    requires digest != [] && Count(refs, digest) < U64 && Count(at, digest) == Count(refs, digest)
    ensures RefOps(Decrement(refs, digest))
    ensures Count(Apply(Decrement(refs, digest), AttRefs, at), h)
         == if h != digest then Count(at, h) else if Count(refs, h) <= 1 then 0 else Count(refs, h) - 1
  {
    if Count(refs, digest) <= 1 {
      ApplyDelete(digest, AttRefs, AttRefs, at);
    } else {
      RefRoundTrip(Count(refs, digest) - 1);
      ApplyPut(digest, EncodeRef(Count(refs, digest) - 1), AttRefs, AttRefs, at);
    }
  }

  ghost predicate CountsFit(s: Store) {
    forall h {:trigger Count(Entries(s, AttRefs), h)} :: Count(Entries(s, AttRefs), h) + 1 < I64
  }

  lemma AttachCounts(refs: map<Bytes, Value>, doc: Document, name: Bytes, digest: Bytes, h: Bytes)
    requires digest != [] && Count(refs, digest) + 1 < U64
    requires var r := ReplacedDigest(doc, name, digest); r.Some? ==> r.value != [] && Count(refs, r.value) < U64
    ensures RefOps(AttachRefs(refs, doc, name, digest))
    ensures Count(Apply(AttachRefs(refs, doc, name, digest), AttRefs, refs), h)
            == if h == digest then Count(refs, h) + 1
               else if name in doc.attachments && doc.attachments[name] == h
               then (if Count(refs, h) <= 1 then 0 else Count(refs, h) - 1)
               else Count(refs, h)
  {
    var r := ReplacedDigest(doc, name, digest);
    IncrementCounts(refs, digest, h);
    if r.Some? {
      var at := Apply(Increment(refs, digest), AttRefs, refs);
      IncrementCounts(refs, digest, r.value);
      DecrementCounts(refs, at, r.value, h);
      ApplyAppend(Increment(refs, digest), Decrement(refs, r.value), AttRefs, refs);
    } else {
      assert AttachRefs(refs, doc, name, digest) == Increment(refs, digest);
    }
  }

  /******* Every run *******/

  /** Attachments put and taken away, and ordinary edits that bring none with them. */
  datatype AttWrite =
    | Attach(target: Bytes, name: Bytes, digest: Bytes, rev: Bytes)
    | Detach(target: Bytes, name: Bytes, rev: Bytes)
    | Rewrite(doc: Document)

  function PlanFor(env: Env, s: Store, w: AttWrite): AttPlan {
    match w
    case Attach(id, name, digest, rev) => PutAttachmentPlan(env, s, id, name, digest, rev)
    case Detach(id, name, rev) => DeleteAttachmentPlan(env, s, id, name, rev)
    case Rewrite(doc) => Written(env, s, [], doc, None)
  }

  function After(env: Env, s: Store, w: AttWrite): Store {
    Landed(PlanFor(env, s, w).ops, s)
  }

  function Removed(env: Env, s: Store, w: AttWrite): Option<Bytes> {
    if Lands(PlanFor(env, s, w).ops, s) then PlanFor(env, s, w).remove else None
  }

  /** The document as it is written back. */
  ghost function WrittenDoc(s: Store, w: AttWrite): Option<Document> {
    match w
    case Attach(id, name, digest, rev) =>
      if GetDocument(s, id).Found? then Some(Attached(GetDocument(s, id).doc, name, digest, rev)) else None
    case Detach(id, name, rev) =>
      if GetDocument(s, id).Found? then Some(Detached(GetDocument(s, id).doc, name, rev)) else None
    case Rewrite(doc) => Some(doc)
  }

  /** Attachments of the stored document, if there is one. */
  ghost function StoredAttachments(s: Store, id: Bytes): map<Bytes, Bytes> {
    if id in DocsIn(s) && DocsIn(s)[id].Doc? then DocsIn(s)[id].doc.attachments else map[]
  }

  ghost predicate Proper(env: Env, s: Store, w: AttWrite) {
    && CountsFit(s) && CountersFit(After(env, s, w))
    && (WrittenDoc(s, w).Some? ==> ValidId(WrittenDoc(s, w).value.id) && Admitted(env, WrittenDoc(s, w).value))
    && match w
       case Attach(id, _, digest, _) => ValidId(id) && digest != []
       case Detach(id, _, _) => ValidId(id)
       case Rewrite(doc) => doc.attachments.Items <= StoredAttachments(s, doc.id).Items
  }

  lemma WriteWritten(env: Env, s: Store, refOps: seq<Op>, doc: Document, t: Store)
    requires Inv(env, s) && RefOps(refOps) && ValidId(doc.id) && Admitted(env, doc) && PutPlan(env, s, doc).result.Done?
    requires t == Committed(refOps + PutPlan(env, s, doc).ops, s) && CountersFit(t)
    ensures WrittenWith(env, s, t, refOps, doc)
  {
    if IsLocal(doc.id) { LocalWritten(env, s, refOps, doc, t); } else { EditWritten(env, s, refOps, doc, t); }
  }

  /** Nothing is removed that a document still refers to. */
  ghost predicate Unused(s: Store, digest: Option<Bytes>) {
    digest.Some? ==> Refs(DocsIn(s), digest.value) == {}
  }

  /** The counts of a put follow the references. */
  lemma AttachCounted(docs: map<Bytes, Value>, refs: map<Bytes, Value>, id: Bytes, was: Document, doc: Document, d: Document,
                      name: Bytes, digest: Bytes, h: Bytes)
    requires id in docs && docs[id] == Doc(was) && doc.attachments == was.attachments
    requires d.attachments == was.attachments[name := digest]
    requires digest != [] && forall k :: Count(refs, k) + 1 < I64
    requires name in was.attachments ==> was.attachments[name] != []
    requires forall k {:trigger Refs(docs, k)} :: |Refs(docs, k)| <= Count(refs, k)
    ensures var after := Refs(docs[id := Doc(d)], h);
            && |after| <= Count(Apply(AttachRefs(refs, doc, name, digest), AttRefs, refs), h)
            && (Released(refs, ReplacedDigest(doc, name, digest)) == Some(h) ==> after == {})
  {
    RefsAttach(docs, id, was, d, name, digest, h);
    AttachCounts(refs, doc, name, digest, h);
    assert |Refs(docs, h)| <= Count(refs, h);
  }

  lemma DetachCounted(docs: map<Bytes, Value>, refs: map<Bytes, Value>, id: Bytes, was: Document, d: Document, name: Bytes,
                      h: Bytes)
    requires id in docs && docs[id] == Doc(was) && name in was.attachments && d.attachments == was.attachments - {name}
    requires forall k :: Count(refs, k) + 1 < I64
    requires was.attachments[name] != []
    requires forall k {:trigger Refs(docs, k)} :: |Refs(docs, k)| <= Count(refs, k)
    ensures var after, digest := Refs(docs[id := Doc(d)], h), was.attachments[name];
            && |after| <= Count(Apply(Decrement(refs, digest), AttRefs, refs), h)
            && (Released(refs, Some(digest)) == Some(h) ==> after == {})
  {
    RefsDetach(docs, id, was, d, name, h);
    DecrementCounts(refs, refs, was.attachments[name], h);
    assert |Refs(docs, h)| <= Count(refs, h);
  }

  lemma SubItems(a: map<Bytes, Bytes>, b: map<Bytes, Bytes>)
    requires a.Items <= b.Items
    ensures forall n :: n in a ==> n in b && b[n] == a[n]
  {
    forall n | n in a ensures n in b && b[n] == a[n] { assert (n, a[n]) in b.Items; }
  }

  lemma RefsRewrite(s: Store, d: Document, h: Bytes)
    requires DocsOk(DocsIn(s)) && d.attachments.Items <= StoredAttachments(s, d.id).Items
    ensures |Refs(DocsIn(s)[d.id := Doc(d)], h)| <= |Refs(DocsIn(s), h)|
  {
    var docs := DocsIn(s);
    if d.id in docs {
      RefsShrink(docs, d.id, docs[d.id].doc, d, h);
    } else {
      SubItems(d.attachments, StoredAttachments(s, d.id));
      forall p | p in Refs(docs[d.id := Doc(d)], h) ensures p in Refs(docs, h) {
        RefsMember(docs[d.id := Doc(d)], h, p);
        RefsMember(docs, h, p);
      }
      FewerRefs(Refs(docs[d.id := Doc(d)], h), Refs(docs, h));
    }
  }

  /** Every attachment has a digest. */
  ghost predicate Digested(docs: map<Bytes, Value>) {
    forall id {:trigger NoBlank(docs[id])} :: id in docs ==> NoBlank(docs[id])
  }

  ghost predicate NoBlank(v: Value) {
    v.Doc? ==> forall name :: name in v.doc.attachments ==> v.doc.attachments[name] != []
  }

  lemma DigestedPut(docs: map<Bytes, Value>, id: Bytes, d: Document)
    requires Digested(docs) && forall name :: name in d.attachments ==> d.attachments[name] != []
    ensures Digested(docs[id := Doc(d)])
  {
    var after := docs[id := Doc(d)];
    forall o | o in after ensures NoBlank(after[o]) {
      if o != id { assert NoBlank(docs[o]); }
    }
  }

  /** What every run keeps. */
  ghost predicate BlobInv(env: Env, s: Store) {
    Inv(env, s) && Counted(s) && Digested(DocsIn(s))
  }

  /** An empty database keeps it. */
  lemma EmptyBlobs(env: Env)
    requires EnvOk(env)
    ensures BlobInv(env, EmptyStore(env))
  {
    EmptyStoreInv(env);
    var s := EmptyStore(env);
    forall h ensures Refs(DocsIn(s), h) == {} {
      forall p ensures p !in Refs(DocsIn(s), h) { RefsMember(DocsIn(s), h, p); }
    }
  }

  ghost predicate BlobSafe(env: Env, t: Store, remove: Option<Bytes>) {
    BlobInv(env, t) && Unused(t, remove)
  }

  lemma AttachedAll(s: Store, t: Store, id: Bytes, was: Document, doc: Document, d: Document, name: Bytes, digest: Bytes)
    requires Counted(s) && digest != [] && (forall k :: Count(Entries(s, AttRefs), k) + 1 < I64)
    requires id in DocsIn(s) && DocsIn(s)[id] == Doc(was) && doc.attachments == was.attachments
    requires name in was.attachments ==> was.attachments[name] != []
    requires d.attachments == was.attachments[name := digest] && DocsIn(t) == DocsIn(s)[id := Doc(d)]
    requires var refs := Entries(s, AttRefs);
             Entries(t, AttRefs) == Apply(AttachRefs(refs, doc, name, digest), AttRefs, refs)
    ensures Counted(t) && Unused(t, Released(Entries(s, AttRefs), ReplacedDigest(doc, name, digest)))
  {
    var docs, refs := DocsIn(s), Entries(s, AttRefs);
    forall h
      ensures |Refs(DocsIn(t), h)| <= Count(Entries(t, AttRefs), h)
      ensures Released(refs, ReplacedDigest(doc, name, digest)) == Some(h) ==> Refs(DocsIn(t), h) == {}
    {
      AttachCounted(docs, refs, id, was, doc, d, name, digest, h);
    }
  }

  lemma AttachSafe(env: Env, s: Store, id: Bytes, name: Bytes, digest: Bytes, rev: Bytes)
    requires BlobInv(env, s) && Proper(env, s, Attach(id, name, digest, rev))
    requires KeysFit(PlanFor(env, s, Attach(id, name, digest, rev)).ops)
    ensures BlobSafe(env, After(env, s, Attach(id, name, digest, rev)),
                     PlanFor(env, s, Attach(id, name, digest, rev)).remove)
  {
    var w := Attach(id, name, digest, rev);
    var t, docs, refs := After(env, s, w), DocsIn(s), Entries(s, AttRefs);
    ReadStored(env, s, id);
    if PlanFor(env, s, w).result.Done? {
      var doc, was := GetDocument(s, id).doc, docs[id].doc;
      assert NoBlank(docs[id]);
      AttachCounts(refs, doc, name, digest, digest);
      WriteWritten(env, s, AttachRefs(refs, doc, name, digest), Attached(doc, name, digest, rev), t);
      AttachedSafe(env, s, t, id, was, doc, name, digest, rev);
    }
  }

  lemma AttachedSafe(env: Env, s: Store, t: Store, id: Bytes, was: Document, doc: Document, name: Bytes, digest: Bytes,
                     rev: Bytes)
    requires Counted(s) && Digested(DocsIn(s)) && CountsFit(s) && digest != []
    requires id in DocsIn(s) && DocsIn(s)[id] == Doc(was) && doc.id == id && doc.attachments == was.attachments
    requires NoBlank(Doc(was))
    requires WrittenWith(env, s, t, AttachRefs(Entries(s, AttRefs), doc, name, digest), Attached(doc, name, digest, rev))
    ensures Counted(t) && Digested(DocsIn(t))
    ensures Unused(t, Released(Entries(s, AttRefs), ReplacedDigest(doc, name, digest)))
  {
    var d: Document :| d.id == id && d.attachments == was.attachments[name := digest]
                       && DocsIn(t) == DocsIn(s)[id := Doc(d)];
    AttachedAll(s, t, id, was, doc, d, name, digest);
    DigestedPut(DocsIn(s), id, d);
  }

  lemma DetachSafe(env: Env, s: Store, id: Bytes, name: Bytes, rev: Bytes)
    requires BlobInv(env, s) && Proper(env, s, Detach(id, name, rev)) && KeysFit(PlanFor(env, s, Detach(id, name, rev)).ops)
    ensures BlobSafe(env, After(env, s, Detach(id, name, rev)), PlanFor(env, s, Detach(id, name, rev)).remove)
  {
    var w := Detach(id, name, rev);
    var t, docs, refs := After(env, s, w), DocsIn(s), Entries(s, AttRefs);
    ReadStored(env, s, id);
    if PlanFor(env, s, w).result.Done? {
      var doc, was := GetDocument(s, id).doc, docs[id].doc;
      var digest := was.attachments[name];
      assert NoBlank(docs[id]);
      DecrementCounts(refs, refs, digest, digest);
      WriteWritten(env, s, Decrement(refs, digest), Detached(doc, name, rev), t);
      var d: Document :| d.id == id && d.attachments == was.attachments - {name} && DocsIn(t) == docs[id := Doc(d)];
      forall h
        ensures |Refs(DocsIn(t), h)| <= Count(Entries(t, AttRefs), h)
        ensures PlanFor(env, s, w).remove == Some(h) ==> Refs(DocsIn(t), h) == {}
      {
        DetachCounted(docs, refs, id, was, d, name, h);
      }
      DigestedPut(docs, id, d);
    }
  }

  lemma RewriteSafe(env: Env, s: Store, doc: Document)
    requires BlobInv(env, s) && Proper(env, s, Rewrite(doc)) && KeysFit(PlanFor(env, s, Rewrite(doc)).ops)
    ensures BlobSafe(env, After(env, s, Rewrite(doc)), PlanFor(env, s, Rewrite(doc)).remove)
  {
    var w := Rewrite(doc);
    var t, docs := After(env, s, w), DocsIn(s);
    if PlanFor(env, s, w).result.Done? {
      WriteWritten(env, s, [], doc, t);
      var d: Document :| d.id == doc.id && d.attachments == doc.attachments && DocsIn(t) == docs[doc.id := Doc(d)];
      forall h ensures |Refs(DocsIn(t), h)| <= Count(Entries(t, AttRefs), h) {
        RefsRewrite(s, d, h);
        assert |Refs(docs, h)| <= Count(Entries(s, AttRefs), h);
      }
      SubItems(d.attachments, StoredAttachments(s, d.id));
      assert d.id in docs ==> NoBlank(docs[d.id]);
      DigestedPut(docs, d.id, d);
    }
  }

  /** One call, whether its commit fails or not. */
  lemma StepSafe(env: Env, s: Store, w: AttWrite)
    requires BlobInv(env, s) && Proper(env, s, w)
    ensures BlobSafe(env, After(env, s, w), Removed(env, s, w))
  {
    if KeysFit(PlanFor(env, s, w).ops) {
      match w {
        case Attach(id, name, digest, rev) => AttachSafe(env, s, id, name, digest, rev);
        case Detach(id, name, rev) => DetachSafe(env, s, id, name, rev);
        case Rewrite(doc) => RewriteSafe(env, s, doc);
      }
    }
  }

  function RunAtt(env: Env, s: Store, ws: seq<AttWrite>): Store
    decreases ws
  {
    if ws == [] then s else RunAtt(env, After(env, s, ws[0]), ws[1..])
  }

  ghost predicate AllProper(env: Env, s: Store, ws: seq<AttWrite>)
    decreases ws
  {
    ws != [] ==> Proper(env, s, ws[0]) && AllProper(env, After(env, s, ws[0]), ws[1..])
  }

  ghost predicate RemovesUnused(env: Env, s: Store, ws: seq<AttWrite>)
    decreases ws
  {
    ws != [] ==>
      Unused(After(env, s, ws[0]), Removed(env, s, ws[0])) && RemovesUnused(env, After(env, s, ws[0]), ws[1..])
  }

  /** Whatever is done to the attachments, successfully or not, no digest is ever
      counted below its use, and the blob a call removes is one that no document
      refers to after that call. */
  lemma {:induction false} BlobsSafe(env: Env, s: Store, ws: seq<AttWrite>)
    requires BlobInv(env, s) && AllProper(env, s, ws)
    ensures BlobInv(env, RunAtt(env, s, ws))
    ensures RemovesUnused(env, s, ws)
    decreases ws
  {
    if ws != [] {
      StepSafe(env, s, ws[0]);
      BlobsSafe(env, After(env, s, ws[0]), ws[1..]);
    }
  }

  /** From an empty database on. */
  lemma FreshBlobsSafe(env: Env, ws: seq<AttWrite>)
    requires EnvOk(env) && AllProper(env, EmptyStore(env), ws)
    ensures BlobInv(env, RunAtt(env, EmptyStore(env), ws)) && RemovesUnused(env, EmptyStore(env), ws)
  {
    EmptyBlobs(env);
    BlobsSafe(env, EmptyStore(env), ws);
  }
}
