/** What putting and deleting one attachment does to the document and to the counts, and
    which blob goes. */
module Blobs {
  import opened Attachments
  import opened ByteStrings
  import opened Documents
  import opened DocStore
  import opened Effects
  import opened Engine
  import opened Indexes
  import opened Revisions
  import opened Runs
  import opened StoreInvariant
  import opened Writers

  ghost function Uses(s: Store, h: Bytes): nat {
    Count(Entries(s, AttRefs), h)
  }

  /** One digest is counted once more, another once less if it is counted at all. */
  ghost predicate Recounted(s: Store, t: Store, more: Option<Bytes>, less: Option<Bytes>) {
    forall h :: Uses(t, h) == if more == Some(h) then Uses(s, h) + 1
                              else if less == Some(h) && Uses(s, h) > 0 then Uses(s, h) - 1
                              else Uses(s, h)
  }

  ghost predicate OthersStand(s: Store, t: Store, id: Bytes) {
    forall o :: o != id ==> WinnerAt(t, o) == WinnerAt(s, o)
  }

  /** The digest that stands under a name. */
  ghost function DigestAt(doc: Document, name: Bytes): Option<Bytes> {
    if name in doc.attachments then Some(doc.attachments[name]) else None
  }

  /** The document is missing, or a revision is given and is not the document's: nothing
      is logged. */
  ghost predicate Refused(s: Store, id: Bytes, rev: Bytes, p: AttPlan) {
    && (p.result == Conflict <==> WinnerAt(s, id).Some? && rev != [] && rev != WinnerAt(s, id).value.rev)
    && (!p.result.Done? ==> p.ops == [] && p.remove.None?)
  }

  /** The document has these attachments now, and the revision the call returns. */
  ghost predicate Rewritten(s: Store, t: Store, id: Bytes, attachments: map<Bytes, Bytes>, result: Result) {
    && WinnerAt(t, id).Some? && WinnerAt(t, id).value.attachments == attachments
    && result == Done(WinnerAt(t, id).value.rev) && OthersStand(s, t, id)
  }

  /** The written document's revision is the given one, or else the document's own. */
  lemma RefusedIf(env: Env, s: Store, id: Bytes, d: Document, doc: Document, rev: Bytes)
    requires Inv(env, s) && ValidId(id) && GetDocument(s, id) == Found(d)
    requires doc.id == id && doc.data == d.data && doc.rev == if rev != [] then rev else d.rev
    ensures WinnerAt(s, id).Some? && WinnerAt(s, id).value.rev == d.rev
    ensures var r, w := PutPlan(env, s, doc).result, WinnerAt(s, id).value;
            && (r == Conflict <==> rev != [] && rev != w.rev) && (r.Done? <==> rev == [] || rev == w.rev)
  {
    ReadStored(env, s, id);
    StoredLikeWinner(env, s, id);
    ReadRevision(s, id);
    PutRefused(env, s, doc);
    if !IsLocal(id) {
      AtId(env, s, id);
      assert WellFormed(d.rev);
      HasDash(d.rev);
    }
  }

  ghost predicate PutDone(s: Store, t: Store, id: Bytes, name: Bytes, digest: Bytes, w: Document, p: AttPlan) {
    && Rewritten(s, t, id, w.attachments[name := digest], p.result)
    && Recounted(s, t, Some(digest), DigestAt(w, name))
    && forall h :: p.remove == Some(h) <==> DigestAt(w, name) == Some(h) && h != digest && Uses(s, h) <= 1
  }

  /** A put finds no document, or is refused, or leaves the named attachment with the
      new digest, which is counted once more; the one it replaces, if it is another, is
      counted once less, and removed if that was its last use. */
  lemma PutAttachmentDoes(env: Env, s: Store, id: Bytes, name: Bytes, digest: Bytes, rev: Bytes)
    requires BlobInv(env, s) && Proper(env, s, Attach(id, name, digest, rev))
    requires KeysFit(PlanFor(env, s, Attach(id, name, digest, rev)).ops)
    ensures var w, p, t := WinnerAt(s, id), PutAttachmentPlan(env, s, id, name, digest, rev),
                           After(env, s, Attach(id, name, digest, rev));
            && Refused(s, id, rev, p) && (p.result == NotFound <==> w.None?)
            && (p.result.Done? <==> w.Some? && (rev == [] || rev == w.value.rev))
            && (p.result.Done? ==> PutDone(s, t, id, name, digest, w.value, p))
  {
    var t, refs := After(env, s, Attach(id, name, digest, rev)), Entries(s, AttRefs);
    ReadStored(env, s, id);
    if GetDocument(s, id).Found? {
      var doc := GetDocument(s, id).doc;
      RefusedIf(env, s, id, doc, Attached(doc, name, digest, rev), rev);
      if PutAttachmentPlan(env, s, id, name, digest, rev).result.Done? {
        PutLands(env, s, id, name, digest, rev, doc, t);
      }
    }
  }

  /** Storing the document changes its winner and no other. */
  lemma WinnerStored(s: Store, t: Store, id: Bytes, d: Document)
    requires DocsIn(t) == DocsIn(s)[id := Doc(d)]
    ensures WinnerAt(t, id) == Some(d) && OthersStand(s, t, id)
  {
  }

  lemma PutCounts(s: Store, t: Store, doc: Document, name: Bytes, digest: Bytes)
    requires CountsFit(s) && digest != [] && (name in doc.attachments ==> doc.attachments[name] != [])
    requires Entries(t, AttRefs) == Apply(AttachRefs(Entries(s, AttRefs), doc, name, digest), AttRefs, Entries(s, AttRefs))
    ensures RefOps(AttachRefs(Entries(s, AttRefs), doc, name, digest))
    ensures Recounted(s, t, Some(digest), DigestAt(doc, name))
  {
    var refs := Entries(s, AttRefs);
    assert Count(refs, digest) + 1 < I64;
    if name in doc.attachments { assert Count(refs, doc.attachments[name]) + 1 < I64; }
    AttachCounts(refs, doc, name, digest, digest);
    forall h ensures Uses(t, h) == if h == digest then Uses(s, h) + 1
                                   else if DigestAt(doc, name) == Some(h) && Uses(s, h) > 0 then Uses(s, h) - 1
                                   else Uses(s, h)
    {
      AttachCounts(refs, doc, name, digest, h);
    }
  }

  lemma AttachIsRefOps(refs: map<Bytes, Value>, doc: Document, name: Bytes, digest: Bytes)
    requires digest != [] && (name in doc.attachments ==> doc.attachments[name] != [])
    ensures RefOps(AttachRefs(refs, doc, name, digest))
  {
  }

  lemma PutLands(env: Env, s: Store, id: Bytes, name: Bytes, digest: Bytes, rev: Bytes, doc: Document, t: Store)
    requires BlobInv(env, s) && Proper(env, s, Attach(id, name, digest, rev)) && GetDocument(s, id) == Found(doc)
    requires t == After(env, s, Attach(id, name, digest, rev)) && KeysFit(PlanFor(env, s, Attach(id, name, digest, rev)).ops)
    requires WinnerAt(s, id).Some? && PutAttachmentPlan(env, s, id, name, digest, rev).result.Done?
    ensures PutDone(s, t, id, name, digest, WinnerAt(s, id).value, PutAttachmentPlan(env, s, id, name, digest, rev))
  {
    var w, refs := WinnerAt(s, id).value, Entries(s, AttRefs);
    ReadStored(env, s, id);
    assert NoBlank(DocsIn(s)[id]);
    AttachIsRefOps(refs, doc, name, digest);
    WriteWritten(env, s, AttachRefs(refs, doc, name, digest), Attached(doc, name, digest, rev), t);
    WrittenStored(env, s, t, AttachRefs(refs, doc, name, digest), Attached(doc, name, digest, rev));
    PutCounts(s, t, doc, name, digest);
  }

  lemma WrittenStored(env: Env, s: Store, t: Store, refOps: seq<Op>, doc: Document)
    requires WrittenWith(env, s, t, refOps, doc)
    ensures Rewritten(s, t, doc.id, doc.attachments, PutPlan(env, s, doc).result)
  {
    var d: Document :| d.id == doc.id && d.attachments == doc.attachments && DocsIn(t) == DocsIn(s)[doc.id := Doc(d)]
                       && PutPlan(env, s, doc).result == Done(d.rev);
    WinnerStored(s, t, doc.id, d);
  }

  /******* Taking one away *******/

  ghost predicate DeleteDone(s: Store, t: Store, id: Bytes, name: Bytes, w: Document, p: AttPlan) {
    && Rewritten(s, t, id, w.attachments - {name}, p.result)
    && Recounted(s, t, None, DigestAt(w, name))
    && forall h :: p.remove == Some(h) <==> DigestAt(w, name) == Some(h) && Uses(s, h) <= 1
  }

  /** A deletion finds no such attachment, or is refused, or leaves the document without
      it; its digest is counted once less, and removed if that was its last use. */
  lemma DeleteAttachmentDoes(env: Env, s: Store, id: Bytes, name: Bytes, rev: Bytes)
    requires BlobInv(env, s) && Proper(env, s, Detach(id, name, rev)) && KeysFit(PlanFor(env, s, Detach(id, name, rev)).ops)
    ensures var w, p, t := WinnerAt(s, id), DeleteAttachmentPlan(env, s, id, name, rev), After(env, s, Detach(id, name, rev));
            && (p.result == NotFound <==> w.None? || name !in w.value.attachments)
            && (!p.result.Done? ==> p.ops == [] && p.remove.None?)
            && (p.result == Conflict <==> w.Some? && name in w.value.attachments && rev != [] && rev != w.value.rev)
            && (p.result.Done? <==> w.Some? && name in w.value.attachments && (rev == [] || rev == w.value.rev))
            && (p.result.Done? ==> DeleteDone(s, t, id, name, w.value, p))
  {
    var t := After(env, s, Detach(id, name, rev));
    ReadStored(env, s, id);
    if GetDocument(s, id).Found? {
      var doc := GetDocument(s, id).doc;
      if name in doc.attachments {
        RefusedIf(env, s, id, doc, Detached(doc, name, rev), rev);
        if DeleteAttachmentPlan(env, s, id, name, rev).result.Done? { DeleteLands(env, s, id, name, rev, doc, t); }
      }
    }
  }

  lemma DeleteCounts(s: Store, t: Store, digest: Bytes)
    requires CountsFit(s) && digest != []
    requires Entries(t, AttRefs) == Apply(Decrement(Entries(s, AttRefs), digest), AttRefs, Entries(s, AttRefs))
    ensures Recounted(s, t, None, Some(digest))
  {
    var refs := Entries(s, AttRefs);
    assert Count(refs, digest) + 1 < I64;
    forall h ensures Uses(t, h) == if h == digest && Uses(s, h) > 0 then Uses(s, h) - 1 else Uses(s, h) {
      DecrementCounts(refs, refs, digest, h);
    }
  }

  lemma DeleteLands(env: Env, s: Store, id: Bytes, name: Bytes, rev: Bytes, doc: Document, t: Store)
    requires BlobInv(env, s) && Proper(env, s, Detach(id, name, rev)) && GetDocument(s, id) == Found(doc)
    requires t == After(env, s, Detach(id, name, rev)) && KeysFit(PlanFor(env, s, Detach(id, name, rev)).ops)
    requires WinnerAt(s, id).Some? && DeleteAttachmentPlan(env, s, id, name, rev).result.Done?
    ensures DeleteDone(s, t, id, name, WinnerAt(s, id).value, DeleteAttachmentPlan(env, s, id, name, rev))
  {
    var refs := Entries(s, AttRefs);
    ReadStored(env, s, id);
    assert NoBlank(DocsIn(s)[id]);
    var digest := doc.attachments[name];
    WriteWritten(env, s, Decrement(refs, digest), Detached(doc, name, rev), t);
    WrittenStored(env, s, t, Decrement(refs, digest), Detached(doc, name, rev));
    DeleteCounts(s, t, digest);
  }

  /******* When the counts are exact *******/

  /** Attaching the same content under the same name again counts it once more although
      no reference is new; otherwise exact counts stay exact. */
  lemma ReattachedMiscounts(env: Env, s: Store, id: Bytes, name: Bytes, digest: Bytes, rev: Bytes, h: Bytes)
    requires BlobInv(env, s) && Proper(env, s, Attach(id, name, digest, rev))
    requires KeysFit(PlanFor(env, s, Attach(id, name, digest, rev)).ops)
    requires PutAttachmentPlan(env, s, id, name, digest, rev).result.Done? && Uses(s, h) == |Refs(DocsIn(s), h)|
    ensures WinnerAt(s, id).Some?
    ensures var t := After(env, s, Attach(id, name, digest, rev));
            Uses(t, h) == |Refs(DocsIn(t), h)| <==> !(h == digest && DigestAt(WinnerAt(s, id).value, name) == Some(digest))
  {
    var t := After(env, s, Attach(id, name, digest, rev));
    PutAttachmentDoes(env, s, id, name, digest, rev);
    ReadStored(env, s, id);
    var w := WinnerAt(s, id).value;
    PutStoredWhole(env, s, id, name, digest, rev, t);
    var d := WinnerAt(t, id).value;
    RefsAttach(DocsIn(s), id, w, d, name, digest, h);
    RefsMember(DocsIn(s), h, (id, name));
  }

  lemma PutStoredWhole(env: Env, s: Store, id: Bytes, name: Bytes, digest: Bytes, rev: Bytes, t: Store)
    requires BlobInv(env, s) && Proper(env, s, Attach(id, name, digest, rev))
    requires t == After(env, s, Attach(id, name, digest, rev)) && KeysFit(PlanFor(env, s, Attach(id, name, digest, rev)).ops)
    requires PutAttachmentPlan(env, s, id, name, digest, rev).result.Done?
    ensures WinnerAt(t, id).Some? && DocsIn(t) == DocsIn(s)[id := Doc(WinnerAt(t, id).value)]
  {
    var doc, refs := GetDocument(s, id).doc, Entries(s, AttRefs);
    ReadStored(env, s, id);
    assert NoBlank(DocsIn(s)[id]);
    AttachIsRefOps(refs, doc, name, digest);
    WriteWritten(env, s, AttachRefs(refs, doc, name, digest), Attached(doc, name, digest, rev), t);
    var d: Document :| d.id == id && DocsIn(t) == DocsIn(s)[id := Doc(d)];
    WinnerStored(s, t, id, d);
  }
}
