/** The transaction's methods, as the storage layer runs them: cursor scans, loops
    over branches, leaves and indices, and operations appended to the log one by
    one. Each is shown to log exactly its plan. */
module Transactions {
  import opened ByteStrings
  import opened Documents
  import opened DocStore
  import opened Engine
  import opened Indexes
  import opened Revisions
  import opened SortedKeys

  class Transaction {
    const tx: WriteTransaction
    const env: Env

    constructor (tx: WriteTransaction, env: Env)
      ensures this.tx == tx && this.env == env
    {
      this.tx := tx;
      this.env := env;
    }

    /** Prefix scan of the leaf bucket. */
    method LeafRevisions(id: Bytes) returns (revs: seq<Bytes>)
      ensures revs == LeafRevs(tx.snapshot, id)
    {
      var leaves := Entries(tx.snapshot, Leaves);
      var keys := Sorted(leaves.Keys);
      ghost var c;
      revs, c := ScanUnder(keys, id + [0]);
      ScanIsKeysUnder(id + [0], leaves, keys, c);
    }

    method GetDocument(id: Bytes) returns (read: Read)
      ensures read == DocStore.GetDocument(tx.snapshot, id)
    {
      var raw := tx.Get(Docs, id);
      if raw.None? { return Missing; }
      if !raw.value.Doc? { return Unreadable; }
      var doc := FillMeta(raw.value.doc);
      if !IsLocal(doc.id) {
        var key := tx.Get(ChangesInv, doc.id);
        if key.None? || !key.value.Bin? { return Unreadable; }
        doc := doc.(localSeq := FromBigEndian(key.value.bytes));
      }
      doc := AddConflicts(doc);
      read := Found(doc);
    }

    method FillMeta(stored: Document) returns (doc: Document)
      ensures doc == WithMeta(stored)
    {
      doc := stored.(data := stored.data[ID_FIELD := Str(stored.id)]);
      doc := doc.(data := doc.data[REV_FIELD := Str(doc.rev)]);
      if doc.deleted {
        doc := doc.(data := doc.data[DELETED_FIELD := Bool(true)]);
      }
      if doc.attachments != map[] {
        doc := doc.(data := doc.data[ATTACHMENTS_FIELD := AttachmentsJson(doc.attachments)]);
      }
    }

    method AddConflicts(read: Document) returns (doc: Document)
      ensures doc == WithBranches(tx.snapshot, read)
    {
      doc := read;
      var revs := LeafRevisions(doc.id);
      if doc.rev in revs && |revs| > 1 {
        var history, conflicts := MergeBranches(doc, revs);
        doc := doc.(history := history, data := doc.data[CONFLICTS_FIELD := Arr(AsJson(conflicts))]);
      }
    }

    /** Collects the other leaves and adds what is new in their histories. */
    method MergeBranches(doc: Document, revs: seq<Bytes>) returns (history: seq<Bytes>, conflicts: seq<Bytes>)
      ensures history == AddBranches(tx.snapshot, doc.id, doc.rev, doc.history, revs)
      ensures conflicts == OthersThan(doc.rev, revs)
    {
      history, conflicts := doc.history, [];
      var i := 0;
      while i < |revs|
        invariant 0 <= i <= |revs|
        invariant AddBranches(tx.snapshot, doc.id, doc.rev, doc.history, revs)
               == AddBranches(tx.snapshot, doc.id, doc.rev, history, revs[i..])
        invariant conflicts == OthersThan(doc.rev, revs[..i])
      {
        assert revs[i..][1..] == revs[i + 1..] && revs[..i + 1][..i] == revs[..i];
        if revs[i] != doc.rev {
          conflicts := conflicts + [revs[i]];
          var leaf := GetLeaf(tx.snapshot, doc.id, revs[i]);
          if leaf.Some? { history := AppendUnknown(history, leaf.value.history); }
        }
        i := i + 1;
      }
      assert revs[..|revs|] == revs;
    }

    method AppendUnknown(history: seq<Bytes>, revs: seq<Bytes>) returns (h: seq<Bytes>)
      ensures h == AppendNew(history, revs)
    {
      h := history;
      var known := set r | r in history;
      for j := 0 to |revs|
        invariant forall r :: r in known <==> r in h
        invariant AppendNew(history, revs) == AppendNew(h, revs[j..])
      {
        assert revs[j..][1..] == revs[j + 1..];
        if revs[j] !in known {
          known := known + {revs[j]};
          h := h + [revs[j]];
        }
      }
    }

    /** Every index forgets the stored document. */
    method ForgetStored(stored: Document)
      modifies tx`opLog
      ensures tx.opLog == old(tx.opLog) + AllDeleted(env.indices, tx.snapshot, stored)
    {
      ghost var start := tx.opLog;
      for j := 0 to |env.indices|
        invariant tx.opLog == start + AllDeleted(env.indices[..j], tx.snapshot, stored)
      {
        DeletedNext(env.indices, tx.snapshot, stored, j);
        Assoc(start, AllDeleted(env.indices[..j], tx.snapshot, stored),
              DocumentDeleted(env.indices[j], tx.snapshot, stored));
        Delete1(tx, env.indices[j], stored);
      }
      assert env.indices[..|env.indices|] == env.indices;
    }

    /** Every index takes in the new document. */
    method IndexStored(doc: Document)
      modifies tx`opLog
      ensures tx.opLog == old(tx.opLog) + AllStored(env.indices, tx.snapshot, doc)
    {
      ghost var start := tx.opLog;
      for j := 0 to |env.indices|
        invariant tx.opLog == start + AllStored(env.indices[..j], tx.snapshot, doc)
      {
        StoredNext(env.indices, tx.snapshot, doc, j);
        Assoc(start, AllStored(env.indices[..j], tx.snapshot, doc), DocumentStored(env.indices[j], tx.snapshot, doc));
        Store1(tx, env.indices[j], doc);
      }
      assert env.indices[..|env.indices|] == env.indices;
    }

    method PutDocument(given: Document) returns (result: Result)
      modifies tx`opLog
      ensures result == PutPlan(env, tx.snapshot, given).result
      ensures tx.opLog == old(tx.opLog) + PutPlan(env, tx.snapshot, given).ops
    {
      var doc := given;
      var read := GetDocument(doc.id);
      if read.Found? && !ValidUpdateRevision(read.doc, doc) { return Conflict; }
      if IsLocal(doc.id) {
        var next := [48, DASH, 49];
        if read.Found? { next := NextLocalRevision(read.doc); }
        doc := doc.(rev := next);
        tx.Append(Put(Docs, doc.id, Doc(doc)));
        return Done(next);
      }
      if Revision(doc).Some? && DASH !in Revision(doc).value { return Crash; }
      var rev := Format(NextGeneration(Revision(doc)), env.hash(doc));
      var oldHistory := [];
      if read.Found? {
        if read.doc.history != [] {
          oldHistory := read.doc.history;
        } else if read.doc.rev != [] {
          oldHistory := [read.doc.rev];
        }
      }
      doc := doc.(rev := rev, history := [rev] + oldHistory);
      if |doc.history| > HISTORY_CAP { doc := doc.(history := doc.history[..HISTORY_CAP]); }
      StoreEdited(if read.Found? then Some(read.doc) else None, doc);
      result := Done(rev);
    }

    method PutDocumentForReplication(given: Document) returns (result: Result)
      modifies tx`opLog
      ensures result == ReplicationPlan(env, tx.snapshot, given).result
      ensures !result.Crash? ==> tx.opLog == old(tx.opLog) + ReplicationPlan(env, tx.snapshot, given).ops
    {
      var read := GetDocument(given.id);
      if read.Found? && RevString(read.doc) == RevString(given) { return Unchanged; }
      var history := BuildHistory(given);
      ReplicationUnfolds(env, tx.snapshot, given, if read.Found? then Some(read.doc) else None, given.(history := history));
      var done := RecordDelivery(if read.Found? then Some(read.doc) else None, given.(history := history));
      result := if done then Done(given.rev) else Crash;
    }

    /** Makes the delivery a leaf in place of its ancestors and settles the winner. */
    method RecordDelivery(stored: Option<Document>, doc: Document) returns (done: bool)
      modifies tx`opLog
      ensures done <==> doc.history != [] && RemainingLeaves(tx.snapshot, stored, doc) != {}
      ensures done ==> tx.opLog == old(tx.opLog) + DeliveryLog(env, tx.snapshot, stored, doc)
    {
      ghost var start := tx.opLog;
      var leaves := AdoptStored(stored, doc.id);
      tx.Append(PutLeaf(doc));
      if doc.history == [] { return false; }
      leaves := PruneAncestors(doc, leaves + {doc.rev});
      if leaves == {} { return false; }
      ghost var adopt, delivery := AdoptOps(tx.snapshot, stored, doc.id), DeliveryOps(tx.snapshot, stored, doc);
      LogSoFar(start, adopt, [PutLeaf(doc)], DeleteLeaves(doc.id, PrunedBy(tx.snapshot, stored, doc)));
      SettleDelivery(stored, doc, leaves);
      ghost var winner := WinnerRev(Sorted(leaves));
      Assoc4(start, adopt, delivery,
             WinnerOps(env, tx.snapshot, stored, doc.id, winner, LeafOrSelf(tx.snapshot, doc, winner)));
      Assoc(adopt, delivery, WinnerOps(env, tx.snapshot, stored, doc.id, winner, LeafOrSelf(tx.snapshot, doc, winner)));
      done := true;
    }

    method SettleDelivery(stored: Option<Document>, doc: Document, leaves: set<Bytes>)
      requires leaves != {}
      modifies tx`opLog
      ensures var winner := WinnerRev(Sorted(leaves));
              tx.opLog == old(tx.opLog)
                          + WinnerOps(env, tx.snapshot, stored, doc.id, winner, LeafOrSelf(tx.snapshot, doc, winner))
    {
      var winner := WinnerRev(Sorted(leaves));
      var winnerDoc := if winner == doc.rev then Some(doc) else GetLeaf(tx.snapshot, doc.id, winner);
      ChangeWinner(stored, doc.id, winner, winnerDoc);
    }

    /** The committed leaves; a stored winner from before there were leaves joins them. */
    method AdoptStored(stored: Option<Document>, id: Bytes) returns (leaves: set<Bytes>)
      modifies tx`opLog
      ensures leaves == Competing(tx.snapshot, stored, id)
      ensures tx.opLog == old(tx.opLog) + AdoptOps(tx.snapshot, stored, id)
    {
      var committed := LeafRevisions(id);
      leaves := set r | r in committed;
      if stored.Some? && stored.value.rev !in leaves {
        leaves := leaves + {stored.value.rev};
        tx.Append(PutLeaf(stored.value));
      }
    }

    /** Leaves that the delivery names as ancestors cease to be leaves. */
    method PruneAncestors(doc: Document, all: set<Bytes>) returns (leaves: set<Bytes>)
      requires doc.history != []
      modifies tx`opLog
      ensures leaves == all - (set r | r in Pruned(doc.history[1..], all))
      ensures tx.opLog == old(tx.opLog) + DeleteLeaves(doc.id, Pruned(doc.history[1..], all))
    {
      var ancestors := doc.history[1..];
      leaves := all;
      ghost var gone := [];
      for j := 0 to |ancestors|
        invariant Pruned(ancestors, all) == gone + Pruned(ancestors[j..], leaves)
        invariant forall r :: r in leaves <==> r in all && r !in gone
        invariant tx.opLog == old(tx.opLog) + DeleteLeaves(doc.id, gone)
      {
        PrunedNext(ancestors, j, gone, leaves);
        if ancestors[j] in leaves {
          leaves := leaves - {ancestors[j]};
          tx.Append(DeleteLeaf(doc.id, ancestors[j]));
          DeleteOneMore(old(tx.opLog), doc.id, gone, ancestors[j]);
          gone := gone + [ancestors[j]];
        }
      }
    }

    /** Stores the winner's document and brings the indices up to date, unless the
        winner is the one already stored. */
    method ChangeWinner(stored: Option<Document>, id: Bytes, winner: Bytes, winnerDoc: Option<Document>)
      modifies tx`opLog
      ensures tx.opLog == old(tx.opLog) + WinnerOps(env, tx.snapshot, stored, id, winner, winnerDoc)
    {
      var current := if stored.Some? then stored.value.rev else [];
      if winnerDoc.Some? && winner != current {
        ghost var start := tx.opLog;
        if stored.Some? { ForgetStored(stored.value); }
        ghost var removal := RemovalOf(env, tx.snapshot, stored);
        assert tx.opLog == start + removal;
        tx.Append(Put(Docs, id, Doc(winnerDoc.value)));
        IndexStored(winnerDoc.value);
        Assoc4(start, removal, [Put(Docs, id, Doc(winnerDoc.value))],
               AllStored(env.indices, tx.snapshot, winnerDoc.value));
        Assoc(removal, [Put(Docs, id, Doc(winnerDoc.value))], AllStored(env.indices, tx.snapshot, winnerDoc.value));
      }
    }

    method DeleteDocument(id: Bytes, rev: Bytes) returns (result: Result)
      modifies tx`opLog
      ensures result == DeletePlan(env, tx.snapshot, id, rev).result
      ensures tx.opLog == old(tx.opLog) + DeletePlan(env, tx.snapshot, id, rev).ops
    {
      var read := GetDocument(id);
      if read.Unreadable? { return ReadError; }
      if read.Missing? { return NotFound; }
      if read.doc.rev == rev {
        result := PutDocument(Tombstone(id, rev));
        return;
      }
      var revs := LeafRevisions(id);
      if rev !in revs { return Conflict; }
      var leaf := GetLeaf(tx.snapshot, id, rev);
      if leaf.None? { return Conflict; }
      if rev != [] && DASH !in rev { return Crash; }
      var tombstone := Tombstone(id, rev);
      var newRev := Format(NextGeneration(Revision(tombstone)), env.hash(tombstone));
      var past := leaf.value.history;
      if past == [] && rev != [] { past := [rev]; }
      tombstone := tombstone.(rev := newRev, history := Capped([newRev] + past));
      EndBranch(read.doc, rev, tombstone);
      result := Done(newRev);
    }

    /** The committed leaves with the pending changes applied in memory. */
    method LeavesLeft(rev: Bytes, tombstone: Document) returns (leaves: set<Bytes>)
      ensures leaves == LeavesWithTombstone(tx.snapshot, rev, tombstone)
    {
      var committed := LeafRevisions(tombstone.id);
      leaves := set r | r in committed;
      leaves := leaves - {rev};
      leaves := leaves + {tombstone.rev};
    }

    /** Replaces a leaf by its tombstone and settles the winner. */
    method EndBranch(stored: Document, rev: Bytes, tombstone: Document)
      modifies tx`opLog
      ensures tx.opLog == old(tx.opLog) + BranchLog(env, tx.snapshot, stored, rev, tombstone)
    {
      ghost var start := tx.opLog;
      var id := tombstone.id;
      tx.Append(DeleteLeaf(id, rev));
      tx.Append(PutLeaf(tombstone));
      AppendTwo(start, DeleteLeaf(id, rev), PutLeaf(tombstone));
      var leaves := LeavesLeft(rev, tombstone);
      var winner := WinnerRev(Sorted(leaves));
      var winnerDoc :=
        if winner == tombstone.rev then Some(tombstone)
        else if winner == stored.rev then Some(stored)
        else GetLeaf(tx.snapshot, id, winner);
      ChangeWinner(Some(stored), id, winner, winnerDoc);
      Assoc(start, [DeleteLeaf(id, rev), PutLeaf(tombstone)],
            WinnerOps(env, tx.snapshot, Some(stored), id, winner, winnerDoc));
    }

    method StoreEdited(stored: Option<Document>, doc: Document)
      modifies tx`opLog
      ensures tx.opLog == old(tx.opLog) + EditLog(env, tx.snapshot, stored, doc)
    {
      ghost var start := tx.opLog;
      if stored.Some? { ForgetStored(stored.value); }
      ghost var removal := RemovalOf(env, tx.snapshot, stored);
      assert tx.opLog == start + removal;
      tx.Append(Put(Docs, doc.id, Doc(doc)));
      if stored.Some? { tx.Append(DeleteLeaf(doc.id, stored.value.rev)); }
      tx.Append(PutLeaf(doc));
      ghost var ops := [Put(Docs, doc.id, Doc(doc))]
                       + (if stored.Some? then [DeleteLeaf(doc.id, stored.value.rev)] else []) + [PutLeaf(doc)];
      assert tx.opLog == start + removal + ops;
      IndexStored(doc);
      Assoc4(start, removal, ops, AllStored(env.indices, tx.snapshot, doc));
    }
  }

  /** The history named by "_revisions", or else the document's own. */
  method BuildHistory(doc: Document) returns (history: seq<Bytes>)
    ensures history == SuppliedHistory(doc)
  {
    history := doc.history;
    if REVISIONS_FIELD in doc.data && doc.data[REVISIONS_FIELD].Obj? {
      var f := doc.data[REVISIONS_FIELD].fields;
      var start := if START_FIELD in f && f[START_FIELD].Num? then f[START_FIELD].n else 0;
      var ids := if IDS_FIELD in f && f[IDS_FIELD].Arr? then f[IDS_FIELD].items else [];
      history := FormatAll(ids, start);
      if |history| > HISTORY_CAP { history := history[..HISTORY_CAP]; }
    }
    if history == [] && doc.rev != [] { history := [doc.rev]; }
  }

  lemma PrunedNext(ancestors: seq<Bytes>, j: nat, gone: seq<Bytes>, leaves: set<Bytes>)
    requires j < |ancestors|
    ensures gone + Pruned(ancestors[j..], leaves)
         == if ancestors[j] in leaves then gone + [ancestors[j]] + Pruned(ancestors[j + 1..], leaves - {ancestors[j]})
            else gone + Pruned(ancestors[j + 1..], leaves)
  {
    assert ancestors[j..][1..] == ancestors[j + 1..];
    if ancestors[j] in leaves {
      Assoc(gone, [ancestors[j]], Pruned(ancestors[j + 1..], leaves - {ancestors[j]}));
    }
  }

  lemma ParsedNext(ids: seq<Json>, i: nat, start: int, history: seq<Bytes>)
    requires i < |ids|
    ensures history + ParseIds(ids[i..], start)
         == (if ids[i].Str? then history + [Format(start, ids[i].s)] else history) + ParseIds(ids[i + 1..], start - 1)
  {
    assert ids[i..][1..] == ids[i + 1..];
  }

  method FormatAll(ids: seq<Json>, start: int) returns (history: seq<Bytes>)
    ensures history == ParseIds(ids, start)
  {
    history := [];
    for i := 0 to |ids|
      invariant ParseIds(ids, start) == history + ParseIds(ids[i..], start - i)
    {
      ParsedNext(ids, i, start - i, history);
      if ids[i].Str? { history := history + [Format(start - i, ids[i].s)]; }
    }
  }

  /** Seek to the prefix, then Next while it lasts. */
  method ScanUnder(keys: seq<Bytes>, prefix: Bytes) returns (revs: seq<Bytes>, ghost end: nat)
    ensures SeekIndex(keys, prefix) <= end <= |keys| && (end < |keys| ==> !(prefix <= keys[end]))
    ensures AllUnder(prefix, keys[SeekIndex(keys, prefix)..end])
    ensures revs == SuffixesAfter(prefix, keys[SeekIndex(keys, prefix)..end])
  {
    var c := SeekIndex(keys, prefix);
    ghost var from := c;
    revs := [];
    while c < |keys| && prefix <= keys[c]
      invariant from <= c <= |keys| && AllUnder(prefix, keys[from..c])
      invariant revs == SuffixesAfter(prefix, keys[from..c])
    {
      UnderNext(prefix, keys, from, c);
      revs := revs + [keys[c][|prefix|..]];
      c := c + 1;
    }
    end := c;
  }

  /** The log of an edit, as PutPlan writes it. */
  ghost function EditLog(env: Env, s: Store, stored: Option<Document>, doc: Document): seq<Op> {
    RemovalOf(env, s, stored)
    + ([Put(Docs, doc.id, Doc(doc))]
       + (if stored.Some? then [DeleteLeaf(doc.id, stored.value.rev)] else []) + [PutLeaf(doc)])
    + AllStored(env.indices, s, doc)
  }

  lemma AppendTwo(log: seq<Op>, a: Op, b: Op)
    ensures log + [a] + [b] == log + [a, b]
  {
  }

  lemma DeleteOneMore(log: seq<Op>, id: Bytes, gone: seq<Bytes>, r: Bytes)
    ensures log + DeleteLeaves(id, gone) + [DeleteLeaf(id, r)] == log + DeleteLeaves(id, gone + [r])
  {
  }

  lemma LogSoFar(start: seq<Op>, adopt: seq<Op>, put: seq<Op>, prune: seq<Op>)
    ensures start + adopt + put + prune == start + adopt + (put + prune)
  {
  }

  lemma Assoc4(a: seq<Op>, b: seq<Op>, c: seq<Op>, d: seq<Op>)
    ensures a + b + c + d == a + (b + c + d)
  {
  }

  lemma DeletedNext(indices: seq<Index>, s: Store, doc: Document, j: nat)
    requires j < |indices|
    ensures AllDeleted(indices[..j + 1], s, doc)
         == AllDeleted(indices[..j], s, doc) + DocumentDeleted(indices[j], s, doc)
  {
    var next := indices[..j + 1];
    var parts := seq(|next|, k requires 0 <= k < |next| => DocumentDeleted(next[k], s, doc));
    ConcatSnoc(parts, j);
    assert parts[..j] == seq(|next[..j]|, k requires 0 <= k < |next[..j]| => DocumentDeleted(next[..j][k], s, doc));
    assert parts[..j + 1] == parts && next[..j] == indices[..j];
  }

  lemma StoredNext(indices: seq<Index>, s: Store, doc: Document, j: nat)
    requires j < |indices|
    ensures AllStored(indices[..j + 1], s, doc) == AllStored(indices[..j], s, doc) + DocumentStored(indices[j], s, doc)
  {
    var next := indices[..j + 1];
    var parts := seq(|next|, k requires 0 <= k < |next| => DocumentStored(next[k], s, doc));
    ConcatSnoc(parts, j);
    assert parts[..j] == seq(|next[..j]|, k requires 0 <= k < |next[..j]| => DocumentStored(next[..j][k], s, doc));
    assert parts[..j + 1] == parts && next[..j] == indices[..j];
  }

  ghost predicate AllUnder(p: Bytes, keys: seq<Bytes>) {
    forall j :: 0 <= j < |keys| ==> p <= keys[j]
  }

  lemma UnderNext(p: Bytes, keys: seq<Bytes>, from: nat, c: nat)
    requires from <= c < |keys| && AllUnder(p, keys[from..c]) && p <= keys[c]
    ensures AllUnder(p, keys[from..c + 1])
    ensures SuffixesAfter(p, keys[from..c + 1]) == SuffixesAfter(p, keys[from..c]) + [keys[c][|p|..]]
  {
    assert keys[from..c + 1] == keys[from..c] + [keys[c]];
  }

  /** A scan from the prefix to the first key without it finds the keys under it. */
  lemma ScanIsKeysUnder(p: Bytes, entries: map<Bytes, Value>, keys: seq<Bytes>, c: nat)
    requires keys == Sorted(entries.Keys)
    requires SeekIndex(keys, p) <= c <= |keys| && (c < |keys| ==> !(p <= keys[c]))
    requires AllUnder(p, keys[SeekIndex(keys, p)..c])
    ensures keys[SeekIndex(keys, p)..c] == KeysUnder(p, entries)
  {
    var found := keys[SeekIndex(keys, p)..c];
    SortedAscending(entries.Keys);
    SliceAscending(keys, SeekIndex(keys, p), c);
    SortedAscending(set k | k in entries && p <= k);
    forall k ensures k in found <==> k in entries && p <= k {
      if k in entries && p <= k {
        ScanComplete(keys, p, c);
        InSlice(keys, p, c, k);
      }
      if k in found { FromSlice(keys, p, SeekIndex(keys, p), c, k); }
    }
    AscendingUnique(found, KeysUnder(p, entries));
  }

  lemma SliceAscending(keys: seq<Bytes>, i: nat, j: nat)
    requires Ascending(keys) && i <= j <= |keys|
    ensures Ascending(keys[i..j])
  {
  }

  lemma InSlice(keys: seq<Bytes>, p: Bytes, c: nat, k: Bytes)
    requires SeekIndex(keys, p) <= c <= |keys| && k in keys[..c] && p <= k
    ensures k in keys[SeekIndex(keys, p)..c]
  {
    var j :| 0 <= j < c && keys[..c][j] == k;
    NoneBefore(keys, p, j);
    assert keys[SeekIndex(keys, p)..c][j - SeekIndex(keys, p)] == k;
  }

  lemma FromSlice(keys: seq<Bytes>, p: Bytes, from: nat, c: nat, k: Bytes)
    requires from <= c <= |keys| && k in keys[from..c] && AllUnder(p, keys[from..c])
    ensures k in keys && p <= k
  {
    var j :| 0 <= j < c - from && keys[from..c][j] == k;
    assert k == keys[from + j];
  }

  lemma NoneBefore(keys: seq<Bytes>, p: Bytes, j: nat)
    requires j < |keys| && p <= keys[j]
    ensures SeekIndex(keys, p) <= j
  {
    if j < SeekIndex(keys, p) {
      SeekLands(keys, p, j);
      PrefixFirst(p, keys[j]);
      CompareSwap(p, keys[j]);
    }
  }
}
