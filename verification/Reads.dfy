/** What a read shows of a stored document and of its conflict branches. */
module Reads {
  import opened ByteStrings
  import opened Convergence
  import opened Documents
  import opened DocStore
  import opened Engine
  import opened Finds
  import opened Indexes
  import opened Runs
  import opened SortedKeys
  import opened StoreInvariant
  import opened Writers

  /******* The meta members *******/

  /** A member that reading sets when the condition holds, and leaves alone otherwise. */
  ghost predicate SetIf(when: bool, value: Json, name: Bytes, before: map<Bytes, Json>, after: map<Bytes, Json>) {
    if when then name in after && after[name] == value
    else (name in after <==> name in before) && (name in before ==> after[name] == before[name])
  }

  /** The other leaves, in key order. */
  ghost predicate Conflicting(conflicts: seq<Bytes>, leaves: set<Bytes>, rev: Bytes) {
    Ascending(conflicts) && forall r :: r in conflicts <==> r in leaves && r != rev
  }

  /** One object for each file name. */
  ghost predicate NamesAttachments(j: Json, attachments: map<Bytes, Bytes>) {
    j.Obj? && j.fields.Keys == attachments.Keys
  }

  ghost predicate MembersShown(w: Document, d: Document, leaves: set<Bytes>) {
    && SetIf(true, Str(w.id), ID_FIELD, w.data, d.data) && SetIf(true, Str(w.rev), REV_FIELD, w.data, d.data)
    && SetIf(w.deleted, Bool(true), DELETED_FIELD, w.data, d.data)
    && (if w.attachments != map[] then ATTACHMENTS_FIELD in d.data && NamesAttachments(d.data[ATTACHMENTS_FIELD], w.attachments)
        else SetIf(false, Null, ATTACHMENTS_FIELD, w.data, d.data))
    && (if leaves == {w.rev} then SetIf(false, Null, CONFLICTS_FIELD, w.data, d.data)
        else exists conflicts ::
               && Conflicting(conflicts, leaves, w.rev) && CONFLICTS_FIELD in d.data
               && d.data[CONFLICTS_FIELD] == Arr(seq(|conflicts|, j requires 0 <= j < |conflicts| => Str(conflicts[j]))))
  }

  lemma {:induction false} OthersAre(rev: Bytes, revs: seq<Bytes>)
    requires Ascending(revs)
    ensures Conflicting(OthersThan(rev, revs), (set r | r in revs), rev)
  {
    if revs != [] {
      var head, last := revs[..|revs| - 1], revs[|revs| - 1];
      OthersThanMembers(rev, head);
      assert revs == head + [last];
      OthersAre(rev, head);
      forall r | r in OthersThan(rev, head) ensures Before(r, last) {
        var i :| 0 <= i < |head| && head[i] == r;
        assert revs[i] == r;
      }
    }
  }

  lemma {:induction false} OthersThanMembers(rev: Bytes, revs: seq<Bytes>)
    ensures forall r :: r in OthersThan(rev, revs) <==> r in revs && r != rev
  {
    if revs != [] {
      var head, last := revs[..|revs| - 1], revs[|revs| - 1];
      assert revs == head + [last];
      OthersThanMembers(rev, head);
    }
  }

  lemma OneLeaf(revs: seq<Bytes>, r: Bytes)
    requires Ascending(revs) && r in revs
    ensures |revs| == 1 <==> (set x | x in revs) == {r}
  {
    var all := set x | x in revs;
    if |revs| == 1 {
      assert all == {r} by { forall x | x in all ensures x == r { assert revs[0] == x; } }
    } else {
      CompareSwap(revs[0], revs[1]);
      assert Before(revs[0], revs[1]) && revs[0] in all && revs[1] in all;
      assert revs[0] != revs[1];
    }
  }

  /** The members reading sets, from the stored document and the leaves alone. */
  lemma ReadMembers(env: Env, s: Store, id: Bytes, w: Document)
    requires Inv(env, s) && ValidId(id) && !IsLocal(id) && WinnerAt(s, id) == Some(w)
    ensures GetDocument(s, id).Found? && MembersShown(w, GetDocument(s, id).doc, LeafSet(LeavesIn(s), id))
  {
    AtId(env, s, id);
    LeafRevsAreLeafSet(s, id);
    SequenceKept(env, s, id, w);
    var revs := LeafRevs(s, id);
    SuffixesAscend(id + [0], Entries(s, Leaves));
    OthersAre(w.rev, revs);
    OneLeaf(revs, w.rev);
    SequenceData(s, WithMeta(w), WithSequence(s, WithMeta(w)).value);
    ShownMembers(s, w, WithSequence(s, WithMeta(w)).value, revs, LeafSet(LeavesIn(s), id));
  }

  lemma SequenceData(s: Store, m: Document, d: Document)
    requires WithSequence(s, m) == Some(d)
    ensures d.data == m.data && d.id == m.id && d.rev == m.rev
  {
  }

  lemma FieldsDiffer()
    ensures |ID_FIELD| == 3 && |REV_FIELD| == 4 && |DELETED_FIELD| == 8 && |CONFLICTS_FIELD| == 10
    ensures |ATTACHMENTS_FIELD| == 12
  {
  }

  lemma MetaShown(w: Document, data: map<Bytes, Json>)
    requires data == WithMeta(w).data
    ensures MetaSet(w, data)
  {
    FieldsDiffer();
  }

  /** Adding the conflicts sets that one member. */
  lemma ConflictsShown(s: Store, d: Document, revs: seq<Bytes>, data: map<Bytes, Json>)
    requires revs == LeafRevs(s, d.id) && d.rev in revs && data == WithBranches(s, d).data
    ensures OnlyConflicts(|revs| > 1, Arr(AsJson(OthersThan(d.rev, revs))), d.data, data)
  {
  }

  ghost predicate OnlyConflicts(when: bool, value: Json, before: map<Bytes, Json>, after: map<Bytes, Json>) {
    && SetIf(when, value, CONFLICTS_FIELD, before, after)
    && forall name :: name != CONFLICTS_FIELD ==> SetIf(false, Null, name, before, after)
  }

  ghost predicate MetaSet(w: Document, data: map<Bytes, Json>) {
    && SetIf(true, Str(w.id), ID_FIELD, w.data, data) && SetIf(true, Str(w.rev), REV_FIELD, w.data, data)
    && SetIf(w.deleted, Bool(true), DELETED_FIELD, w.data, data) && SetIf(false, Null, CONFLICTS_FIELD, w.data, data)
    && if w.attachments != map[] then ATTACHMENTS_FIELD in data && NamesAttachments(data[ATTACHMENTS_FIELD], w.attachments)
       else SetIf(false, Null, ATTACHMENTS_FIELD, w.data, data)
  }

  lemma ShownMembers(s: Store, w: Document, d: Document, revs: seq<Bytes>, leaves: set<Bytes>)
    requires d.data == WithMeta(w).data && d.id == w.id && d.rev == w.rev && revs == LeafRevs(s, w.id) && w.rev in revs
    requires Conflicting(OthersThan(w.rev, revs), leaves, w.rev) && (|revs| == 1 <==> leaves == {w.rev})
    ensures MembersShown(w, WithBranches(s, d), leaves)
  {
    var data := WithBranches(s, d).data;
    MetaShown(w, d.data);
    ConflictsShown(s, d, revs, data);
    Gathered(w, d.data, WithBranches(s, d), revs, leaves, OthersThan(w.rev, revs));
  }

  lemma Gathered(w: Document, mid: map<Bytes, Json>, d: Document, revs: seq<Bytes>, leaves: set<Bytes>, others: seq<Bytes>)
    requires Conflicting(others, leaves, w.rev) && (|revs| == 1 <==> leaves == {w.rev}) && |revs| >= 1
    requires MetaSet(w, mid) && OnlyConflicts(|revs| > 1, Arr(AsJson(others)), mid, d.data)
    ensures MembersShown(w, d, leaves)
  {
    FieldsDiffer();
    assert SetIf(false, Null, ID_FIELD, mid, d.data) && SetIf(false, Null, REV_FIELD, mid, d.data);
    assert SetIf(false, Null, DELETED_FIELD, mid, d.data) && SetIf(false, Null, ATTACHMENTS_FIELD, mid, d.data);
    assert AsJson(others) == seq(|others|, j requires 0 <= j < |others| => Str(others[j]));
  }

  /******* The history *******/

  lemma {:induction false} AppendedOnce(history: seq<Bytes>, revs: seq<Bytes>)
    requires Once(history)
    ensures Once(AppendNew(history, revs))
    decreases revs
  {
    if revs != [] { AppendedOnce(if revs[0] in history then history else history + [revs[0]], revs[1..]); }
  }

  ghost predicate Once(revs: seq<Bytes>) {
    forall i, j :: 0 <= i < j < |revs| ==> revs[i] != revs[j]
  }

  /** The stored history comes first, whole; then, each once if that was so, what the
      other leaves' histories have besides. */
  lemma HistoryShown(env: Env, s: Store, id: Bytes, w: Document)
    requires Inv(env, s) && ValidId(id) && !IsLocal(id) && WinnerAt(s, id) == Some(w)
    ensures GetDocument(s, id).Found?
    ensures var h := GetDocument(s, id).doc.history;
            && w.history <= h && (Once(w.history) ==> Once(h))
            && (LeafSet(LeavesIn(s), id) == {w.rev} ==> h == w.history)
            && forall r :: r in h <==> r in w.history || OnOtherLeaf(s, id, w.rev, LeafSet(LeavesIn(s), id), r)
  {
    AtId(env, s, id);
    ReadStored(env, s, id);
    SequenceKept(env, s, id, w);
    LeafRevsAreLeafSet(s, id);
    SuffixesAscend(id + [0], Entries(s, Leaves));
    OneLeaf(LeafRevs(s, id), w.rev);
    if Once(w.history) { BranchesOnce(s, id, w.rev, w.history, LeafRevs(s, id)); }
    forall r ensures r in GetDocument(s, id).doc.history <==>
                     r in w.history || OnOtherLeaf(s, id, w.rev, LeafSet(LeavesIn(s), id), r)
    {
      ReadHistory(env, s, id, w, r);
    }
  }

  lemma {:induction false} BranchesOnce(s: Store, id: Bytes, rev: Bytes, history: seq<Bytes>, leaves: seq<Bytes>)
    requires Once(history)
    ensures Once(AddBranches(s, id, rev, history, leaves))
    decreases leaves
  {
    if leaves != [] {
      var leaf := GetLeaf(s, id, leaves[0]);
      if leaf.Some? { AppendedOnce(history, leaf.value.history); }
      BranchesOnce(s, id, rev,
                   if leaves[0] != rev && leaf.Some? then AppendNew(history, leaf.value.history) else history, leaves[1..]);
    }
  }

  /******* What an edit keeps known *******/

  /** As long as the history is not cut, an edit forgets no revision: whatever was
      known before is known afterwards, and so is the new one. */
  lemma EditKeepsKnown(env: Env, s: Store, doc: Document, t: Store, r: Bytes)
    requires Inv(env, s) && Acceptable(env, Edit(doc)) && !IsLocal(doc.id) && PutPlan(env, s, doc).result.Done?
    requires t == Committed(PutPlan(env, s, doc).ops, s) && CountersFit(t) && |Shown(s, doc.id)| < HISTORY_CAP
    ensures Has(t, doc.id, PutPlan(env, s, doc).result.rev) && (Has(s, doc.id, r) ==> Has(t, doc.id, r))
  {
    var rev := PutPlan(env, s, doc).result.rev;
    PutKeeps(env, s, doc);
    KnownIsShown(env, s, doc.id, r);
    EditedHistory(env, s, doc, t, rev);
    WinnerKnown(env, t, doc.id, rev);
    if Has(s, doc.id, r) { WinnerKnown(env, t, doc.id, r); }
  }

  lemma EditedHistory(env: Env, s: Store, doc: Document, t: Store, rev: Bytes)
    requires EditStored(env, s, t, doc, rev) && |Shown(s, doc.id)| < HISTORY_CAP
    ensures WinnerAt(t, doc.id).Some? && WinnerAt(t, doc.id).value.history == [rev] + Shown(s, doc.id)
  {
  }

  lemma WinnerKnown(env: Env, t: Store, id: Bytes, r: Bytes)
    requires Inv(env, t) && WinnerAt(t, id).Some? && r in WinnerAt(t, id).value.history
    ensures Has(t, id, r)
  {
    ReadStored(env, t, id);
  }

  /** A known revision is in the history that a read shows. */
  lemma KnownIsShown(env: Env, s: Store, id: Bytes, r: Bytes)
    requires Inv(env, s) && ValidId(id) && !IsLocal(id)
    ensures Has(s, id, r) <==> r in Shown(s, id)
  {
    StoredLikeWinner(env, s, id);
    ReadStored(env, s, id);
    if GetDocument(s, id).Found? {
      var w, d := WinnerAt(s, id).value, GetDocument(s, id).doc;
      assert w.history[0] == d.history[0] && d.history[0] in d.history;
    }
  }
}
