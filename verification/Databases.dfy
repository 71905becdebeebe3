/** A database: every call is one transaction, read against the committed store and
    committed as a whole; and the same database seen as a replication peer. */
module Databases {
  import opened Batch
  import opened ByteStrings
  import opened ChangesFeed
  import opened ConflictWriters
  import opened Convergence
  import opened Documents
  import opened DocStore
  import opened Engine
  import opened Runs
  import opened StoreInvariant
  import opened Transactions
  import opened Writers

  predicate Knows(read: Read, rev: Bytes) {
    read.Found? && HasRevision(read.doc, rev)
  }

  /** The revisions that a read does not show. */
  function Unknown(read: Read, revs: seq<Bytes>): (missing: seq<Bytes>)
    ensures forall r :: r in missing <==> r in revs && !Knows(read, r)
  {
    if revs == [] then []
    else
      var last := |revs| - 1;
      assert revs == revs[..last] + [revs[last]];
      Unknown(read, revs[..last]) + (if Knows(read, revs[last]) then [] else [revs[last]])
  }

  function MissingRevs(s: Store, id: Bytes, revs: seq<Bytes>): (missing: seq<Bytes>)
    ensures forall r :: r in missing <==> r in revs && !Has(s, id, r)
  {
    Unknown(GetDocument(s, id), revs)
  }

  predicate Succeeds(r: Result) {
    r.Done? || r.Unchanged?
  }

  function Writing(docs: seq<Document>, newEdits: bool): (ws: seq<Write>)
    ensures |ws| == |docs| && forall j :: 0 <= j < |ws| ==> ws[j] == (if newEdits then Edit(docs[j]) else Deliver(docs[j]))
  {
    seq(|docs|, j requires 0 <= j < |docs| => if newEdits then Edit(docs[j]) else Deliver(docs[j]))
  }

  lemma PutLands(env: Env, s: Store, doc: Document)
    ensures var p := PutPlan(env, s, doc);
            Inv(env, s) && Acceptable(env, Edit(doc)) && Lands(p.ops, s) && CountersFit(Landed(p.ops, s))
            ==> PutOutcome(env, s, doc, Landed(p.ops, s))
  {
    var p := PutPlan(env, s, doc);
    if Inv(env, s) && Acceptable(env, Edit(doc)) && Lands(p.ops, s) && CountersFit(Landed(p.ops, s)) {
      PutKeeps(env, s, doc);
    }
  }

  lemma DeleteLands(env: Env, s: Store, id: Bytes, rev: Bytes)
    ensures var p := DeletePlan(env, s, id, rev);
            Inv(env, s) && ValidId(id) && Lands(p.ops, s) && CountersFit(Landed(p.ops, s))
            ==> DeleteOutcome(env, s, id, rev, Landed(p.ops, s))
  {
    var p := DeletePlan(env, s, id, rev);
    if Inv(env, s) && ValidId(id) && Lands(p.ops, s) && CountersFit(Landed(p.ops, s)) {
      DeleteKeeps(env, s, id, rev);
    }
  }

  class Database {
    const env: Env
    var store: Store

    constructor (env: Env, store: Store)
      ensures this.env == env && this.store == store
    {
      this.env := env;
      this.store := store;
    }

    /** The read phase of a transaction. */
    method Begin() returns (t: Transaction)
      ensures fresh(t.tx) && t.env == env
      ensures t.tx.snapshot == store && t.tx.seqNo == 0 && t.tx.opLog == []
    {
      var tx := new WriteTransaction(store);
      t := new Transaction(tx, env);
    }

    /** The commit phase; nothing logged, nothing to do. */
    method Finish(t: Transaction) returns (ok: bool)
      requires t.tx.seqNo == 0
      modifies this`store, t.tx`seqNo
      ensures ok == Lands(t.tx.opLog, old(store)) && store == Landed(t.tx.opLog, old(store))
    {
      ok := true;
      if t.tx.opLog != [] {
        ok, store := t.tx.Commit(store);
      }
    }

    method PutDocument(doc: Document) returns (result: Result)
      modifies this`store
      ensures var p := PutPlan(env, old(store), doc);
              result == (if Lands(p.ops, old(store)) then p.result else CommitError) && store == Landed(p.ops, old(store))
      ensures Inv(env, old(store)) && Acceptable(env, Edit(doc)) && CountersFit(store) && result != CommitError
              ==> PutOutcome(env, old(store), doc, store)
      ensures result == CommitError ==> store == old(store)
    {
      ghost var before := store;
      var t := Begin();
      result := t.PutDocument(doc);
      assert [] + PutPlan(env, before, doc).ops == PutPlan(env, before, doc).ops;
      var ok := Finish(t);
      if !ok { result := CommitError; }
      PutLands(env, before, doc);
    }

    method DeleteDocument(id: Bytes, rev: Bytes) returns (result: Result)
      modifies this`store
      ensures var p := DeletePlan(env, old(store), id, rev);
              result == (if Lands(p.ops, old(store)) then p.result else CommitError) && store == Landed(p.ops, old(store))
      ensures Inv(env, old(store)) && ValidId(id) && CountersFit(store) && result != CommitError
              ==> DeleteOutcome(env, old(store), id, rev, store)
      ensures result == CommitError ==> store == old(store)
    {
      ghost var before := store;
      var t := Begin();
      result := t.DeleteDocument(id, rev);
      assert [] + DeletePlan(env, before, id, rev).ops == DeletePlan(env, before, id, rev).ops;
      var ok := Finish(t);
      if !ok { result := CommitError; }
      DeleteLands(env, before, id, rev);
    }

    /** One transaction for all the documents, given up at the first failure. */
    method BulkDocs(docs: seq<Document>, newEdits: bool) returns (ok: bool)
      modifies this`store
      ensures var ws := Writing(docs, newEdits);
              && (ok <==> AllSucceed(env, old(store), ws) && Lands(BatchOps(env, old(store), ws), old(store)))
              && store == if ok then Landed(BatchOps(env, old(store), ws), old(store)) else old(store)
    {
      var t := Begin();
      ok := LogAll(t, docs, newEdits);
      if ok { ok := Finish(t); }
    }

    method LogAll(t: Transaction, docs: seq<Document>, newEdits: bool) returns (ok: bool)
      requires t.env == env && t.tx.snapshot == store && t.tx.opLog == []
      modifies t.tx`opLog
      ensures ok <==> AllSucceed(env, store, Writing(docs, newEdits))
      ensures ok ==> t.tx.opLog == BatchOps(env, store, Writing(docs, newEdits))
    {
      ghost var ws := Writing(docs, newEdits);
      for j := 0 to |docs|
        invariant t.tx.opLog == BatchOps(env, store, ws[..j])
        invariant AllSucceed(env, store, ws[..j])
      {
        SucceedNext(env, store, ws, j);
        BatchOpsSnoc(env, store, ws, j);
        var result := LogOne(t, docs[j], newEdits, ws[j]);
        if !Succeeds(result) { return false; }
      }
      assert ws[..|docs|] == ws;
      ok := true;
    }

    method LogOne(t: Transaction, doc: Document, newEdits: bool, ghost w: Write) returns (result: Result)
      requires t.env == env && t.tx.snapshot == store && w == if newEdits then Edit(doc) else Deliver(doc)
      modifies t.tx`opLog
      ensures result == PlanOf(env, store, w).result
      ensures Succeeds(result) ==> t.tx.opLog == old(t.tx.opLog) + PlanOf(env, store, w).ops
    {
      if newEdits {
        result := t.PutDocument(doc);
      } else {
        result := t.PutDocumentForReplication(doc);
      }
    }

    /** Which of the named revisions are missing here; an ID with nothing missing is
        left out, unless there is no such document. */
    method RevsDiff(revs: map<Bytes, seq<Bytes>>) returns (missing: map<Bytes, seq<Bytes>>)
      ensures forall id :: id in missing <==>
                id in revs && (!GetDocument(store, id).Found? || exists r :: r in revs[id] && !Has(store, id, r))
      ensures forall id :: id in missing ==> missing[id] == MissingRevs(store, id, revs[id])
    {
      missing := map[];
      var todo := revs.Keys;
      while todo != {}
        invariant todo <= revs.Keys
        invariant forall id :: id in missing <==>
                    id in revs && id !in todo
                    && (!GetDocument(store, id).Found? || exists r :: r in revs[id] && !Has(store, id, r))
        invariant forall id :: id in missing ==> missing[id] == MissingRevs(store, id, revs[id])
      {
        var id :| id in todo;
        todo := todo - {id};
        var found := MissingHere(id, revs[id]);
        if !GetDocument(store, id).Found? || found != [] { missing := missing[id := found]; }
        assert found != [] ==> found[0] in found;
      }
    }

    method MissingHere(id: Bytes, revs: seq<Bytes>) returns (missing: seq<Bytes>)
      ensures missing == MissingRevs(store, id, revs)
    {
      var t := Begin();
      var read := t.GetDocument(id);
      missing := UnknownTo(read, revs);
    }
  }

  method UnknownTo(read: Read, revs: seq<Bytes>) returns (missing: seq<Bytes>)
    ensures missing == Unknown(read, revs)
  {
    missing := [];
    for j := 0 to |revs|
      invariant missing == Unknown(read, revs[..j])
    {
      assert revs[..j + 1][..j] == revs[..j];
      if !(read.Found? && HasRevision(read.doc, revs[j])) { missing := missing + [revs[j]]; }
    }
    assert revs[..|revs|] == revs;
  }

  ghost predicate AllSucceed(env: Env, s: Store, ws: seq<Write>) {
    forall w :: w in ws ==> var r := PlanOf(env, s, w).result; r.Done? || r == Unchanged
  }

  lemma SucceedNext(env: Env, s: Store, ws: seq<Write>, j: nat)
    requires j < |ws|
    ensures AllSucceed(env, s, ws[..j]) && Succeeds(PlanOf(env, s, ws[j]).result) ==> AllSucceed(env, s, ws[..j + 1])
    ensures !Succeeds(PlanOf(env, s, ws[j]).result) ==> !AllSucceed(env, s, ws)
  {
    assert ws[..j + 1] == ws[..j] + [ws[j]];
    assert ws[j] in ws;
  }

  lemma {:induction false} BatchOpsAppend(env: Env, s: Store, xs: seq<Write>, w: Write)
    ensures BatchOps(env, s, xs + [w]) == BatchOps(env, s, xs) + PlanOf(env, s, w).ops
    decreases xs
  {
    if xs == [] {
      assert xs + [w] == [w] && [w][1..] == [];
      assert PlanOf(env, s, w).ops + [] == PlanOf(env, s, w).ops;
    } else {
      assert (xs + [w])[1..] == xs[1..] + [w];
      BatchOpsAppend(env, s, xs[1..], w);
    }
  }

  lemma BatchOpsSnoc(env: Env, s: Store, ws: seq<Write>, j: nat)
    requires j < |ws|
    ensures BatchOps(env, s, ws[..j + 1]) == BatchOps(env, s, ws[..j]) + PlanOf(env, s, ws[j]).ops
  {
    assert ws[..j + 1] == ws[..j] + [ws[j]];
    BatchOpsAppend(env, s, ws[..j], ws[j]);
  }
}
