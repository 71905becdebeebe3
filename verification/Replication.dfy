/** The replicator between two abstract peers: batches and checkpoint saves that may
    fail at any call, edits of the source at any time, and a target that may be
    created anew between runs. */
module Replication {
  import opened ByteStrings
  import opened Documents

  /******* The peers *******/

  /** A sequence token; None is the empty one, from which everything follows. */
  type Token = Option<nat>

  function Pos(t: Token): nat {
    if t.Some? then t.value else 0
  }

  /** A document's latest change: the leaf revisions it lists, one or all of them, and
      the ancestors sent along with these. */
  datatype Entry = Entry(seqNo: nat, id: Bytes, revs: set<Bytes>, ancestors: set<Bytes>)

  /** A document sent under one of its revisions. */
  datatype Sent = Sent(id: Bytes, rev: Bytes, ancestors: set<Bytes>)

  datatype Recorded = Recorded(session: nat, recorded: Token)

  datatype Checkpoint = Checkpoint(session: nat, lastSeq: Token, history: seq<Recorded>)

  /** A source: each document once, at its latest sequence. */
  datatype Source = Source(entries: seq<Entry>, last: nat, checkpoint: Option<Checkpoint>)

  type Known = set<(Bytes, Bytes)>

  /** A target: the revisions it has. */
  datatype Target = Target(known: Known, checkpoint: Option<Checkpoint>)

  ghost predicate Ordered(entries: seq<Entry>) {
    forall i, j :: 0 <= i < j < |entries| ==> entries[i].seqNo < entries[j].seqNo && entries[i].id != entries[j].id
  }

  ghost predicate ValidSource(s: Source) {
    Ordered(s.entries) && forall e :: e in s.entries ==> 1 <= e.seqNo <= s.last
  }

  datatype Edit = Edit(id: Bytes, revs: set<Bytes>, ancestors: set<Bytes>)

  function Without(entries: seq<Entry>, id: Bytes): (r: seq<Entry>)
    ensures forall e :: e in r <==> e in entries && e.id != id
  {
    if entries == [] then []
    else
      var n := |entries| - 1;
      assert entries == entries[..n] + [entries[n]];
      Without(entries[..n], id) + (if entries[n].id == id then [] else [entries[n]])
  }

  /** A write to the source moves its document to the next sequence. */
  function Edited(s: Source, e: Edit): Source {
    s.(entries := Without(s.entries, e.id) + [Entry(s.last + 1, e.id, e.revs, e.ancestors)], last := s.last + 1)
  }

  function EditedAll(s: Source, es: seq<Edit>): Source
    decreases es
  {
    if es == [] then s else EditedAll(Edited(s, es[0]), es[1..])
  }

  function After(entries: seq<Entry>, n: nat): (r: seq<Entry>)
    ensures forall e :: e in r ==> e in entries
  {
    if entries == [] || entries[0].seqNo > n then entries
    else
      assert entries == [entries[0]] + entries[1..];
      After(entries[1..], n)
  }

  datatype Changes = Changes(results: seq<Entry>, lastSeq: Token, pending: nat)

  /** The changes after a token, at most `limit` of them, the last one's sequence and
      how many more there are. */
  function GetChanges(s: Source, since: Token, limit: nat): Changes {
    Cut(After(s.entries, Pos(since)), since, limit)
  }

  function Cut(all: seq<Entry>, since: Token, limit: nat): Changes {
    var results := if |all| > limit then all[..limit] else all;
    Changes(results, if results == [] then since else Some(results[|results| - 1].seqNo), |all| - |results|)
  }

  /** What is on the target once these documents are. */
  function Delivered(known: Known, docs: set<Sent>): Known {
    known + (set d | d in docs :: (d.id, d.rev)) + (set d, a | d in docs && a in d.ancestors :: (d.id, a))
  }

  /******* One batch *******/

  const BATCH_SIZE: nat := 100

  /** Which calls of a batch fail; a failed bulk write may have landed in part. */
  datatype BatchFaults = BatchFaults(changes: bool, diff: bool, get: bool, docs: Option<Known>)

  /** Local documents and empty IDs are not replicated. */
  predicate Replicable(id: Bytes) {
    id != [] && !IsLocal(id)
  }

  /** The revisions that the changes list. */
  function Listed(entries: seq<Entry>): Known {
    set e, r | e in entries && Replicable(e.id) && r in e.revs :: (e.id, r)
  }

  function IdsOf(revs: Known): set<Bytes> {
    set p | p in revs :: p.0
  }

  /** The requested revisions that are still current, each with its document; what is
      current no more is left out. */
  function BulkGet(s: Source, missing: Known): set<Sent> {
    set e, r | e in s.entries && r in e.revs && (e.id, r) in missing :: Sent(e.id, r, e.ancestors)
  }

  datatype Counters = Counters(docsRead: nat, docsWritten: nat, missingFound: nat, missingChecked: nat)

  const NOTHING: Counters := Counters(0, 0, 0, 0)

  function Plus(a: Counters, b: Counters): Counters {
    Counters(a.docsRead + b.docsRead, a.docsWritten + b.docsWritten,
             a.missingFound + b.missingFound, a.missingChecked + b.missingChecked)
  }

  datatype BatchResult = BatchResult(ok: bool, since: Token, pending: nat, changes: nat, counters: Counters, known: Known)

  /** One batch. `later` is the source as the documents are fetched. */
  function Batch(s: Source, later: Source, known: Known, since: Token, f: BatchFaults): BatchResult {
    if f.changes then BatchResult(false, since, 0, 0, NOTHING, known)
    else
      var c := GetChanges(s, since, BATCH_SIZE);
      var wanted := Listed(c.results);
      var n := |c.results|;
      if wanted == {} then BatchResult(true, c.lastSeq, c.pending, n, NOTHING, known)
      else if f.diff then BatchResult(false, since, 0, n, Counters(0, 0, |IdsOf(wanted)|, 0), known)
      else
        var missing := wanted - known;
        var checked := Counters(0, 0, |IdsOf(wanted)|, |IdsOf(missing)|);
        if missing == {} then BatchResult(true, c.lastSeq, c.pending, n, checked, known)
        else if f.get then BatchResult(false, since, 0, n, checked, known)
        else
          Written(BulkGet(later, missing), c, known, since, f, checked)
  }

  /** The last step of a batch: the documents that were read go to the target. */
  function Written(docs: set<Sent>, c: Changes, known: Known, since: Token, f: BatchFaults, checked: Counters): BatchResult {
    var n, read := |c.results|, checked.(docsRead := |docs|);
    if docs == {} then BatchResult(true, c.lastSeq, c.pending, n, read, known)
    else if f.docs.Some? then
      BatchResult(false, since, 0, n, read, known + (Delivered({}, docs) * f.docs.value))
    else BatchResult(true, c.lastSeq, c.pending, n, read.(docsWritten := |docs|), Delivered(known, docs))
  }

  /******* Checkpoints *******/

  predicate InHistory(history: seq<Recorded>, session: nat) {
    exists k :: 0 <= k < |history| && history[k].session == session
  }

  /** The first source entry of a session the target recorded too. */
  function CommonIn(source: seq<Recorded>, target: seq<Recorded>): Token {
    if source == [] then None
    else if source[0].recorded.Some? && InHistory(target, source[0].session) then source[0].recorded
    else CommonIn(source[1..], target)
  }

  /** Where to resume, given which of the two reads succeed. */
  function Load(s: Option<Checkpoint>, t: Option<Checkpoint>, readSource: bool, readTarget: bool): Token {
    if !readSource || s.None? || !readTarget || t.None? then None
    else if s.value.session == t.value.session && s.value.lastSeq.Some? then s.value.lastSeq
    else CommonIn(s.value.history, t.value.history)
  }

  /** A save whose read may fail, losing the history, and whose write may not land. */
  function Saved(old': Option<Checkpoint>, read: bool, lands: bool, session: nat, since: Token): Option<Checkpoint> {
    if !lands then old'
    else Some(Checkpoint(session, since, (if read && old'.Some? then old'.value.history else []) + [Recorded(session, since)]))
  }

  datatype SaveFaults = SaveFaults(readSource: bool, landsSource: bool, readTarget: bool, landsTarget: bool)

  /******* Runs *******/

  /** One pass of the loop: what fails, and what is written to the source before the
      documents are fetched and after the batch. */
  datatype Round = Round(batch: BatchFaults, save: SaveFaults, during: seq<Edit>, after: seq<Edit>)

  datatype Ending = Finished | Broken | Cancelled

  datatype World = World(source: Source, target: Target)

  function AfterBatch(w: World, since: Token, session: nat, r: Round): World {
    var later := EditedAll(w.source, r.during);
    var b := Batch(w.source, later, w.target.known, since, r.batch);
    var save := b.ok && b.since != since && b.since != None;
    var source := if save
                  then later.(checkpoint := Saved(later.checkpoint, r.save.readSource, r.save.landsSource, session, b.since))
                  else later;
    var target := if save
                  then Target(b.known, Saved(w.target.checkpoint, r.save.readTarget, r.save.landsTarget, session, b.since))
                  else w.target.(known := b.known);
    World(EditedAll(source, r.after), target)
  }

  function BatchOf(w: World, since: Token, r: Round): BatchResult {
    Batch(w.source, EditedAll(w.source, r.during), w.target.known, since, r.batch)
  }

  function NextSince(since: Token, b: BatchResult): Token {
    if b.ok && b.since != None then b.since else since
  }

  /** The loop from a given sequence on; out of rounds means cancelled. */
  function Loop(w: World, since: Token, session: nat, continuous: bool, rounds: seq<Round>, c: Counters)
    : (World, Ending, Counters)
    decreases rounds
  {
    if rounds == [] then (w, Cancelled, c)
    else
      var b := BatchOf(w, since, rounds[0]);
      var next := AfterBatch(w, since, session, rounds[0]);
      if !b.ok then (next, Broken, c)
      else if !continuous && (b.pending == 0 || b.changes == 0) then (next, Finished, Plus(c, b.counters))
      else Loop(next, NextSince(since, b), session, continuous, rounds[1..], Plus(c, b.counters))
  }

  /******* What a token promises *******/

  /** Every replicated document whose latest change is at n or before is on the target
      in all the revisions the change lists. */
  ghost predicate Reached(entries: seq<Entry>, known: Known, n: nat) {
    forall e, r {:trigger e in entries, r in e.revs} ::
      e in entries && e.seqNo <= n && e.id != [] && !IsLocal(e.id) && r in e.revs ==> (e.id, r) in known
  }

  /** What edits do to a source, as seen from below its last sequence. */
  ghost predicate Grown(s: Source, t: Source) {
    && ValidSource(t) && s.last <= t.last && s.checkpoint == t.checkpoint
    && forall e {:trigger e in t.entries} :: e in t.entries && e.seqNo <= s.last ==> e in s.entries
  }

  lemma OrderedSnoc(entries: seq<Entry>, e: Entry)
    requires Ordered(entries) && forall x :: x in entries ==> x.seqNo < e.seqNo && x.id != e.id
    ensures Ordered(entries + [e])
  {
  }

  lemma {:induction false} WithoutKeeps(entries: seq<Entry>, id: Bytes)
    requires Ordered(entries)
    ensures Ordered(Without(entries, id))
  {
    if entries != [] {
      var n := |entries| - 1;
      WithoutKeeps(entries[..n], id);
      if entries[n].id != id {
        forall x | x in Without(entries[..n], id) ensures x.seqNo < entries[n].seqNo && x.id != entries[n].id {
          assert x in entries[..n];
        }
        OrderedSnoc(Without(entries[..n], id), entries[n]);
      }
    }
  }

  lemma EditGrows(s: Source, e: Edit)
    requires ValidSource(s)
    ensures Grown(s, Edited(s, e))
  {
    WithoutKeeps(s.entries, e.id);
    OrderedSnoc(Without(s.entries, e.id), Entry(s.last + 1, e.id, e.revs, e.ancestors));
  }

  lemma {:induction false} EditsGrow(s: Source, es: seq<Edit>)
    requires ValidSource(s)
    ensures Grown(s, EditedAll(s, es))
    decreases es
  {
    if es != [] {
      EditGrows(s, es[0]);
      EditsGrow(Edited(s, es[0]), es[1..]);
    }
  }

  lemma ReachedLater(s: Source, t: Source, known: Known, more: Known, n: nat)
    requires Grown(s, t) && n <= s.last && Reached(s.entries, known, n) && known <= more
    ensures Reached(t.entries, more, n)
  {
  }

  lemma {:induction false} AfterExact(entries: seq<Entry>, n: nat)
    requires Ordered(entries)
    ensures forall e :: e in After(entries, n) <==> e in entries && e.seqNo > n
    ensures Ordered(After(entries, n))
  {
    if entries != [] {
      assert entries == [entries[0]] + entries[1..];
      if entries[0].seqNo <= n {
        AfterExact(entries[1..], n);
      } else {
        forall e | e in entries ensures e.seqNo > n { FirstLowest(entries, e); }
      }
    }
  }

  lemma FirstLowest(entries: seq<Entry>, e: Entry)
    requires Ordered(entries) && e in entries
    ensures entries[0].seqNo <= e.seqNo
  {
  }

  /** A cut of an ordered list is cut at a sequence. */
  lemma CutAt(all: seq<Entry>, n: nat, e: Entry)
    requires Ordered(all) && 0 < n <= |all| && e in all
    ensures e in all[..n] <==> e.seqNo <= all[n - 1].seqNo
  {
    var i :| 0 <= i < |all| && all[i] == e;
    if i < n { assert all[..n][i] == e; }
    if e in all[..n] {
      var j :| 0 <= j < n && all[..n][j] == e;
      assert all[j] == e;
    }
  }

  /** The page holds every change after the token up to the sequence it reports. */
  lemma PageComplete(s: Source, since: Token, limit: nat, e: Entry)
    requires ValidSource(s) && limit > 0 && e in s.entries
    ensures var c := GetChanges(s, since, limit);
            && (Pos(since) < e.seqNo <= Pos(c.lastSeq) <==> e in c.results)
            && (c.pending == 0 && e.seqNo > Pos(since) ==> e in c.results)
  {
    var all, c := After(s.entries, Pos(since)), GetChanges(s, since, limit);
    AfterExact(s.entries, Pos(since));
    if c.results != [] {
      assert c.results == all[..|c.results|];
      if e in all { CutAt(all, |c.results|, e); }
    }
  }

  lemma PageAdvances(s: Source, since: Token, limit: nat)
    requires ValidSource(s) && limit > 0 && Pos(since) <= s.last
    ensures var c := GetChanges(s, since, limit);
            Pos(since) <= Pos(c.lastSeq) <= s.last && (c.results != [] ==> Pos(since) < Pos(c.lastSeq))
  {
    var all, c := After(s.entries, Pos(since)), GetChanges(s, since, limit);
    AfterExact(s.entries, Pos(since));
    if c.results != [] { assert all[|c.results| - 1] in all; }
  }

  /******* Soundness of a batch *******/

  ghost function MissingIn(s: Source, known: Known, since: Token): Known {
    Listed(GetChanges(s, since, BATCH_SIZE).results) - known
  }

  lemma DeliveredNothing(known: Known, s: Source)
    ensures BulkGet(s, {}) == {} && Delivered(known, {}) == known
  {
  }

  /** How a batch can end. */
  lemma BatchShape(s: Source, later: Source, known: Known, since: Token, f: BatchFaults)
    ensures var b, docs := Batch(s, later, known, since, f), BulkGet(later, MissingIn(s, known, since));
            && known <= b.known
            && b.since == (if b.ok then GetChanges(s, since, BATCH_SIZE).lastSeq else since)
            && (b.ok ==> b.known == Delivered(known, docs))
  {
    var c, missing := GetChanges(s, since, BATCH_SIZE), MissingIn(s, known, since);
    DeliveredNothing(known, later);
    assert {} - known == {};
    WrittenShape(BulkGet(later, missing), c, known, since, f,
                 Counters(0, 0, |IdsOf(Listed(c.results))|, |IdsOf(missing)|));
  }

  lemma WrittenShape(docs: set<Sent>, c: Changes, known: Known, since: Token, f: BatchFaults, checked: Counters)
    ensures var b := Written(docs, c, known, since, f, checked);
            && known <= b.known
            && b.since == (if b.ok then c.lastSeq else since)
            && (b.ok ==> b.known == Delivered(known, docs))
  {
    if docs == {} { assert Delivered(known, {}) == known; }
  }

  /** A revision on the page that is still current is on the target after the batch. */
  lemma PageDelivered(s: Source, later: Source, known: Known, since: Token, e: Entry, r: Bytes)
    requires e in later.entries && Replicable(e.id) && r in e.revs
    requires e in GetChanges(s, since, BATCH_SIZE).results
    ensures (e.id, r) in Delivered(known, BulkGet(later, MissingIn(s, known, since)))
  {
    if (e.id, r) !in known {
      assert (e.id, r) in MissingIn(s, known, since);
      var d := Sent(e.id, r, e.ancestors);
      assert d in BulkGet(later, MissingIn(s, known, since));
    }
  }

  /** After a batch everything up to the sequence it reports is on the target; a
      failed batch takes nothing away. */
  lemma BatchReaches(s: Source, later: Source, known: Known, since: Token, f: BatchFaults)
    requires ValidSource(s) && Grown(s, later) && Pos(since) <= s.last && Reached(s.entries, known, Pos(since))
    ensures var b := Batch(s, later, known, since, f);
            && known <= b.known && Reached(later.entries, b.known, Pos(since))
            && (b.ok ==> Pos(since) <= Pos(b.since) <= s.last && Reached(later.entries, b.known, Pos(b.since)))
  {
    var b := Batch(s, later, known, since, f);
    BatchShape(s, later, known, since, f);
    PageAdvances(s, since, BATCH_SIZE);
    ReachedLater(s, later, known, b.known, Pos(since));
    if b.ok { PageReaches(s, later, known, since, b.known, GetChanges(s, since, BATCH_SIZE).lastSeq); }
  }

  lemma PageReaches(s: Source, later: Source, known: Known, since: Token, after: Known, upTo: Token)
    requires ValidSource(s) && Grown(s, later) && Reached(later.entries, after, Pos(since))
    requires after == Delivered(known, BulkGet(later, MissingIn(s, known, since)))
    requires upTo == GetChanges(s, since, BATCH_SIZE).lastSeq && Pos(upTo) <= s.last
    ensures Reached(later.entries, after, Pos(upTo))
  {
    forall e, r | e in later.entries && e.seqNo <= Pos(upTo) && Replicable(e.id) && r in e.revs
      ensures (e.id, r) in after
    {
      if e.seqNo > Pos(since) {
        assert e in s.entries;
        PageComplete(s, since, BATCH_SIZE, e);
        PageDelivered(s, later, known, since, e, r);
      }
    }
  }

  /******* Soundness of checkpoints *******/

  /** The checkpoint says that the session recorded this token. */
  ghost predicate Claims(cp: Option<Checkpoint>, session: nat, t: Token) {
    cp.Some? && ((cp.value.session == session && cp.value.lastSeq == t) || Recorded(session, t) in cp.value.history)
  }

  ghost predicate Mentions(cp: Option<Checkpoint>, session: nat) {
    exists t :: Claims(cp, session, t)
  }

  /** Whatever the source recorded in a session that the present target knows of is
      on the target. */
  ghost predicate Sound(w: World) {
    && ValidSource(w.source)
    && (forall session, t {:trigger Claims(w.source.checkpoint, session, t)} :: Claims(w.source.checkpoint, session, t) ==>
          Pos(t) <= w.source.last
          && (Mentions(w.target.checkpoint, session) ==> Reached(w.source.entries, w.target.known, Pos(t))))
  }

  lemma {:induction false} CommonClaimed(source: seq<Recorded>, target: seq<Recorded>)
    requires CommonIn(source, target).Some?
    ensures exists k, l :: 0 <= k < |source| && 0 <= l < |target| && source[k].session == target[l].session
              && source[k].recorded == CommonIn(source, target)
  {
    if source[0].recorded.Some? && InHistory(target, source[0].session) {
      var l :| 0 <= l < |target| && target[l].session == source[0].session;
      assert source[0].session == target[l].session;
    } else {
      CommonClaimed(source[1..], target);
      var k, l :| 0 <= k < |source| - 1 && 0 <= l < |target| && source[1..][k].session == target[l].session
                  && source[1..][k].recorded == CommonIn(source[1..], target);
      assert source[k + 1].session == target[l].session;
    }
  }

  /** The token resumed from was recorded in a session both sides know. */
  lemma LoadClaimed(s: Option<Checkpoint>, t: Option<Checkpoint>, readSource: bool, readTarget: bool)
    ensures var since := Load(s, t, readSource, readTarget);
            since.Some? ==> exists session :: Claims(s, session, since) && Mentions(t, session)
  {
    var since := Load(s, t, readSource, readTarget);
    if since.Some? {
      if s.value.session == t.value.session && s.value.lastSeq.Some? {
        assert Claims(s, s.value.session, since) && Claims(t, s.value.session, t.value.lastSeq);
      } else {
        CommonClaimed(s.value.history, t.value.history);
        var k, l :| 0 <= k < |s.value.history| && 0 <= l < |t.value.history|
                    && s.value.history[k].session == t.value.history[l].session && s.value.history[k].recorded == since;
        assert s.value.history[k] in s.value.history && t.value.history[l] in t.value.history;
        assert Claims(s, s.value.history[k].session, since);
        assert Claims(t, s.value.history[k].session, t.value.history[l].recorded);
      }
    }
  }

  /** Whatever loading a checkpoint returns, everything up to it is on the target. */
  lemma LoadSound(w: World, readSource: bool, readTarget: bool)
    requires Sound(w)
    ensures var since := Load(w.source.checkpoint, w.target.checkpoint, readSource, readTarget);
            Pos(since) <= w.source.last && Reached(w.source.entries, w.target.known, Pos(since))
  {
    LoadClaimed(w.source.checkpoint, w.target.checkpoint, readSource, readTarget);
  }

  /** Also during a run, where the session under way may have recorded more. */
  ghost predicate Running(w: World, since: Token, session: nat) {
    && Sound(w) && Pos(since) <= w.source.last && Reached(w.source.entries, w.target.known, Pos(since))
    && forall t :: Claims(w.source.checkpoint, session, t) ==> Reached(w.source.entries, w.target.known, Pos(t))
  }

  /** More on the target, more written to the source. */
  lemma GrownRunning(w: World, w': World, since: Token, session: nat)
    requires Running(w, since, session) && Grown(w.source, w'.source) && w.target.known <= w'.target.known
    requires w'.target.checkpoint == w.target.checkpoint
    ensures Running(w', since, session)
  {
    ReachedLater(w.source, w'.source, w.target.known, w'.target.known, Pos(since));
    forall s, t | Claims(w'.source.checkpoint, s, t)
      ensures Pos(t) <= w'.source.last
      ensures Mentions(w'.target.checkpoint, s) || s == session ==> Reached(w'.source.entries, w'.target.known, Pos(t))
    {
      assert Claims(w.source.checkpoint, s, t);
      if Mentions(w'.target.checkpoint, s) || s == session {
        ReachedLater(w.source, w'.source, w.target.known, w'.target.known, Pos(t));
      }
    }
  }

  lemma SavedClaims(cp: Option<Checkpoint>, read: bool, lands: bool, session: nat, since: Token, s: nat, t: Token)
    requires Claims(Saved(cp, read, lands, session, since), s, t)
    ensures Claims(cp, s, t) || (s == session && t == since)
  {
  }

  /** Saving at either side, or at only one of them, keeps the promise. */
  lemma SavedRunning(w: World, since: Token, session: nat, f: SaveFaults)
    requires Running(w, since, session)
    ensures Running(World(w.source.(checkpoint := Saved(w.source.checkpoint, f.readSource, f.landsSource, session, since)),
                          w.target.(checkpoint := Saved(w.target.checkpoint, f.readTarget, f.landsTarget, session, since))),
                    since, session)
  {
    var cs := Saved(w.source.checkpoint, f.readSource, f.landsSource, session, since);
    var ct := Saved(w.target.checkpoint, f.readTarget, f.landsTarget, session, since);
    forall s, t | Claims(cs, s, t)
      ensures Pos(t) <= w.source.last
      ensures Mentions(ct, s) || s == session ==> Reached(w.source.entries, w.target.known, Pos(t))
    {
      SavedClaims(w.source.checkpoint, f.readSource, f.landsSource, session, since, s, t);
      if u :| Claims(ct, s, u) {
        SavedClaims(w.target.checkpoint, f.readTarget, f.landsTarget, session, since, s, u);
      }
    }
  }

  /** One pass of the loop, whatever fails in it. */
  lemma RoundRunning(w: World, since: Token, session: nat, r: Round)
    requires Running(w, since, session)
    ensures Running(AfterBatch(w, since, session, r), NextSince(since, BatchOf(w, since, r)), session)
  {
    var later, b := EditedAll(w.source, r.during), BatchOf(w, since, r);
    EditsGrow(w.source, r.during);
    BatchReaches(w.source, later, w.target.known, since, r.batch);
    var w1 := World(later, w.target.(known := b.known));
    GrownRunning(w, w1, since, session);
    var next := NextSince(since, b);
    assert Running(w1, next, session);
    SavedRunning(w1, next, session, r.save);
    var w2 := AfterBatch(w, since, session, r.(after := []));
    assert Running(w2, next, session);
    EditsGrow(w2.source, r.after);
    GrownRunning(w2, AfterBatch(w, since, session, r), next, session);
  }

  lemma {:induction false} LoopRunning(w: World, since: Token, session: nat, continuous: bool, rounds: seq<Round>, c: Counters)
    requires Running(w, since, session)
    ensures Sound(Loop(w, since, session, continuous, rounds, c).0)
    decreases rounds
  {
    if rounds != [] {
      var b := BatchOf(w, since, rounds[0]);
      RoundRunning(w, since, session, rounds[0]);
      LoopRunning(AfterBatch(w, since, session, rounds[0]), NextSince(since, b), session, continuous, rounds[1..],
                  Plus(c, b.counters));
    }
  }

  /******* Every history of runs *******/

  /** What happens to the two peers over time. Runs do not overlap, and each has a
      session of its own; the target is created anew only between them. */
  datatype Event =
    | Written(edit: Edit)
    | Learned(revs: Known)
    | Recreated
    | Replicated(readSource: bool, readTarget: bool, continuous: bool, rounds: seq<Round>)

  function RunOnce(w: World, session: nat, readSource: bool, readTarget: bool, continuous: bool, rounds: seq<Round>)
    : (World, Ending, Counters)
  {
    Loop(w, Load(w.source.checkpoint, w.target.checkpoint, readSource, readTarget), session, continuous, rounds, NOTHING)
  }

  function Happen(w: World, clock: nat, ev: Event): World {
    match ev
    case Written(e) => w.(source := Edited(w.source, e))
    case Learned(revs) => w.(target := w.target.(known := w.target.known + revs))
    case Recreated => w.(target := Target({}, None))
    case Replicated(readSource, readTarget, continuous, rounds) =>
      RunOnce(w, clock, readSource, readTarget, continuous, rounds).0
  }

  function History(w: World, clock: nat, evs: seq<Event>): World
    decreases evs
  {
    if evs == [] then w else History(Happen(w, clock, evs[0]), clock + 1, evs[1..])
  }

  ghost predicate ClaimsBefore(cp: Option<Checkpoint>, clock: nat) {
    forall session: nat, t {:trigger Claims(cp, session, t)} :: Claims(cp, session, t) ==> session < clock
  }

  lemma {:induction false} EditsKeepCheckpoint(s: Source, es: seq<Edit>)
    ensures EditedAll(s, es).checkpoint == s.checkpoint
    decreases es
  {
    if es != [] { EditsKeepCheckpoint(Edited(s, es[0]), es[1..]); }
  }

  lemma SavedBefore(cp: Option<Checkpoint>, read: bool, lands: bool, session: nat, since: Token)
    requires ClaimsBefore(cp, session + 1)
    ensures ClaimsBefore(Saved(cp, read, lands, session, since), session + 1)
  {
    forall s: nat, t | Claims(Saved(cp, read, lands, session, since), s, t) ensures s < session + 1 {
      SavedClaims(cp, read, lands, session, since, s, t);
    }
  }

  lemma RoundCheckpoint(w: World, since: Token, session: nat, r: Round)
    ensures var cp := AfterBatch(w, since, session, r).source.checkpoint;
            cp == w.source.checkpoint
            || cp == Saved(w.source.checkpoint, r.save.readSource, r.save.landsSource, session, BatchOf(w, since, r).since)
  {
    EditsKeepCheckpoint(w.source, r.during);
    EditsKeepCheckpoint(AfterBatch(w, since, session, r.(after := [])).source, r.after);
  }

  lemma {:induction false} LoopClaims(w: World, since: Token, session: nat, continuous: bool, rounds: seq<Round>, c: Counters)
    requires ClaimsBefore(w.source.checkpoint, session + 1)
    ensures ClaimsBefore(Loop(w, since, session, continuous, rounds, c).0.source.checkpoint, session + 1)
    decreases rounds
  {
    if rounds != [] {
      var r, b := rounds[0], BatchOf(w, since, rounds[0]);
      RoundCheckpoint(w, since, session, r);
      SavedBefore(w.source.checkpoint, r.save.readSource, r.save.landsSource, session, b.since);
      LoopClaims(AfterBatch(w, since, session, r), NextSince(since, b), session, continuous, rounds[1..], Plus(c, b.counters));
    }
  }

  lemma HappenSound(w: World, clock: nat, ev: Event)
    requires Sound(w) && ClaimsBefore(w.source.checkpoint, clock)
    ensures Sound(Happen(w, clock, ev)) && ClaimsBefore(Happen(w, clock, ev).source.checkpoint, clock + 1)
  {
    var w' := Happen(w, clock, ev);
    match ev
    case Written(e) =>
      EditGrows(w.source, e);
      GrownSound(w, w');
    case Learned(_) => GrownSound(w, w');
    case Recreated =>
    case Replicated(readSource, readTarget, continuous, rounds) =>
      var since := Load(w.source.checkpoint, w.target.checkpoint, readSource, readTarget);
      LoadSound(w, readSource, readTarget);
      assert Running(w, since, clock);
      LoopRunning(w, since, clock, continuous, rounds, NOTHING);
      LoopClaims(w, since, clock, continuous, rounds, NOTHING);
  }

  lemma GrownSound(w: World, w': World)
    requires Sound(w) && Grown(w.source, w'.source) && w.target.known <= w'.target.known
    requires w'.target.checkpoint == w.target.checkpoint
    ensures Sound(w')
  {
    forall s, t | Claims(w'.source.checkpoint, s, t)
      ensures Pos(t) <= w'.source.last
      ensures Mentions(w'.target.checkpoint, s) ==> Reached(w'.source.entries, w'.target.known, Pos(t))
    {
      assert Claims(w.source.checkpoint, s, t);
      if Mentions(w'.target.checkpoint, s) {
        ReachedLater(w.source, w'.source, w.target.known, w'.target.known, Pos(t));
      }
    }
  }

  /** Over every history of edits, failing batches, checkpoint saves that are lost on
      either side and targets created anew, whatever sequence a later run resumes
      from, every change at or below it is on the target. */
  lemma CheckpointSound(w: World, clock: nat, evs: seq<Event>, readSource: bool, readTarget: bool)
    requires ValidSource(w.source) && w.source.checkpoint.None?
    ensures var now := History(w, clock, evs);
            var since := Load(now.source.checkpoint, now.target.checkpoint, readSource, readTarget);
            Pos(since) <= now.source.last && Reached(now.source.entries, now.target.known, Pos(since))
  {
    HistoryClaims(w, clock, evs);
    LoadSound(History(w, clock, evs), readSource, readTarget);
  }

  /******* A quiet source *******/

  ghost predicate Quiet(rounds: seq<Round>) {
    forall r :: r in rounds ==> r.during == [] && r.after == []
  }

  predicate Faultless(f: BatchFaults) {
    !f.changes && !f.diff && !f.get && f.docs.None?
  }

  ghost predicate AllThere(entries: seq<Entry>, known: Known) {
    Listed(entries) <= known
  }

  lemma QuietNext(w: World, since: Token, session: nat, r: Round)
    requires r.during == [] && r.after == []
    ensures var next := AfterBatch(w, since, session, r);
            next.source.entries == w.source.entries && next.source.last == w.source.last
            && next.target.known == BatchOf(w, since, r).known
  {
  }

  /** The pass that ends the loop leaves nothing behind. */
  lemma LastPass(s: Source, known: Known, since: Token, f: BatchFaults)
    requires ValidSource(s) && Pos(since) <= s.last && Reached(s.entries, known, Pos(since))
    requires var b := Batch(s, s, known, since, f); b.ok && (b.pending == 0 || b.changes == 0)
    ensures AllThere(s.entries, Batch(s, s, known, since, f).known)
  {
    var b, c := Batch(s, s, known, since, f), GetChanges(s, since, BATCH_SIZE);
    BatchShape(s, s, known, since, f);
    EndsHere(s, known, since, f);
    forall e, r | e in s.entries && Replicable(e.id) && r in e.revs ensures (e.id, r) in b.known {
      if e.seqNo > Pos(since) {
        PageComplete(s, since, BATCH_SIZE, e);
        PageDelivered(s, s, known, since, e, r);
      }
    }
  }

  lemma EndsHere(s: Source, known: Known, since: Token, f: BatchFaults)
    requires var b := Batch(s, s, known, since, f); b.ok && (b.pending == 0 || b.changes == 0)
    ensures GetChanges(s, since, BATCH_SIZE).pending == 0
  {
  }

  /** A one-shot run that comes to its end without an error has put every document of
      a quiet source on the target. */
  lemma {:induction false} FinishedComplete(w: World, since: Token, session: nat, rounds: seq<Round>, c: Counters)
    requires Running(w, since, session) && Quiet(rounds)
    requires Loop(w, since, session, false, rounds, c).1 == Finished
    ensures var done := Loop(w, since, session, false, rounds, c).0;
            done.source.entries == w.source.entries && AllThere(w.source.entries, done.target.known)
    decreases rounds
  {
    assert rounds[0] in rounds;
    var b := BatchOf(w, since, rounds[0]);
    QuietNext(w, since, session, rounds[0]);
    if b.pending == 0 || b.changes == 0 {
      LastPass(w.source, w.target.known, since, rounds[0].batch);
    } else {
      RoundRunning(w, since, session, rounds[0]);
      FinishedComplete(AfterBatch(w, since, session, rounds[0]), NextSince(since, b), session, rounds[1..],
                       Plus(c, b.counters));
    }
  }

  /******* Termination, and what is written *******/

  lemma {:induction false} AfterAt(all: seq<Entry>, k: nat)
    requires Ordered(all) && 0 < k <= |all|
    ensures After(all, all[k - 1].seqNo) == all[k..]
  {
    FirstLowest(all, all[k - 1]);
    if k == 1 {
      if |all| > 1 { assert all[1..][0] == all[1]; }
    } else {
      assert all[1..][k - 2] == all[k - 1];
      AfterAt(all[1..], k - 1);
    }
  }

  lemma {:induction false} AfterTwice(entries: seq<Entry>, n: nat, m: nat)
    requires n <= m
    ensures After(After(entries, n), m) == After(entries, m)
  {
    if entries != [] && entries[0].seqNo <= n { AfterTwice(entries[1..], n, m); }
  }

  /** What follows the reported sequence is what was left pending. */
  lemma PendingLeft(s: Source, since: Token)
    requires ValidSource(s) && Pos(since) <= s.last
    ensures var all, c := After(s.entries, Pos(since)), GetChanges(s, since, BATCH_SIZE);
            all == c.results + After(s.entries, Pos(c.lastSeq)) && |After(s.entries, Pos(c.lastSeq))| == c.pending
  {
    var all, c := After(s.entries, Pos(since)), GetChanges(s, since, BATCH_SIZE);
    AfterExact(s.entries, Pos(since));
    PageAdvances(s, since, BATCH_SIZE);
    CutLeft(all, since, BATCH_SIZE, c, After(all, Pos(c.lastSeq)));
    AfterTwice(s.entries, Pos(since), Pos(c.lastSeq));
  }

  lemma CutLeft(all: seq<Entry>, since: Token, limit: nat, c: Changes, rest: seq<Entry>)
    requires Ordered(all) && limit > 0 && c == Cut(all, since, limit) && rest == After(all, Pos(c.lastSeq))
    ensures all == c.results + rest && |rest| == c.pending
  {
    var k := |c.results|;
    assert c.results == all[..k];
    if k > 0 { AfterAt(all, k); }
  }

  /** The revisions after a token that the target lacks. */
  ghost function Lacking(s: Source, known: Known, since: Token): Known {
    Listed(After(s.entries, Pos(since))) - known
  }

  lemma OtherIds(all: seq<Entry>, k: nat, d: Entry, e: Entry)
    requires Ordered(all) && k <= |all| && d in all[..k] && e in all[k..]
    ensures d.id != e.id
  {
    var i :| 0 <= i < k && all[..k][i] == d;
    var j :| 0 <= j < |all| - k && all[k..][j] == e;
    assert all[i] == d && all[k + j] == e;
  }

  /** Delivering a page's missing documents leaves the later ones as missing as they were. */
  lemma LackingSplits(s: Source, known: Known, since: Token)
    requires ValidSource(s) && Pos(since) <= s.last
    ensures var more := Delivered(known, BulkGet(s, MissingIn(s, known, since)));
            |Lacking(s, known, since)|
            == |MissingIn(s, known, since)| + |Lacking(s, more, GetChanges(s, since, BATCH_SIZE).lastSeq)|
  {
    var c, missing := GetChanges(s, since, BATCH_SIZE), MissingIn(s, known, since);
    var all, rest := After(s.entries, Pos(since)), After(s.entries, Pos(c.lastSeq));
    PendingLeft(s, since);
    PageApart(s, since);
    ListedApart(c.results, rest);
    ListedJoin(c.results, rest);
    DeliveredAbout(s, known, missing);
    LeftOver(known, Delivered(known, BulkGet(s, missing)), Listed(c.results), Listed(rest));
  }

  ghost predicate IdsApart(a: Known, b: Known) {
    forall p, q :: p in a && q in b ==> p.0 != q.0
  }

  lemma ListedApart(page: seq<Entry>, rest: seq<Entry>)
    requires forall d, e :: d in page && e in rest ==> d.id != e.id
    ensures IdsApart(Listed(page), Listed(rest))
  {
  }

  lemma ListedJoin(page: seq<Entry>, rest: seq<Entry>)
    ensures Listed(page + rest) == Listed(page) + Listed(rest)
  {
  }

  /** A delivery adds revisions of the documents asked for only. */
  lemma DeliveredAbout(s: Source, known: Known, missing: Known)
    ensures var more := Delivered(known, BulkGet(s, missing));
            known <= more && forall p :: p in more && p !in known ==> exists q :: q in missing && q.0 == p.0
  {
    var more := Delivered(known, BulkGet(s, missing));
    forall p | p in more && p !in known ensures exists q :: q in missing && q.0 == p.0 {
      var d :| d in BulkGet(s, missing) && d.id == p.0;
      assert (d.id, d.rev) in missing;
    }
  }

  lemma LeftOver(known: Known, more: Known, page: Known, rest: Known)
    requires IdsApart(page, rest) && known <= more
    requires forall p :: p in more && p !in known ==> exists q :: q in page - known && q.0 == p.0
    ensures |page + rest - known| == |page - known| + |rest - more|
  {
    assert rest - more == rest - known;
    forall p | p in page ensures p !in rest { }
    assert page + rest - known == (page - known) + (rest - known);
  }

  /** One document a missing revision. */
  lemma BulkGetsAll(s: Source, missing: Known)
    requires ValidSource(s) && forall p :: p in missing ==> exists e :: e in s.entries && p.1 in e.revs && p.0 == e.id
    ensures |BulkGet(s, missing)| == |missing|
  {
    var docs := BulkGet(s, missing);
    forall d, d' | d in docs && d' in docs && d.id == d'.id ensures d.ancestors == d'.ancestors {
      var e :| e in s.entries && d == Sent(e.id, d.rev, e.ancestors);
      var e' :| e' in s.entries && d' == Sent(e'.id, d'.rev, e'.ancestors);
      SameId(s.entries, e, e');
    }
    forall p | p in missing ensures exists d :: d in docs && (d.id, d.rev) == p {
      var e :| e in s.entries && p.1 in e.revs && p.0 == e.id;
      assert Sent(e.id, p.1, e.ancestors) in docs;
    }
    OneEach(docs, missing);
  }

  lemma SameId(entries: seq<Entry>, a: Entry, b: Entry)
    requires Ordered(entries) && a in entries && b in entries && a.id == b.id
    ensures a == b
  {
  }

  lemma {:induction false} OneEach(docs: set<Sent>, revs: Known)
    requires forall d :: d in docs ==> (d.id, d.rev) in revs
    requires forall p :: p in revs ==> exists d :: d in docs && (d.id, d.rev) == p
    requires forall d, d' :: d in docs && d' in docs && d.id == d'.id ==> d.ancestors == d'.ancestors
    ensures |docs| == |revs|
    decreases docs
  {
    if docs == {} {
      assert revs == {};
    } else {
      var d :| d in docs;
      OneEach(docs - {d}, revs - {(d.id, d.rev)});
    }
  }

  /** A batch without faults writes the missing documents of its page and leaves the
      others as missing as they were. */
  lemma BatchWrites(s: Source, known: Known, since: Token, f: BatchFaults)
    requires ValidSource(s) && Pos(since) <= s.last && Faultless(f)
    ensures var b := Batch(s, s, known, since, f);
            && b.ok && b.counters.docsWritten == b.counters.docsRead == |MissingIn(s, known, since)|
            && |Lacking(s, known, since)| == |MissingIn(s, known, since)| + |Lacking(s, b.known, b.since)|
            && |After(s.entries, Pos(b.since))| == b.pending
            && (b.pending > 0 ==> b.changes > 0 && |After(s.entries, Pos(b.since))| < |After(s.entries, Pos(since))|)
            && b.since == GetChanges(s, since, BATCH_SIZE).lastSeq
  {
    BatchShape(s, s, known, since, f);
    PageHasMissing(s, known, since);
    BulkGetsAll(s, MissingIn(s, known, since));
    WritesAll(s, known, since, f);
    WrittenLeaves(s, known, since, Batch(s, s, known, since, f));
  }

  lemma WrittenLeaves(s: Source, known: Known, since: Token, b: BatchResult)
    requires ValidSource(s) && Pos(since) <= s.last
    requires var c := GetChanges(s, since, BATCH_SIZE);
             && b.since == c.lastSeq && b.pending == c.pending && b.changes == |c.results|
             && b.known == Delivered(known, BulkGet(s, MissingIn(s, known, since)))
    ensures |Lacking(s, known, since)| == |MissingIn(s, known, since)| + |Lacking(s, b.known, b.since)|
    ensures |After(s.entries, Pos(b.since))| == b.pending
    ensures b.pending > 0 ==> b.changes > 0 && |After(s.entries, Pos(b.since))| < |After(s.entries, Pos(since))|
  {
    PageShortens(s, since, GetChanges(s, since, BATCH_SIZE));
    LackingSplits(s, known, since);
  }

  lemma PageShortens(s: Source, since: Token, c: Changes)
    requires ValidSource(s) && Pos(since) <= s.last && c == GetChanges(s, since, BATCH_SIZE)
    ensures |After(s.entries, Pos(c.lastSeq))| == c.pending
    ensures c.pending > 0 ==> |c.results| > 0 && |After(s.entries, Pos(c.lastSeq))| < |After(s.entries, Pos(since))|
  {
    PendingLeft(s, since);
  }

  lemma PageHasMissing(s: Source, known: Known, since: Token)
    ensures forall p :: p in MissingIn(s, known, since) ==> exists e :: e in s.entries && p.1 in e.revs && p.0 == e.id
  {
    PageIn(s, since);
  }

  lemma PageIn(s: Source, since: Token)
    ensures forall e :: e in GetChanges(s, since, BATCH_SIZE).results ==> e in s.entries
  {
    var all, c := After(s.entries, Pos(since)), GetChanges(s, since, BATCH_SIZE);
    assert c.results == all[..|c.results|];
  }

  lemma PageApart(s: Source, since: Token)
    requires ValidSource(s) && Pos(since) <= s.last
    ensures var c := GetChanges(s, since, BATCH_SIZE);
            forall d, e :: d in c.results && e in After(s.entries, Pos(c.lastSeq)) ==> d.id != e.id
  {
    var all, c := After(s.entries, Pos(since)), GetChanges(s, since, BATCH_SIZE);
    var rest := After(s.entries, Pos(c.lastSeq));
    PendingLeft(s, since);
    AfterExact(s.entries, Pos(since));
    assert all[..|c.results|] == c.results && all[|c.results|..] == rest;
    forall d, e | d in c.results && e in rest ensures d.id != e.id { OtherIds(all, |c.results|, d, e); }
  }

  lemma WritesAll(s: Source, known: Known, since: Token, f: BatchFaults)
    requires Faultless(f) && |BulkGet(s, MissingIn(s, known, since))| == |MissingIn(s, known, since)|
    ensures var b := Batch(s, s, known, since, f);
            && b.ok && b.counters.docsWritten == b.counters.docsRead == |MissingIn(s, known, since)|
            && b.pending == GetChanges(s, since, BATCH_SIZE).pending
            && b.changes == |GetChanges(s, since, BATCH_SIZE).results|
  {
    assert {} - known == {};
  }

  ghost predicate NoFaults(rounds: seq<Round>) {
    forall r :: r in rounds ==> Faultless(r.batch) && r.during == [] && r.after == []
  }

  /** Without faults a one-shot run over a quiet source comes to its end in at most as
      many passes as there are changes, and one more; it writes each document the
      target lacks exactly once and no other. */
  lemma {:induction false} OneShot(w: World, since: Token, session: nat, rounds: seq<Round>, c: Counters)
    requires ValidSource(w.source) && Pos(since) <= w.source.last && NoFaults(rounds)
    requires |rounds| > |After(w.source.entries, Pos(since))|
    ensures var r := Loop(w, since, session, false, rounds, c);
            r.1 == Finished && r.2.docsWritten == c.docsWritten + |Lacking(w.source, w.target.known, since)|
    decreases rounds
  {
    assert rounds[0] in rounds;
    var b := BatchOf(w, since, rounds[0]);
    QuietNext(w, since, session, rounds[0]);
    BatchWrites(w.source, w.target.known, since, rounds[0].batch);
    PageAdvances(w.source, since, BATCH_SIZE);
    if b.pending == 0 || b.changes == 0 {
      assert After(w.source.entries, Pos(b.since)) == [];
    } else {
      OneShot(AfterBatch(w, since, session, rounds[0]), NextSince(since, b), session, rounds[1..], Plus(c, b.counters));
    }
  }

  /** Once everything is there, a run from wherever the checkpoint says writes nothing. */
  lemma SecondRunWritesNothing(w: World, since: Token, session: nat, rounds: seq<Round>)
    requires ValidSource(w.source) && Pos(since) <= w.source.last && NoFaults(rounds)
    requires |rounds| > |After(w.source.entries, Pos(since))| && AllThere(w.source.entries, w.target.known)
    ensures Loop(w, since, session, false, rounds, NOTHING).1 == Finished
    ensures Loop(w, since, session, false, rounds, NOTHING).2.docsWritten == 0
  {
    OneShot(w, since, session, rounds, NOTHING);
    AfterExact(w.source.entries, Pos(since));
    assert Lacking(w.source, w.target.known, since) == {};
  }

  lemma {:induction false} QuietKeepsEntries(w: World, since: Token, session: nat, continuous: bool, rounds: seq<Round>,
                                             c: Counters)
    requires Quiet(rounds)
    ensures var done := Loop(w, since, session, continuous, rounds, c).0;
            done.source.entries == w.source.entries && done.source.last == w.source.last
    decreases rounds
  {
    if rounds != [] {
      assert rounds[0] in rounds;
      QuietNext(w, since, session, rounds[0]);
      var b := BatchOf(w, since, rounds[0]);
      QuietKeepsEntries(AfterBatch(w, since, session, rounds[0]), NextSince(since, b), session, continuous, rounds[1..],
                        Plus(c, b.counters));
    }
  }

  /** A one-shot run over a quiet source, whatever else fails on the way, that comes
      to its end. */
  ghost predicate RunsTo(w: World, session: nat, done: World) {
    exists readSource, readTarget, rounds :: Quiet(rounds) && FinishesAt(w, session, readSource, readTarget, rounds, done)
  }

  ghost predicate FinishesAt(w: World, session: nat, readSource: bool, readTarget: bool, rounds: seq<Round>, done: World) {
    var r := RunOnce(w, session, readSource, readTarget, false, rounds);
    r.1 == Finished && r.0 == done
  }

  /** Every faultless run, whichever checkpoints it gets to see, ends and writes nothing. */
  ghost predicate WritesNothing(w: World, session: nat) {
    forall readSource, readTarget, rounds :: NoFaults(rounds) && |rounds| > |w.source.entries| ==>
      FinishesIdle(w, session, readSource, readTarget, rounds)
  }

  ghost predicate FinishesIdle(w: World, session: nat, readSource: bool, readTarget: bool, rounds: seq<Round>) {
    var r := RunOnce(w, session, readSource, readTarget, false, rounds);
    r.1 == Finished && r.2.docsWritten == 0
  }

  lemma FinishedRun(w: World, session: nat, done: World)
    requires Sound(w) && ClaimsBefore(w.source.checkpoint, session) && RunsTo(w, session, done)
    ensures Sound(done) && done.source.entries == w.source.entries && AllThere(w.source.entries, done.target.known)
  {
    var readSource, readTarget, rounds :|
      Quiet(rounds) && FinishesAt(w, session, readSource, readTarget, rounds, done);
    LoadSound(w, readSource, readTarget);
    var since := Load(w.source.checkpoint, w.target.checkpoint, readSource, readTarget);
    assert Running(w, since, session);
    FinishedComplete(w, since, session, rounds, NOTHING);
    LoopRunning(w, since, session, false, rounds, NOTHING);
    QuietKeepsEntries(w, since, session, false, rounds, NOTHING);
  }

  lemma RunOverNothing(w: World, session: nat)
    requires Sound(w) && AllThere(w.source.entries, w.target.known)
    ensures WritesNothing(w, session)
  {
    forall readSource, readTarget, rounds | NoFaults(rounds) && |rounds| > |w.source.entries|
      ensures FinishesIdle(w, session, readSource, readTarget, rounds)
    {
      LoadSound(w, readSource, readTarget);
      var since := Load(w.source.checkpoint, w.target.checkpoint, readSource, readTarget);
      AfterShorter(w.source.entries, Pos(since));
      SecondRunWritesNothing(w, since, session, rounds);
    }
  }

  /** A one-shot run that finishes has put everything on the target, and the run
      after it, from whatever checkpoint it finds, comes to its end and writes nothing. */
  ghost predicate OnceIsEnough(w: World, session: nat) {
    forall done :: RunsTo(w, session, done) ==>
      AllThere(w.source.entries, done.target.known) && WritesNothing(done, session + 1)
  }

  lemma FreshOnceEnough(w: World, session: nat)
    requires Sound(w) && ClaimsBefore(w.source.checkpoint, session)
    ensures OnceIsEnough(w, session)
  {
    forall done | RunsTo(w, session, done)
      ensures AllThere(w.source.entries, done.target.known) && WritesNothing(done, session + 1)
    {
      FinishedRun(w, session, done);
      RunOverNothing(done, session + 1);
    }
  }

  /** Whatever happened before. */
  lemma RunThenRunAgain(w: World, clock: nat, evs: seq<Event>, now: World, session: nat)
    requires ValidSource(w.source) && w.source.checkpoint.None?
    requires now == History(w, clock, evs) && session == clock + |evs|
    ensures OnceIsEnough(now, session)
  {
    HistoryFresh(w, clock, evs);
    FreshOnceEnough(now, session);
  }

  lemma HistoryFresh(w: World, clock: nat, evs: seq<Event>)
    requires ValidSource(w.source) && w.source.checkpoint.None?
    ensures var now := History(w, clock, evs);
            Sound(now) && ClaimsBefore(now.source.checkpoint, clock + |evs|)
  {
    HistoryClaims(w, clock, evs);
  }

  lemma {:induction false} AfterShorter(entries: seq<Entry>, n: nat)
    ensures |After(entries, n)| <= |entries|
  {
    if entries != [] && entries[0].seqNo <= n { AfterShorter(entries[1..], n); }
  }

  lemma {:induction false} HistoryClaims(w: World, clock: nat, evs: seq<Event>)
    requires Sound(w) && ClaimsBefore(w.source.checkpoint, clock)
    ensures Sound(History(w, clock, evs)) && ClaimsBefore(History(w, clock, evs).source.checkpoint, clock + |evs|)
    decreases evs
  {
    if evs != [] {
      HappenSound(w, clock, evs[0]);
      HistoryClaims(Happen(w, clock, evs[0]), clock + 1, evs[1..]);
    }
  }

  /******* The replicator *******/

  class Replicator {
    const session: nat
    const continuous: bool
    var source: Source
    var target: Target

    constructor (source: Source, target: Target, session: nat, continuous: bool)
      ensures this.source == source && this.target == target
      ensures this.session == session && this.continuous == continuous
    {
      this.source, this.target, this.session, this.continuous := source, target, session, continuous;
    }

    function Peers(): World
      reads this
    {
      World(source, target)
    }

    method LoadCheckpoint(readSource: bool, readTarget: bool) returns (since: Token)
      ensures since == Load(source.checkpoint, target.checkpoint, readSource, readTarget)
    {
      if !readSource || source.checkpoint.None? { return None; }
      if !readTarget || target.checkpoint.None? { return None; }
      var s, t := source.checkpoint.value, target.checkpoint.value;
      if s.session == t.session && s.lastSeq.Some? { return s.lastSeq; }
      for k := 0 to |s.history|
        invariant CommonIn(s.history, t.history) == CommonIn(s.history[k..], t.history)
      {
        assert s.history[k..][1..] == s.history[k + 1..];
        for l := 0 to |t.history|
          invariant s.history[k].recorded.Some? ==> forall m :: 0 <= m < l ==> t.history[m].session != s.history[k].session
        {
          if s.history[k].session == t.history[l].session && s.history[k].recorded.Some? {
            return s.history[k].recorded;
          }
        }
      }
      since := None;
    }

    method SaveCheckpoint(since: Token, f: SaveFaults)
      modifies this`source, this`target
      ensures source == old(source).(checkpoint := Saved(old(source).checkpoint, f.readSource, f.landsSource, session, since))
      ensures target == old(target).(checkpoint := Saved(old(target).checkpoint, f.readTarget, f.landsTarget, session, since))
    {
      var cs := SaveToOne(source.checkpoint, f.readSource, since);
      if f.landsSource { source := source.(checkpoint := Some(cs)); }
      var ct := SaveToOne(target.checkpoint, f.readTarget, since);
      if f.landsTarget { target := target.(checkpoint := Some(ct)); }
    }

    /** The checkpoint document for one peer: what history it could read, and the new entry. */
    method SaveToOne(existing: Option<Checkpoint>, read: bool, since: Token) returns (cp: Checkpoint)
      ensures Some(cp) == Saved(existing, read, true, session, since)
    {
      var history := [];
      if read && existing.Some? { history := existing.value.history; }
      history := history + [Recorded(session, since)];
      cp := Checkpoint(session, since, history);
    }

    method ReplicateBatch(since: Token, r: Round) returns (b: BatchResult)
      modifies this`source, this`target
      ensures b == BatchOf(old(Peers()), since, r)
      ensures source == EditedAll(old(source), r.during) && target == old(target).(known := b.known)
    {
      b := Transfer(source, EditedAll(source, r.during), target.known, since, r.batch);
      source := EditedAll(source, r.during);
      target := target.(known := b.known);
    }

    method Run(readSource: bool, readTarget: bool, rounds: seq<Round>) returns (ending: Ending, result: Counters)
      modifies this`source, this`target
      ensures (Peers(), ending, result) == RunOnce(old(Peers()), session, readSource, readTarget, continuous, rounds)
    {
      var since := LoadCheckpoint(readSource, readTarget);
      result := NOTHING;
      var i := 0;
      ghost var goal := Loop(Peers(), since, session, continuous, rounds, NOTHING);
      assert rounds[0..] == rounds;
      while i < |rounds|
        invariant 0 <= i <= |rounds|
        invariant goal == Loop(Peers(), since, session, continuous, rounds[i..], result)
      {
        LoopNext(Peers(), since, session, continuous, rounds, i, result);
        var ok, done, next, counters := Pass(since, rounds[i]);
        if !ok { return Broken, result; }
        result := Plus(result, counters);
        since := next;
        if done { return Finished, result; }
        i := i + 1;
      }
      ending := Cancelled;
    }

    /** One pass of the loop: a batch, and a checkpoint if the sequence moved. */
    method Pass(since: Token, r: Round) returns (ok: bool, done: bool, next: Token, counters: Counters)
      modifies this`source, this`target
      ensures Peers() == AfterBatch(old(Peers()), since, session, r)
      ensures var b := BatchOf(old(Peers()), since, r);
              && ok == b.ok && counters == b.counters && next == NextSince(since, b)
              && done == (!continuous && (b.pending == 0 || b.changes == 0))
    {
      var b := ReplicateBatch(since, r);
      next := since;
      if b.ok && b.since != since && b.since != None {
        next := b.since;
        SaveCheckpoint(next, r.save);
      }
      source := EditedAll(source, r.after);
      ok, counters, done := b.ok, b.counters, !continuous && (b.pending == 0 || b.changes == 0);
    }
  }

  lemma LoopNext(w: World, since: Token, session: nat, continuous: bool, rounds: seq<Round>, i: nat, c: Counters)
    requires i < |rounds|
    ensures var b := BatchOf(w, since, rounds[i]);
            var next := AfterBatch(w, since, session, rounds[i]);
            Loop(w, since, session, continuous, rounds[i..], c)
            == if !b.ok then (next, Broken, c)
               else if !continuous && (b.pending == 0 || b.changes == 0) then (next, Finished, Plus(c, b.counters))
               else Loop(next, NextSince(since, b), session, continuous, rounds[i + 1..], Plus(c, b.counters))
  {
    assert rounds[i..][1..] == rounds[i + 1..];
  }

  /** The calls of one batch, in order, each of which may fail. */
  method Transfer(s: Source, later: Source, known: Known, since: Token, f: BatchFaults) returns (b: BatchResult)
    ensures b == Batch(s, later, known, since, f)
  {
    if f.changes { return BatchResult(false, since, 0, 0, NOTHING, known); }
    var c := GetChanges(s, since, BATCH_SIZE);
    var n := |c.results|;
    var wanted := ListRevs(c.results);
    if wanted == {} { return BatchResult(true, c.lastSeq, c.pending, n, NOTHING, known); }
    var counters := NOTHING.(missingFound := |IdsOf(wanted)|);
    if f.diff { return BatchResult(false, since, 0, n, counters, known); }
    var missing := wanted - known;
    counters := counters.(missingChecked := |IdsOf(missing)|);
    if missing == {} { return BatchResult(true, c.lastSeq, c.pending, n, counters, known); }
    if f.get { return BatchResult(false, since, 0, n, counters, known); }
    var docs := BulkGet(later, missing);
    counters := counters.(docsRead := |docs|);
    if docs == {} { return BatchResult(true, c.lastSeq, c.pending, n, counters, known); }
    if f.docs.Some? {
      return BatchResult(false, since, 0, n, counters, known + (Delivered({}, docs) * f.docs.value));
    }
    counters := counters.(docsWritten := |docs|);
    b := BatchResult(true, c.lastSeq, c.pending, n, counters, Delivered(known, docs));
  }

  /** The revisions asked about, change by change. */
  method ListRevs(results: seq<Entry>) returns (wanted: Known)
    ensures wanted == Listed(results)
  {
    wanted := {};
    for i := 0 to |results|
      invariant wanted == Listed(results[..i])
    {
      assert results[..i + 1] == results[..i] + [results[i]];
      if !(results[i].id == [] || IsLocal(results[i].id)) {
        wanted := wanted + set r | r in results[i].revs :: (results[i].id, r);
      }
    }
    assert results[..|results|] == results;
  }
}
