/** Where a replication resumes: what loading a checkpoint finds, and what a run that
    saved its checkpoints spares the next one. */
module Checkpoints {
  import opened ByteStrings
  import opened Documents
  import opened Replication

  /******* What loading finds *******/

  ghost predicate BothThere(s: Option<Checkpoint>, t: Option<Checkpoint>, readSource: bool, readTarget: bool) {
    readSource && readTarget && s.Some? && t.Some?
  }

  /** The two were last saved in the same session, with a sequence at the source. */
  ghost predicate InStep(s: Checkpoint, t: Checkpoint) {
    s.session == t.session && s.lastSeq.Some?
  }

  /** The k-th entry of the source's history has a sequence, and its session is in
      the target's history. */
  ghost predicate Shared(s: Checkpoint, t: Checkpoint, k: int) {
    && 0 <= k < |s.history| && s.history[k].recorded.Some?
    && exists l :: 0 <= l < |t.history| && t.history[l].session == s.history[k].session
  }

  lemma {:induction false} CommonIs(s: Checkpoint, t: Checkpoint, n: nat)
    requires n <= |s.history| && forall j :: 0 <= j < n ==> !Shared(s, t, j)
    ensures var found := CommonIn(s.history[n..], t.history);
            if exists k :: Shared(s, t, k)
            then exists k :: Shared(s, t, k) && (forall j :: 0 <= j < k ==> !Shared(s, t, j)) && found == s.history[k].recorded
            else found == None
    decreases |s.history| - n
  {
    if n < |s.history| {
      assert s.history[n..][1..] == s.history[n + 1..];
      if InHistory(t.history, s.history[n].session) && s.history[n].recorded.Some? {
        assert Shared(s, t, n);
      } else {
        assert !Shared(s, t, n);
        CommonIs(s, t, n + 1);
      }
    }
  }

  /** Loading returns the sequence of the last session if both sides agree on it; else
      that of the first entry in the source's history that the target shares, which is
      the oldest; and nothing exactly if a side cannot be read or has no checkpoint, or
      there is no such entry either. */
  lemma LoadIs(s: Option<Checkpoint>, t: Option<Checkpoint>, readSource: bool, readTarget: bool)
    ensures var since, both := Load(s, t, readSource, readTarget), BothThere(s, t, readSource, readTarget);
            && (since == None <==> !both || (!InStep(s.value, t.value) && forall k :: !Shared(s.value, t.value, k)))
            && (both && InStep(s.value, t.value) ==> since == s.value.lastSeq)
            && (since.Some? && !InStep(s.value, t.value) ==>
                  exists k :: Shared(s.value, t.value, k) && (forall j :: 0 <= j < k ==> !Shared(s.value, t.value, j))
                              && since == s.value.history[k].recorded)
  {
    if BothThere(s, t, readSource, readTarget) {
      assert s.value.history[0..] == s.value.history;
      CommonIs(s.value, t.value, 0);
    }
  }

  /** Once a save has landed on both sides, a run resumes from it. */
  lemma LandedSaveLoads(s: Option<Checkpoint>, t: Option<Checkpoint>, readSource: bool, readTarget: bool, session: nat, n: nat)
    ensures Load(Saved(s, readSource, true, session, Some(n)), Saved(t, readTarget, true, session, Some(n)), true, true)
            == Some(n)
  {
  }

  /** A save that lands adds its entry after those it could read. */
  lemma SavedRemembers(cp: Option<Checkpoint>, read: bool, session: nat, since: Token)
    ensures var saved, entry := Saved(cp, read, true, session, since), Recorded(session, since);
            && saved.Some? && saved.value.session == session && saved.value.lastSeq == since
            && (read && cp.Some? ==> saved.value.history == cp.value.history + [entry])
            && (!read || cp.None? ==> saved.value.history == [entry])
    ensures Saved(cp, read, false, session, since) == cp
  {
    assert [] + [Recorded(session, since)] == [Recorded(session, since)];
  }

  /** The session of a checkpoint is also in its history. */
  ghost predicate Kept(cp: Option<Checkpoint>) {
    cp.Some? ==> Recorded(cp.value.session, cp.value.lastSeq) in cp.value.history
  }

  lemma SavedKept(cp: Option<Checkpoint>, read: bool, lands: bool, session: nat, since: Token)
    requires Kept(cp)
    ensures Kept(Saved(cp, read, lands, session, since))
  {
  }

  lemma RoundKept(w: World, since: Token, session: nat, r: Round)
    requires Kept(w.source.checkpoint) && Kept(w.target.checkpoint)
    ensures var next := AfterBatch(w, since, session, r); Kept(next.source.checkpoint) && Kept(next.target.checkpoint)
  {
    RoundCheckpoint(w, since, session, r);
  }

  lemma {:induction false} LoopKept(w: World, since: Token, session: nat, continuous: bool, rounds: seq<Round>, c: Counters)
    requires Kept(w.source.checkpoint) && Kept(w.target.checkpoint)
    ensures var done := Loop(w, since, session, continuous, rounds, c).0;
            Kept(done.source.checkpoint) && Kept(done.target.checkpoint)
    decreases rounds
  {
    if rounds != [] {
      var b := BatchOf(w, since, rounds[0]);
      RoundKept(w, since, session, rounds[0]);
      LoopKept(AfterBatch(w, since, session, rounds[0]), NextSince(since, b), session, continuous, rounds[1..],
               Plus(c, b.counters));
    }
  }

  lemma {:induction false} HistoryKept(w: World, clock: nat, evs: seq<Event>)
    requires Kept(w.source.checkpoint) && Kept(w.target.checkpoint)
    ensures var now := History(w, clock, evs); Kept(now.source.checkpoint) && Kept(now.target.checkpoint)
    decreases evs
  {
    if evs != [] {
      HappenKept(w, clock, evs[0]);
      HistoryKept(Happen(w, clock, evs[0]), clock + 1, evs[1..]);
    }
  }

  lemma HappenKept(w: World, clock: nat, ev: Event)
    requires Kept(w.source.checkpoint) && Kept(w.target.checkpoint)
    ensures var next := Happen(w, clock, ev); Kept(next.source.checkpoint) && Kept(next.target.checkpoint)
  {
    if ev.Replicated? {
      var since := Load(w.source.checkpoint, w.target.checkpoint, ev.readSource, ev.readTarget);
      LoopKept(w, since, clock, ev.continuous, ev.rounds, NOTHING);
    }
  }

  /** A session in which the source recorded a sequence and that the target knows. */
  ghost predicate KnownToBoth(s: Option<Checkpoint>, t: Option<Checkpoint>, session: nat, n: nat) {
    Claims(s, session, Some(n)) && Mentions(t, session)
  }

  /** After any history, a run starts from the beginning exactly if it cannot read both
      checkpoints or the two sides have no session in common; else from a sequence that
      the source recorded in such a session. */
  lemma ResumesIfShared(w: World, clock: nat, evs: seq<Event>, now: World, readSource: bool, readTarget: bool)
    requires w.source.checkpoint.None? && w.target.checkpoint.None? && now == History(w, clock, evs)
    ensures var s, t := now.source.checkpoint, now.target.checkpoint;
            var since := Load(s, t, readSource, readTarget);
            && (since == None <==> !(readSource && readTarget) || forall session: nat, n: nat :: !KnownToBoth(s, t, session, n))
            && (since.Some? ==> exists session: nat :: KnownToBoth(s, t, session, since.value))
  {
    HistoryKept(w, clock, evs);
    KeptLoads(now.source.checkpoint, now.target.checkpoint, readSource, readTarget);
  }

  lemma KeptLoads(s: Option<Checkpoint>, t: Option<Checkpoint>, readSource: bool, readTarget: bool)
    requires Kept(s) && Kept(t)
    ensures var since := Load(s, t, readSource, readTarget);
            && (since == None <==> !(readSource && readTarget) || forall session: nat, n: nat :: !KnownToBoth(s, t, session, n))
            && (since.Some? ==> exists session: nat :: KnownToBoth(s, t, session, since.value))
  {
    var since := Load(s, t, readSource, readTarget);
    LoadIs(s, t, readSource, readTarget);
    LoadClaimed(s, t, readSource, readTarget);
    if since.Some? {
      var session: nat :| Claims(s, session, since) && Mentions(t, session);
      assert KnownToBoth(s, t, session, since.value);
    } else if readSource && readTarget {
      forall session: nat, n: nat ensures !KnownToBoth(s, t, session, n) {
        if KnownToBoth(s, t, session, n) { KnownIsShared(s, t, session, n); }
      }
    }
  }

  lemma KnownIsShared(s: Option<Checkpoint>, t: Option<Checkpoint>, session: nat, n: nat)
    requires Kept(s) && Kept(t) && KnownToBoth(s, t, session, n)
    ensures exists k :: Shared(s.value, t.value, k)
  {
    assert Recorded(session, Some(n)) in s.value.history;
    var u :| Claims(t, session, u);
    assert Recorded(session, u) in t.value.history;
    var k :| 0 <= k < |s.value.history| && s.value.history[k] == Recorded(session, Some(n));
    var l :| 0 <= l < |t.value.history| && t.value.history[l] == Recorded(session, u);
    assert Shared(s.value, t.value, k);
  }

  /******* A run after a run *******/

  /** The pass moves the sequence, and so saves it. */
  ghost predicate Saves(w: World, since: Token, r: Round) {
    var b := BatchOf(w, since, r);
    b.ok && b.since != since && b.since != None
  }

  /** The pass is the last of a one-shot run. */
  ghost predicate Stops(w: World, since: Token, r: Round) {
    var b := BatchOf(w, since, r);
    b.ok && (b.pending == 0 || b.changes == 0)
  }

  ghost predicate AnySave(w: World, since: Token, session: nat, rounds: seq<Round>)
    decreases rounds
  {
    rounds != [] && (Saves(w, since, rounds[0]) || (!Stops(w, since, rounds[0]) && AnySave(
      AfterBatch(w, since, session, rounds[0]), NextSince(since, BatchOf(w, since, rounds[0])), session, rounds[1..])))
  }

  /** The last save of the run lands on both sides, whatever became of earlier ones. */
  ghost predicate LastSaveLands(w: World, since: Token, session: nat, rounds: seq<Round>)
    decreases rounds
  {
    rounds != [] ==>
      var r, next := rounds[0], AfterBatch(w, since, session, rounds[0]);
      var on := NextSince(since, BatchOf(w, since, r));
      && (Saves(w, since, r) && (Stops(w, since, r) || !AnySave(next, on, session, rounds[1..])) ==>
            r.save.landsSource && r.save.landsTarget)
      && (!Stops(w, since, r) ==> LastSaveLands(next, on, session, rounds[1..]))
  }

  /** Both sides were last saved in this session, at this sequence. */
  ghost predicate SavedAt(w: World, session: nat, n: Token) {
    && w.source.checkpoint.Some? && w.target.checkpoint.Some? && n.Some?
    && w.source.checkpoint.value.session == session == w.target.checkpoint.value.session
    && w.source.checkpoint.value.lastSeq == n
  }

  /** What a finished run leaves to resume from: nothing comes after the token, and it
      is the one saved, or, without a save, the one the run began with. */
  ghost predicate LeavesOff(w: World, since: Token, session: nat, done: World, n: Token, saved: bool) {
    && After(w.source.entries, Pos(n)) == []
    && if saved then SavedAt(done, session, n)
       else n == since && done.source.checkpoint == w.source.checkpoint && done.target.checkpoint == w.target.checkpoint
  }

  lemma PassCheckpoints(w: World, since: Token, session: nat, r: Round)
    requires r.during == [] && r.after == []
    ensures var next, b := AfterBatch(w, since, session, r), BatchOf(w, since, r);
            if Saves(w, since, r)
            then (r.save.landsSource && r.save.landsTarget ==> SavedAt(next, session, NextSince(since, b)))
            else next.source.checkpoint == w.source.checkpoint && next.target.checkpoint == w.target.checkpoint
  {
  }

  lemma NothingAfter(w: World, since: Token, r: Round)
    requires ValidSource(w.source) && Pos(since) <= w.source.last && r.during == [] && Stops(w, since, r)
    ensures After(w.source.entries, Pos(NextSince(since, BatchOf(w, since, r)))) == []
  {
    BatchShape(w.source, w.source, w.target.known, since, r.batch);
    EndsHere(w.source, w.target.known, since, r.batch);
    PendingLeft(w.source, since);
    EmptyToken(w.source, since);
  }

  lemma EmptyToken(s: Source, since: Token)
    ensures GetChanges(s, since, BATCH_SIZE).lastSeq == None ==> since == None
  {
  }

  lemma {:induction false} FinishedLeavesOff(w: World, since: Token, session: nat, rounds: seq<Round>, c: Counters)
    returns (n: Token, saved: bool)
    requires ValidSource(w.source) && Pos(since) <= w.source.last && Quiet(rounds)
    requires Loop(w, since, session, false, rounds, c).1 == Finished && LastSaveLands(w, since, session, rounds)
    ensures saved == AnySave(w, since, session, rounds)
    ensures LeavesOff(w, since, session, Loop(w, since, session, false, rounds, c).0, n, saved)
    decreases rounds
  {
    var r := rounds[0];
    assert r in rounds;
    var b, next := BatchOf(w, since, r), AfterBatch(w, since, session, r);
    PassCheckpoints(w, since, session, r);
    QuietNext(w, since, session, r);
    if Stops(w, since, r) {
      NothingAfter(w, since, r);
      n, saved := NextSince(since, b), Saves(w, since, r);
    } else {
      NextWithin(w, since, r);
      n, saved := FinishedLeavesOff(next, NextSince(since, b), session, rounds[1..], Plus(c, b.counters));
      saved := saved || Saves(w, since, r);
    }
  }

  lemma NextWithin(w: World, since: Token, r: Round)
    requires ValidSource(w.source) && Pos(since) <= w.source.last && r.during == []
    ensures Pos(NextSince(since, BatchOf(w, since, r))) <= w.source.last
  {
    BatchShape(w.source, w.source, w.target.known, since, r.batch);
    PageAdvances(w.source, since, BATCH_SIZE);
  }

  /** A pass with nothing to read changes nothing and ends the run. */
  lemma IdlePass(w: World, since: Token, session: nat, rounds: seq<Round>)
    requires After(w.source.entries, Pos(since)) == [] && rounds != []
    requires !rounds[0].batch.changes && rounds[0].during == [] && rounds[0].after == []
    ensures BatchOf(w, since, rounds[0]).changes == 0
    ensures Loop(w, since, session, false, rounds, NOTHING) == (w, Finished, NOTHING)
  {
    NothingRead(w, since, rounds[0]);
    LoopStops(w, since, session, rounds, BatchOf(w, since, rounds[0]), AfterBatch(w, since, session, rounds[0]));
  }

  lemma NothingRead(w: World, since: Token, r: Round)
    requires After(w.source.entries, Pos(since)) == [] && !r.batch.changes && r.during == [] && r.after == []
    ensures var b := BatchOf(w, since, r); b.ok && b.changes == 0 && b.counters == NOTHING
    ensures forall session :: AfterBatch(w, since, session, r) == w
  {
    assert Listed([]) == {};
  }

  lemma LoopStops(w: World, since: Token, session: nat, rounds: seq<Round>, b: BatchResult, next: World)
    requires rounds != [] && b == BatchOf(w, since, rounds[0]) && next == AfterBatch(w, since, session, rounds[0])
    requires b.ok && b.changes == 0 && b.counters == NOTHING
    ensures Loop(w, since, session, false, rounds, NOTHING) == (next, Finished, NOTHING)
  {
  }

  /** After a finished one-shot run whose last save landed, the next run over the quiet
      source reads no change at all: it is over after one pass that does nothing. */
  lemma NextRunReadsNothing(w: World, session: nat, readSource: bool, readTarget: bool, rounds: seq<Round>, done: World,
                            next: nat, rounds': seq<Round>)
    requires Sound(w) && Quiet(rounds) && FinishesAt(w, session, readSource, readTarget, rounds, done)
    requires LastSaveLands(w, Load(w.source.checkpoint, w.target.checkpoint, readSource, readTarget), session, rounds)
    requires rounds' != [] && !rounds'[0].batch.changes && rounds'[0].during == [] && rounds'[0].after == []
    ensures RunOnce(done, next, true, true, false, rounds') == (done, Finished, NOTHING)
    ensures BatchOf(done, Load(done.source.checkpoint, done.target.checkpoint, true, true), rounds'[0]).changes == 0
  {
    var since := Load(w.source.checkpoint, w.target.checkpoint, readSource, readTarget);
    LoadSound(w, readSource, readTarget);
    var n, saved := FinishedLeavesOff(w, since, session, rounds, NOTHING);
    QuietKeepsEntries(w, since, session, false, rounds, NOTHING);
    ResumesThere(w, since, session, done, n, saved, readSource, readTarget);
    var again := Load(done.source.checkpoint, done.target.checkpoint, true, true);
    IdlePass(done, again, next, rounds');
  }

  lemma ResumesThere(w: World, since: Token, session: nat, done: World, n: Token, saved: bool, readSource: bool,
                     readTarget: bool)
    requires ValidSource(w.source) && LeavesOff(w, since, session, done, n, saved) && done.source.entries == w.source.entries
    requires since == Load(w.source.checkpoint, w.target.checkpoint, readSource, readTarget)
    ensures After(done.source.entries, Pos(Load(done.source.checkpoint, done.target.checkpoint, true, true))) == []
  {
    LoadIs(done.source.checkpoint, done.target.checkpoint, true, true);
    if !saved && since == None { NoEntries(w.source); }
  }

  lemma NoEntries(s: Source)
    requires ValidSource(s) && After(s.entries, 0) == []
    ensures s.entries == []
  {
    NoneSkipped(s.entries);
  }

  lemma NoneSkipped(entries: seq<Entry>)
    requires forall e :: e in entries ==> e.seqNo >= 1
    ensures After(entries, 0) == entries
  {
    if entries != [] { assert entries[0] in entries; }
  }

  /******* Endings and counters *******/

  /** A continuous run never comes to an end of its own. */
  lemma {:induction false} ContinuousGoesOn(w: World, since: Token, session: nat, rounds: seq<Round>, c: Counters)
    ensures Loop(w, since, session, true, rounds, c).1 != Finished
    decreases rounds
  {
    if rounds != [] {
      var b := BatchOf(w, since, rounds[0]);
      ContinuousGoesOn(AfterBatch(w, since, session, rounds[0]), NextSince(since, b), session, rounds[1..],
                       Plus(c, b.counters));
    }
  }

  lemma FaultlessWorks(s: Source, later: Source, known: Known, since: Token, f: BatchFaults)
    requires Faultless(f)
    ensures Batch(s, later, known, since, f).ok
  {
  }

  /** Without faults no run breaks, one-shot or continuous. */
  lemma {:induction false} FaultlessNeverBreaks(w: World, since: Token, session: nat, continuous: bool, rounds: seq<Round>,
                                                c: Counters)
    requires forall r :: r in rounds ==> Faultless(r.batch)
    ensures Loop(w, since, session, continuous, rounds, c).1 != Broken
    decreases rounds
  {
    if rounds != [] {
      assert rounds[0] in rounds;
      var b := BatchOf(w, since, rounds[0]);
      FaultlessWorks(w.source, EditedAll(w.source, rounds[0].during), w.target.known, since, rounds[0].batch);
      FaultlessNeverBreaks(AfterBatch(w, since, session, rounds[0]), NextSince(since, b), session, continuous, rounds[1..],
                           Plus(c, b.counters));
    }
  }

  /** A faultless batch over a quiet source counts the documents its page lists and
      those of them that lack a revision, and reads and writes what they lack. */
  lemma BatchCounts(s: Source, known: Known, since: Token, f: BatchFaults)
    requires ValidSource(s) && Pos(since) <= s.last && Faultless(f)
    ensures var c, page := Batch(s, s, known, since, f).counters, GetChanges(s, since, BATCH_SIZE).results;
            var missing := MissingIn(s, known, since);
            && c.missingFound == |set e | e in page && e.id != [] && !IsLocal(e.id) && e.revs != {} :: e.id|
            && c.missingChecked == |set p | p in missing :: p.0|
            && c.docsRead == c.docsWritten == |missing|
  {
    BatchWrites(s, known, since, f);
    ListedIds(GetChanges(s, since, BATCH_SIZE).results);
    ChecksCounted(s, known, since, f, Listed(GetChanges(s, since, BATCH_SIZE).results));
  }

  lemma ChecksCounted(s: Source, known: Known, since: Token, f: BatchFaults, wanted: Known)
    requires Faultless(f) && wanted == Listed(GetChanges(s, since, BATCH_SIZE).results)
    ensures var c := Batch(s, s, known, since, f).counters;
            c.missingFound == |IdsOf(wanted)| && c.missingChecked == |IdsOf(wanted - known)|
  {
    assert IdsOf({}) == {} && {} - known == {};
  }

  lemma ListedIds(page: seq<Entry>)
    ensures IdsOf(Listed(page)) == set e | e in page && e.id != [] && !IsLocal(e.id) && e.revs != {} :: e.id
  {
    forall id | id in (set e | e in page && e.id != [] && !IsLocal(e.id) && e.revs != {} :: e.id)
      ensures id in IdsOf(Listed(page))
    {
      var e :| e in page && e.id == id && id != [] && !IsLocal(id) && e.revs != {};
      var r :| r in e.revs;
      assert (id, r) in Listed(page);
    }
  }
}
