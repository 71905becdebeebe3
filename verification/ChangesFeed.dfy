/** The changes feed: a cursor over the changes index, read page by page. */
module ChangesFeed {
  import opened ByteStrings
  import opened Documents
  import opened DocStore
  import opened Effects
  import opened Engine
  import opened IndexInvariants
  import opened Indexes
  import opened Revisions
  import opened Runs
  import opened SortedKeys
  import opened StoreInvariant
  import opened Transactions
  import opened Writers

  /** Where a reader wants to start: "" and "0" mean the beginning; any other text
      is parsed as a number, unreadable text as 0. */
  datatype Since = Beginning | After(n: nat)

  const DEFAULT_LIMIT: int := 1000

  function FeedKeys(s: Store): seq<Bytes> {
    Sorted(Entries(s, Changes).Keys)
  }

  /** Seek to the sequence and step once, whatever the seek found. */
  function FeedStart(keys: seq<Bytes>, since: Since): (c: nat)
    ensures c <= |keys|
  {
    match since
    case Beginning => 0
    case After(n) => if SeekIndex(keys, U64Key(n)) < |keys| then SeekIndex(keys, U64Key(n)) + 1 else |keys|
  }

  /** The document a changes entry names, unless it cannot be read. */
  function Entry(s: Store, k: Bytes): Read {
    var changes := Entries(s, Changes);
    if k in changes && changes[k].Bin? then GetDocument(s, changes[k].bytes) else Unreadable
  }

  type Reader = Bytes -> Read

  function ReaderOf(s: Store): Reader {
    k => Entry(s, k)
  }

  /** The documents found from a position on, as many as there is room for, and the
      position after the last entry looked at. */
  function Collect(read: Reader, keys: seq<Bytes>, c: nat, room: int): (r: (seq<Document>, nat))
    requires c <= |keys|
    ensures c <= r.1 <= |keys|
    decreases |keys| - c
  {
    if c == |keys| || room <= 0 then ([], c)
    else if read(keys[c]).Found? then
      var rest := Collect(read, keys, c + 1, room - 1);
      ([read(keys[c]).doc] + rest.0, rest.1)
    else Collect(read, keys, c + 1, room)
  }

  function Page(s: Store, since: Since, limit: int): (seq<Document>, nat) {
    PageVia(ReaderOf(s), FeedKeys(s), since, limit)
  }

  function PageVia(read: Reader, keys: seq<Bytes>, since: Since, limit: int): (seq<Document>, nat) {
    var found := Collect(read, keys, FeedStart(keys, since), if limit == 0 then DEFAULT_LIMIT else limit);
    (found.0, |keys| - found.1)
  }

  /** The reader's loop, and the count of what is left. */
  method ReadChanges(t: Transaction, since: Since, limit: int) returns (docs: seq<Document>, pending: nat)
    ensures (docs, pending) == Page(t.tx.snapshot, since, limit)
  {
    var keys := FeedKeys(t.tx.snapshot);
    var c := FeedStart(keys, since);
    docs, c := CollectDocs(t, keys, c, if limit == 0 then DEFAULT_LIMIT else limit);
    pending := 0;
    ghost var from := c;
    while c < |keys|
      invariant from <= c <= |keys| && pending == c - from
    {
      pending := pending + 1;
      c := c + 1;
    }
  }

  method CollectDocs(t: Transaction, keys: seq<Bytes>, from: nat, room: int) returns (docs: seq<Document>, c: nat)
    requires from <= |keys|
    ensures (docs, c) == Collect(ReaderOf(t.tx.snapshot), keys, from, room)
  {
    ghost var read := ReaderOf(t.tx.snapshot);
    docs, c := [], from;
    OntoNothing(Collect(read, keys, from, room));
    while c < |keys| && |docs| < room
      invariant from <= c <= |keys|
      invariant OnTrack(read, keys, from, room, docs, c)
    {
      docs := ReadNext(t, keys, from, room, docs, c);
      c := c + 1;
    }
    TrackEnd(read, keys, from, room, docs, c);
  }

  method ReadNext(t: Transaction, keys: seq<Bytes>, ghost from: nat, ghost room: int, docs: seq<Document>, c: nat)
    returns (next: seq<Document>)
    requires from <= c < |keys| && |docs| < room && OnTrack(ReaderOf(t.tx.snapshot), keys, from, room, docs, c)
    ensures OnTrack(ReaderOf(t.tx.snapshot), keys, from, room, next, c + 1)
  {
    var entry := ReadEntry(t, keys[c], ReaderOf(t.tx.snapshot));
    TrackNext(ReaderOf(t.tx.snapshot), keys, from, room, docs, c, entry);
    next := if entry.Found? then docs + [entry.doc] else docs;
  }

  ghost predicate OnTrack(read: Reader, keys: seq<Bytes>, from: nat, room: int, docs: seq<Document>, c: nat)
    requires from <= c <= |keys|
  {
    Collect(read, keys, from, room) == Onto(docs, Collect(read, keys, c, room - |docs|))
  }

  lemma TrackNext(read: Reader, keys: seq<Bytes>, from: nat, room: int, docs: seq<Document>, c: nat, entry: Read)
    requires from <= c < |keys| && |docs| < room && OnTrack(read, keys, from, room, docs, c) && entry == read(keys[c])
    ensures OnTrack(read, keys, from, room, if entry.Found? then docs + [entry.doc] else docs, c + 1)
  {
    CollectNext(read, keys, c, room, docs, entry);
  }

  lemma TrackEnd(read: Reader, keys: seq<Bytes>, from: nat, room: int, docs: seq<Document>, c: nat)
    requires from <= c <= |keys| && OnTrack(read, keys, from, room, docs, c) && (c == |keys| || |docs| >= room)
    ensures Collect(read, keys, from, room) == (docs, c)
  {
    assert docs + [] == docs;
  }

  ghost function Onto(docs: seq<Document>, r: (seq<Document>, nat)): (seq<Document>, nat) {
    (docs + r.0, r.1)
  }

  lemma OntoNothing(r: (seq<Document>, nat))
    ensures Onto([], r) == r
  {
    assert [] + r.0 == r.0;
  }

  lemma OntoMore(docs: seq<Document>, d: Document, r: (seq<Document>, nat))
    ensures Onto(docs, ([d] + r.0, r.1)) == Onto(docs + [d], r)
  {
    assert docs + ([d] + r.0) == (docs + [d]) + r.0;
  }

  lemma CollectNext(read: Reader, keys: seq<Bytes>, c: nat, room: int, docs: seq<Document>, entry: Read)
    requires c < |keys| && |docs| < room && entry == read(keys[c])
    ensures var next := if entry.Found? then docs + [entry.doc] else docs;
            Onto(docs, Collect(read, keys, c, room - |docs|)) == Onto(next, Collect(read, keys, c + 1, room - |next|))
  {
    if entry.Found? {
      OntoMore(docs, entry.doc, Collect(read, keys, c + 1, room - |docs| - 1));
      assert |docs + [entry.doc]| == |docs| + 1;
    }
  }

  method ReadEntry(t: Transaction, k: Bytes, ghost read: Reader) returns (entry: Read)
    requires read == ReaderOf(t.tx.snapshot)
    ensures entry == read(k)
  {
    var name := t.tx.Get(Changes, k);
    if name.Some? && name.value.Bin? {
      entry := t.GetDocument(name.value.bytes);
    } else {
      entry := Unreadable;
    }
  }

  /******* What the feed says *******/

  ghost function SeqOf(k: Bytes): nat {
    FromBigEndian(k)
  }

  /** The keys are the big-endian sequence numbers, in numeric order. */
  ghost predicate Numbered(keys: seq<Bytes>) {
    && Ascending(keys)
    && forall j {:trigger keys[j]} :: 0 <= j < |keys| ==> SeqOf(keys[j]) < U64 && keys[j] == U64Key(SeqOf(keys[j]))
  }

  lemma FeedIsNumbered(env: Env, s: Store)
    requires Inv(env, s)
    ensures Numbered(FeedKeys(s))
  {
    var keys := FeedKeys(s);
    SortedAscending(Entries(s, Changes).Keys);
    ChangesAgreeIn(env, s);
    forall j | 0 <= j < |keys| ensures SeqOf(keys[j]) < U64 && keys[j] == U64Key(SeqOf(keys[j])) {
      assert keys[j] in keys;
      EntryNumber(s, WinnersOf(DocsIn(s)).Keys, keys[j]);
    }
  }

  lemma ChangesAgreeIn(env: Env, s: Store)
    requires EnvOk(env) && IndicesAgree(env, s, WinnersOf(Entries(s, Docs)))
    ensures Changes in s && ChangesInv in s
    ensures ChangesAgree(s[Changes], s[ChangesInv], WinnersOf(Entries(s, Docs)).Keys)
  {
    var j :| 0 <= j < |env.indices| && env.indices[j] == ChangesIndex;
    assert IndexAgrees(env.indices[j], s, WinnersOf(Entries(s, Docs)));
  }

  lemma EntryNumber(s: Store, ids: set<Bytes>, k: Bytes)
    requires Changes in s && ChangesInv in s && ChangesAgree(s[Changes], s[ChangesInv], ids)
    requires k in s[Changes].entries
    ensures SeqOf(k) < U64 && k == U64Key(SeqOf(k)) && 1 <= SeqOf(k)
    ensures s[Changes].entries[k].Bin?
    ensures var id := s[Changes].entries[k].bytes;
            id in ids && id in s[ChangesInv].entries && s[ChangesInv].entries[id] == Bin(k)
  {
    var c, inv := s[Changes], s[ChangesInv];
    assert SequenceOf(c, inv, k);
    assert SequencedBy(c, inv, c.entries[k].bytes);
  }

  /** Every entry is read, and the document carries the entry's sequence. */
  lemma EntryFound(env: Env, s: Store, k: Bytes)
    requires Inv(env, s) && k in Entries(s, Changes)
    ensures Entry(s, k).Found? && Entry(s, k).doc.localSeq == SeqOf(k)
  {
    ChangesAgreeIn(env, s);
    EntryNumber(s, WinnersOf(DocsIn(s)).Keys, k);
    var id := s[Changes].entries[k].bytes;
    ReadStored(env, s, id);
    ReadSequence(s, id, k);
  }

  lemma ReadSequence(s: Store, id: Bytes, k: Bytes)
    requires GetDocument(s, id).Found? && id in Entries(s, ChangesInv) && Entries(s, ChangesInv)[id] == Bin(k)
    requires id in Entries(s, Docs) && Entries(s, Docs)[id].Doc? && Entries(s, Docs)[id].doc.id == id && !IsLocal(id)
    ensures GetDocument(s, id).doc.localSeq == SeqOf(k)
  {
    BranchesExtend(s, WithSequence(s, WithMeta(Entries(s, Docs)[id].doc)).value);
  }

  /******* One page *******/

  function Least2(a: int, b: int): int {
    if a < b then a else b
  }

  /** The documents of these entries, each with its entry's sequence. */
  ghost predicate Covers(read: Reader, docs: seq<Document>, keys: seq<Bytes>) {
    |docs| == |keys| && forall j :: 0 <= j < |docs| ==> read(keys[j]) == Found(docs[j]) && docs[j].localSeq == SeqOf(keys[j])
  }

  ghost predicate AllFound(read: Reader, keys: seq<Bytes>) {
    forall j {:trigger keys[j]} :: 0 <= j < |keys| ==> read(keys[j]).Found? && read(keys[j]).doc.localSeq == SeqOf(keys[j])
  }

  lemma FeedIsFound(env: Env, s: Store)
    requires Inv(env, s)
    ensures AllFound(ReaderOf(s), FeedKeys(s))
  {
    var keys := FeedKeys(s);
    forall j | 0 <= j < |keys| ensures Entry(s, keys[j]).Found? && Entry(s, keys[j]).doc.localSeq == SeqOf(keys[j]) {
      assert keys[j] in keys;
      EntryFound(env, s, keys[j]);
    }
  }

  lemma {:induction false} CollectCovers(read: Reader, keys: seq<Bytes>, c: nat, room: int)
    requires AllFound(read, keys) && c <= |keys| && room >= 0
    ensures var r := Collect(read, keys, c, room);
            r.1 == c + Least2(room, |keys| - c) && Covers(read, r.0, keys[c..r.1])
    decreases |keys| - c
  {
    if c < |keys| && room > 0 {
      CollectCovers(read, keys, c + 1, room - 1);
      CoversMore(read, keys, c, Collect(read, keys, c + 1, room - 1));
    }
  }

  lemma CoversMore(read: Reader, keys: seq<Bytes>, c: nat, rest: (seq<Document>, nat))
    requires c < |keys| && c + 1 <= rest.1 <= |keys| && Covers(read, rest.0, keys[c + 1..rest.1])
    requires read(keys[c]).Found? && read(keys[c]).doc.localSeq == SeqOf(keys[c])
    ensures Covers(read, [read(keys[c]).doc] + rest.0, keys[c..rest.1])
  {
    assert keys[c..rest.1] == [keys[c]] + keys[c + 1..rest.1];
  }

  /** A page is the next entries after the start, no more than the limit, and the
      pending count is exactly what follows them. */
  ghost predicate ServesNext(read: Reader, keys: seq<Bytes>, since: Since, limit: nat) {
    var c, page := FeedStart(keys, since), PageVia(read, keys, since, limit);
    var n := Least2(if limit == 0 then DEFAULT_LIMIT else limit, |keys| - c);
    Covers(read, page.0, keys[c..c + n]) && page.1 == |keys| - c - n
  }

  lemma PageOf(read: Reader, keys: seq<Bytes>, since: Since, limit: nat)
    requires AllFound(read, keys)
    ensures ServesNext(read, keys, since, limit)
  {
    CollectCovers(read, keys, FeedStart(keys, since), if limit == 0 then DEFAULT_LIMIT else limit);
  }

  /** The documents are what reads of the IDs that follow the start give. */
  ghost predicate ShowsNext(s: Store, docs: seq<Document>, c: nat) {
    var keys := FeedKeys(s);
    && c + |docs| <= |keys|
    && forall j :: 0 <= j < |docs| ==> ShowsEntry(s, keys[c + j], docs[j])
  }

  ghost predicate ShowsEntry(s: Store, k: Bytes, d: Document) {
    var changes := Entries(s, Changes);
    k in changes && changes[k].Bin? && GetDocument(s, changes[k].bytes) == Found(d) && k == U64Key(d.localSeq)
  }

  /** The page holds the entries that follow the start, no more than the limit, which
      is 1000 if it is 0; pending counts the entries after those. */
  lemma PageExact(env: Env, s: Store, since: Since, limit: nat)
    requires Inv(env, s)
    ensures PageShows(s, Page(s, since, limit), FeedStart(FeedKeys(s), since), limit)
  {
    FeedIsFound(env, s);
    FeedIsNumbered(env, s);
    PageShown(s, ReaderOf(s), FeedKeys(s), since, limit, Page(s, since, limit));
  }

  ghost predicate PageShows(s: Store, page: (seq<Document>, nat), c: nat, limit: nat) {
    ShowsNext(s, page.0, c) && Fills(|FeedKeys(s)| - c, |page.0|, page.1, limit)
  }

  lemma PageShown(s: Store, read: Reader, keys: seq<Bytes>, since: Since, limit: nat, page: (seq<Document>, nat))
    requires read == ReaderOf(s) && keys == FeedKeys(s) && Numbered(keys) && AllFound(read, keys)
    requires page == PageVia(read, keys, since, limit)
    ensures PageShows(s, page, FeedStart(keys, since), limit)
  {
    PageParts(read, keys, since, limit, page);
    CoveredShown(s, read, keys, FeedStart(keys, since), page.0);
  }

  lemma CoveredShown(s: Store, read: Reader, keys: seq<Bytes>, c: nat, docs: seq<Document>)
    requires keys == FeedKeys(s) && Numbered(keys) && read == ReaderOf(s) && CoversFrom(read, docs, keys, c)
    ensures ShowsNext(s, docs, c)
  {
    forall j | 0 <= j < |docs| ensures ShowsEntry(s, keys[c + j], docs[j]) {
      CoverAt(read, docs, keys, c, j);
      EntryShown(s, keys[c + j], docs[j]);
    }
  }

  /** As many of what there is as the limit allows, the rest pending. */
  ghost predicate Fills(all: int, n: nat, pending: int, limit: nat) {
    && n + pending == all
    && if limit == 0 then n <= 1000 && (pending > 0 ==> n == 1000) else n <= limit && (pending > 0 ==> n == limit)
  }

  ghost predicate CoversFrom(read: Reader, docs: seq<Document>, keys: seq<Bytes>, c: nat) {
    c + |docs| <= |keys| && Covers(read, docs, keys[c..c + |docs|])
  }

  lemma PageParts(read: Reader, keys: seq<Bytes>, since: Since, limit: nat, page: (seq<Document>, nat))
    requires AllFound(read, keys) && page == PageVia(read, keys, since, limit)
    ensures CoversFrom(read, page.0, keys, FeedStart(keys, since))
    ensures Fills(|keys| - FeedStart(keys, since), |page.0|, page.1, limit)
  {
    PageOf(read, keys, since, limit);
  }

  lemma CoverAt(read: Reader, docs: seq<Document>, keys: seq<Bytes>, c: nat, j: nat)
    requires CoversFrom(read, docs, keys, c) && j < |docs|
    ensures read(keys[c + j]) == Found(docs[j]) && docs[j].localSeq == SeqOf(keys[c + j])
  {
    assert keys[c..c + |docs|][j] == keys[c + j];
  }

  lemma EntryShown(s: Store, k: Bytes, d: Document)
    requires Entry(s, k) == Found(d) && d.localSeq == SeqOf(k) && k == U64Key(SeqOf(k))
    ensures ShowsEntry(s, k, d)
  {
  }

  /******* What "after" means *******/

  ghost function Later(keys: seq<Bytes>, n: nat): set<Bytes> {
    set k | k in keys && SeqOf(k) > n
  }

  ghost function Served(keys: seq<Bytes>, since: Since): set<Bytes> {
    set k | k in keys[FeedStart(keys, since)..]
  }

  lemma SeekNumber(keys: seq<Bytes>, n: nat, j: nat)
    requires Numbered(keys) && n < U64 && j < |keys|
    ensures j < SeekIndex(keys, U64Key(n)) <==> SeqOf(keys[j]) < n
  {
    SeekSplits(keys, U64Key(n), j);
    U64KeyOrder(SeqOf(keys[j]), n);
  }

  lemma NumberedAscends(keys: seq<Bytes>, i: nat, j: nat)
    requires Numbered(keys) && i < j < |keys|
    ensures SeqOf(keys[i]) < SeqOf(keys[j])
  {
    U64KeyOrder(SeqOf(keys[i]), SeqOf(keys[j]));
  }

  /** Seek-then-step serves what follows the first key at or after n. */
  lemma ServedAfter(keys: seq<Bytes>, n: nat)
    requires Numbered(keys) && n < U64
    ensures var c := SeekIndex(keys, U64Key(n));
            Served(keys, After(n)) == Later(keys, n) - (if c < |keys| then {keys[c]} else {})
  {
    var c := SeekIndex(keys, U64Key(n));
    forall j | 0 <= j < |keys| ensures PlacedBy(keys, n, c, j) { Placing(keys, n, c, j); }
    ServedSet(keys, n, c, FeedStart(keys, After(n)), keys[FeedStart(keys, After(n))..]);
  }

  ghost predicate PlacedBy(keys: seq<Bytes>, n: nat, c: nat, j: nat)
    requires c <= |keys| && j < |keys|
  {
    && (j < c ==> SeqOf(keys[j]) < n)
    && (j > c ==> SeqOf(keys[j]) > n && keys[j] != keys[c])
  }

  lemma Placing(keys: seq<Bytes>, n: nat, c: nat, j: nat)
    requires Numbered(keys) && n < U64 && c == SeekIndex(keys, U64Key(n)) && j < |keys|
    ensures PlacedBy(keys, n, c, j)
  {
    SeekNumber(keys, n, j);
    if c < j {
      SeekNumber(keys, n, c);
      NumberedAscends(keys, c, j);
    }
  }

  lemma ServedSet(keys: seq<Bytes>, n: nat, c: nat, from: nat, rest: seq<Bytes>)
    requires c <= |keys| && forall j :: 0 <= j < |keys| ==> PlacedBy(keys, n, c, j)
    requires from == (if c < |keys| then c + 1 else |keys|) && rest == keys[from..]
    ensures (set k | k in rest) == Later(keys, n) - (if c < |keys| then {keys[c]} else {})
  {
    Split(keys, from);
    forall k | k in rest ensures k in Later(keys, n) && (c < |keys| ==> k != keys[c]) {
      var j :| from <= j < |keys| && keys[j] == k;
      assert PlacedBy(keys, n, c, j);
    }
    forall k | k in Later(keys, n) && (c < |keys| ==> k != keys[c]) ensures k in rest {
      var j :| 0 <= j < |keys| && keys[j] == k;
      assert PlacedBy(keys, n, c, j);
    }
  }

  lemma Split(keys: seq<Bytes>, c: nat)
    requires c <= |keys|
    ensures forall k :: k in keys[c..] <==> exists j :: c <= j < |keys| && keys[j] == k
  {
    forall k | k in keys[c..] ensures exists j :: c <= j < |keys| && keys[j] == k {
      var i :| 0 <= i < |keys| - c && keys[c..][i] == k;
      assert keys[c + i] == k;
    }
  }

  ghost predicate Live(keys: seq<Bytes>, n: nat) {
    U64Key(n) in keys
  }

  /** At most the first later entry is passed over. */
  lemma ServedButFirst(keys: seq<Bytes>, n: nat)
    requires Numbered(keys) && n < U64
    ensures forall k, l :: k in Later(keys, n) && l in Later(keys, n) && SeqOf(k) < SeqOf(l) ==> l in Served(keys, After(n))
  {
    var c := SeekIndex(keys, U64Key(n));
    ServedAfter(keys, n);
    forall k, l | k in Later(keys, n) && l in Later(keys, n) && SeqOf(k) < SeqOf(l) ensures l in Served(keys, After(n)) {
      if c < |keys| && l == keys[c] {
        var j :| 0 <= j < |keys| && keys[j] == k;
        Placing(keys, n, c, j);
        if j > c { NumberedAscends(keys, c, j); }
        assert false;
      }
    }
  }

  /** "Everything after n" holds exactly when n is still in the feed or nothing
      comes after it; otherwise the first later change is passed over. */
  lemma AfterExact(keys: seq<Bytes>, n: nat)
    requires Numbered(keys) && n < U64
    ensures Served(keys, After(n)) == Later(keys, n) <==> Live(keys, n) || Later(keys, n) == {}
    ensures Served(keys, After(n)) <= Later(keys, n)
    ensures forall k, l :: k in Later(keys, n) && l in Later(keys, n) && SeqOf(k) < SeqOf(l) ==> l in Served(keys, After(n))
  {
    var c := SeekIndex(keys, U64Key(n));
    ServedAfter(keys, n);
    ServedButFirst(keys, n);
    if c < |keys| {
      SeekNumber(keys, n, c);
      U64KeyOrder(SeqOf(keys[c]), n);
      assert keys[c] in keys;
      if Live(keys, n) {
        var j :| 0 <= j < |keys| && keys[j] == U64Key(n);
        U64KeyOrder(n, n);
        SeekNumber(keys, n, j);
      }
    } else {
      assert forall j :: 0 <= j < |keys| ==> PlacedBy(keys, n, c, j) by {
        forall j | 0 <= j < |keys| ensures PlacedBy(keys, n, c, j) { Placing(keys, n, c, j); }
      }
    }
  }

  /******* Paging *******/

  /** Page after page, each from the last sequence of the one before. */
  ghost function AllPages(read: Reader, keys: seq<Bytes>, since: Since, limit: nat): seq<Document>
    requires AllFound(read, keys) && Numbered(keys) && limit > 0
    decreases |keys| - FeedStart(keys, since)
  {
    var c := FeedStart(keys, since);
    CollectCovers(read, keys, c, limit);
    var page := Collect(read, keys, c, limit).0;
    if page == [] then []
    else
      NextStart(read, keys, c, page);
      page + AllPages(read, keys, After(page[|page| - 1].localSeq), limit)
  }

  /** The last document of a page is where the next page starts. */
  lemma NextStart(read: Reader, keys: seq<Bytes>, c: nat, page: seq<Document>)
    requires Numbered(keys) && c < c + |page| <= |keys| && Covers(read, page, keys[c..c + |page|])
    ensures FeedStart(keys, After(page[|page| - 1].localSeq)) == c + |page|
  {
    var last := c + |page| - 1;
    assert keys[c..c + |page|][|page| - 1] == keys[last];
    var n := SeqOf(keys[last]);
    SeekNumber(keys, n, last);
    if SeekIndex(keys, U64Key(n)) < last {
      SeekNumber(keys, n, SeekIndex(keys, U64Key(n)));
      NumberedAscends(keys, SeekIndex(keys, U64Key(n)), last);
    }
  }

  lemma CoversAppend(read: Reader, keys: seq<Bytes>, i: nat, j: nat, xs: seq<Document>, ys: seq<Document>)
    requires i <= j <= |keys| && Covers(read, xs, keys[i..j]) && Covers(read, ys, keys[j..])
    ensures Covers(read, xs + ys, keys[i..])
  {
    assert keys[i..] == keys[i..j] + keys[j..];
  }

  lemma {:induction false} PagesCover(read: Reader, keys: seq<Bytes>, since: Since, limit: nat)
    requires AllFound(read, keys) && Numbered(keys) && limit > 0
    ensures Covers(read, AllPages(read, keys, since, limit), keys[FeedStart(keys, since)..])
    decreases |keys| - FeedStart(keys, since)
  {
    var c := FeedStart(keys, since);
    CollectCovers(read, keys, c, limit);
    var page := Collect(read, keys, c, limit).0;
    if page != [] {
      NextStart(read, keys, c, page);
      PagesCover(read, keys, After(page[|page| - 1].localSeq), limit);
      CoversAppend(read, keys, c, c + |page|, page, AllPages(read, keys, After(page[|page| - 1].localSeq), limit));
    }
  }

  /** On a quiet database, paging from the beginning visits every entry once, in
      increasing order, and each page's pending count is what the later pages hold. */
  lemma PagesVisitAll(env: Env, s: Store, limit: nat)
    requires Inv(env, s) && limit > 0
    ensures AllFound(ReaderOf(s), FeedKeys(s)) && Numbered(FeedKeys(s))
    ensures Covers(ReaderOf(s), AllPages(ReaderOf(s), FeedKeys(s), Beginning, limit), FeedKeys(s))
    ensures forall since :: Page(s, since, limit).1
              == |AllPages(ReaderOf(s), FeedKeys(s), since, limit)| - |Page(s, since, limit).0|
  {
    FeedIsFound(env, s);
    FeedIsNumbered(env, s);
    PagesCover(ReaderOf(s), FeedKeys(s), Beginning, limit);
    assert FeedKeys(s)[0..] == FeedKeys(s);
    forall since ensures Page(s, since, limit).1
                           == |AllPages(ReaderOf(s), FeedKeys(s), since, limit)| - |Page(s, since, limit).0|
    {
      PendingExact(ReaderOf(s), FeedKeys(s), since, limit);
    }
  }

  lemma PendingExact(read: Reader, keys: seq<Bytes>, since: Since, limit: nat)
    requires AllFound(read, keys) && Numbered(keys) && limit > 0
    ensures PageVia(read, keys, since, limit).1
         == |AllPages(read, keys, since, limit)| - |PageVia(read, keys, since, limit).0|
  {
    PagesCover(read, keys, since, limit);
    PageOf(read, keys, since, limit);
  }

  /******* A write moves its document to the end of the feed *******/

  ghost predicate Moved(s: Store, t: Store, replaced: bool, id: Bytes) {
    && Changes in s && Changes in t && ChangesInv in s
    && (replaced ==> id in s[ChangesInv].entries && s[ChangesInv].entries[id].Bin?)
    && var gone := if replaced then {s[ChangesInv].entries[id].bytes} else {};
       var c := s[Changes].counter + 1;
       t[Changes] == Bucket((s[Changes].entries - gone)[U64Key(c) := Bin(id)], c)
  }

  lemma MovedThrough(s: Store, replaced: Option<Document>, id: Bytes, m0: Store, before: Machine, m1: Store,
                     m2: Store, before': Machine, t: Store)
    requires BucketsOf(ChangesIndex) <= s.Keys && id != [] && !before.failed && !before'.failed
    requires replaced.Some? ==>
               replaced.value.id == id && id in s[ChangesInv].entries && s[ChangesInv].entries[id].Bin?
    requires SameBuckets(ChangesIndex, s, m0) && SameBuckets(ChangesIndex, m0, before.store)
    requires SameBuckets(ChangesIndex, (if replaced.Some? then Replay(ChangesDeleted(s, id), before) else before).store, m1)
    requires SameBuckets(ChangesIndex, m1, m2) && SameBuckets(ChangesIndex, m2, before'.store)
    requires SameBuckets(ChangesIndex, Replay(ChangesStored(id), before').store, t)
    ensures Moved(s, t, replaced.Some?, id)
  {
    if replaced.Some? { ChangesDeleteReplay(s, before, id); }
    ChangesStoreReplay(before', id);
    assert s[Changes].entries - {} == s[Changes].entries;
  }

  lemma ReplaceMoves(env: Env, s: Store, pre: seq<Op>, stored: Option<Document>, mid: seq<Op>, d: Document, j: nat)
    requires EnvOk(env) && DOC_BUCKETS <= s.Keys && IndexBuckets(env, s) && d.id != []
    requires DocOps(pre) && DocOps(mid) && j < |env.indices| && env.indices[j] == ChangesIndex
    requires stored.Some? ==>
               stored.value.id == d.id && ChangesInv in s && d.id in s[ChangesInv].entries && s[ChangesInv].entries[d.id].Bin?
    ensures Moved(s, Through(env, s, pre, stored, mid, d).3.store, stored.Some?, d.id)
  {
    var m := Through(env, s, pre, stored, mid, d);
    ReplaceKeepsKeys(env, s, pre, stored, mid, d);
    DocOpsFrame(env, pre, Machine(s, 0, false));
    RemovalPart(env, s, stored, j, m.0);
    DocOpsFrame(env, mid, m.1);
    StoredPart(env, s, d, j, m.2);
    var before := if stored.Some? then Replay(Concat(DeletedParts(env.indices, s, stored.value)[..j]), m.0) else m.0;
    var before' := Replay(Concat(StoredParts(env.indices, s, d)[..j]), m.2);
    MovedThrough(s, stored, d.id, m.0.store, before, m.1.store, m.2.store, before', m.3.store);
  }

  /** An edit takes its document's entry out of the feed and appends a new one with
      the next number; no other entry moves. */
  lemma EditMoves(env: Env, s: Store, doc: Document)
    requires Inv(env, s) && Acceptable(env, Edit(doc)) && !IsLocal(doc.id) && PutPlan(env, s, doc).result.Done?
    ensures Moved(s, Committed(PutPlan(env, s, doc).ops, s), WinnerAt(s, doc.id).Some?, doc.id)
  {
    var stored := StoredAt(s, doc.id);
    var d := EditReplacement(env, s, doc, stored);
    ReplacementMoves(env, s, PutPlan(env, s, doc).ops, doc.id, [], stored, PutDocOps(stored, d), d);
  }

  /** Any write that changes a winner moves its document to the end of the feed; one
      that does not, leaves the feed as it is. */
  lemma WriteMoves(env: Env, s: Store, w: Write)
    requires Inv(env, s) && Acceptable(env, w) && !IsLocal(IdOf(w))
    ensures var t := Committed(PlanOf(env, s, w).ops, s);
            || Moved(s, t, WinnerAt(s, IdOf(w)).Some?, IdOf(w))
            || (DocsIn(t) == DocsIn(s) && Changes in t && Changes in s && t[Changes] == s[Changes])
  {
    var ops, id := PlanOf(env, s, w).ops, IdOf(w);
    AcceptableId(env, w);
    PlanShaped(env, s, w);
    ChangesAgreeIn(env, s);
    if DocAbout(ops, id) && LeavesOnly(ops) {
      LeavesLeaveFeed(ops, s);
    } else {
      var pre, stored, mid, d :| IsReplacement(env, s, ops, id, pre, stored, mid, d);
      ReplacementMoves(env, s, ops, id, pre, stored, mid, d);
    }
  }

  lemma LeavesLeaveFeed(ops: seq<Op>, s: Store)
    requires DocOps(ops) && LeavesOnly(ops) && DOC_BUCKETS <= s.Keys && Changes in s
    ensures var t := Committed(ops, s); DocsIn(t) == DocsIn(s) && Changes in t && t[Changes] == s[Changes]
  {
    var m := Machine(s, 0, false);
    assert Untouched(ops, Docs) && Untouched(ops, Changes);
    ReplayFrame(ops, m, Docs);
    ReplayFrame(ops, m, Changes);
  }

  lemma ReplacementMoves(env: Env, s: Store, ops: seq<Op>, id: Bytes, pre: seq<Op>, stored: Option<Document>,
                         mid: seq<Op>, d: Document)
    requires Inv(env, s) && ValidId(id) && !IsLocal(id) && IsReplacement(env, s, ops, id, pre, stored, mid, d)
    ensures Moved(s, Committed(ops, s), WinnerAt(s, id).Some?, id)
  {
    EditHasSequence(env, s, id);
    AgreeHasBuckets(env, s, WinnersOf(Entries(s, Docs)));
    ReplaceCommitted(env, s, pre, stored, mid, d);
    var j :| 0 <= j < |env.indices| && env.indices[j] == ChangesIndex;
    ReplaceMoves(env, s, pre, stored, mid, d, j);
  }

  lemma EditHasSequence(env: Env, s: Store, id: Bytes)
    requires Inv(env, s) && ValidId(id) && !IsLocal(id)
    ensures WinnerAt(s, id).Some? <==> StoredAt(s, id).Some?
    ensures WinnerAt(s, id).Some? ==>
              ChangesInv in s && id in s[ChangesInv].entries && s[ChangesInv].entries[id].Bin?
              && StoredAt(s, id).value.id == id
  {
    AtId(env, s, id);
    if WinnerAt(s, id).Some? { HasSequence(env, s, id); }
  }

  /** The sequence a document has in the feed. */
  ghost function SeqIn(s: Store, id: Bytes): nat
    requires id in Entries(s, ChangesInv) && Entries(s, ChangesInv)[id].Bin?
  {
    SeqOf(Entries(s, ChangesInv)[id].bytes)
  }

  /** A reader who has seen everything up to a document's sequence n, and comes back
      after that document was rewritten, misses the first later change: n itself is
      gone, so the seek lands beyond it and the step passes over what it found. */
  lemma RewriteHidesChange(env: Env, s: Store, doc: Document)
    requires Inv(env, s) && Acceptable(env, Edit(doc)) && !IsLocal(doc.id) && PutPlan(env, s, doc).result.Done?
    requires WinnerAt(s, doc.id).Some? && CountersFit(Committed(PutPlan(env, s, doc).ops, s))
    ensures doc.id in Entries(s, ChangesInv) && Entries(s, ChangesInv)[doc.id].Bin?
    ensures var t, n := Committed(PutPlan(env, s, doc).ops, s), SeqIn(s, doc.id);
            Later(FeedKeys(t), n) != {} && Served(FeedKeys(t), After(n)) < Later(FeedKeys(t), n)
  {
    var t := Committed(PutPlan(env, s, doc).ops, s);
    EditMoves(env, s, doc);
    CommittedKeeps(env, s, Edit(doc));
    FeedIsNumbered(env, t);
    ChangesAgreeIn(env, s);
    HiddenAfter(s, t, doc.id, WinnersOf(Entries(s, Docs)).Keys);
  }

  lemma HiddenAfter(s: Store, t: Store, id: Bytes, ids: set<Bytes>)
    requires Moved(s, t, true, id) && ChangesAgree(s[Changes], s[ChangesInv], ids) && t[Changes].counter < U64
    requires Numbered(FeedKeys(t))
    ensures var n := SeqIn(s, id);
            Later(FeedKeys(t), n) != {} && Served(FeedKeys(t), After(n)) < Later(FeedKeys(t), n)
  {
    MovedAway(s, t, id, ids);
    AfterExact(FeedKeys(t), SeqIn(s, id));
  }

  lemma MovedAway(s: Store, t: Store, id: Bytes, ids: set<Bytes>)
    requires Moved(s, t, true, id) && ChangesAgree(s[Changes], s[ChangesInv], ids) && t[Changes].counter < U64
    ensures var n := SeqIn(s, id);
            n < U64 && !Live(FeedKeys(t), n) && U64Key(s[Changes].counter + 1) in Later(FeedKeys(t), n)
  {
    assert SequencedBy(s[Changes], s[ChangesInv], id);
    GoneAndNew(FeedKeys(t), s[Changes].entries.Keys, SeqIn(s, id), s[Changes].counter + 1);
  }

  lemma GoneAndNew(keys: seq<Bytes>, before: set<Bytes>, n: nat, c: nat)
    requires n < c < U64 && forall k :: k in keys <==> (k in before && k != U64Key(n)) || k == U64Key(c)
    ensures !Live(keys, n) && U64Key(c) in Later(keys, n)
  {
    U64KeyOrder(n, c);
    U64KeyOrder(c, n);
  }
}
