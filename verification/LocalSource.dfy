/** A database of this program as the source of a replication: when its changes are
    what a source promises. */
module LocalSource {
  import opened ByteStrings
  import opened ChangesFeed
  import opened Documents
  import opened DocStore
  import opened Engine
  import opened IndexInvariants
  import opened Indexes
  import opened SortedKeys
  import opened StoreInvariant
  import opened Writers
  import R = Replication

  /** A change as the adapter reports it: the document's own sequence and revision. */
  function ChangeOf(doc: Document): R.Entry {
    R.Entry(doc.localSeq, doc.id, {doc.rev}, set r | r in doc.history)
  }

  function ChangesOf(docs: seq<Document>): (r: seq<R.Entry>)
    ensures |r| == |docs| && forall j :: 0 <= j < |r| ==> r[j] == ChangeOf(docs[j])
  {
    seq(|docs|, j requires 0 <= j < |docs| => ChangeOf(docs[j]))
  }

  /** The empty token and zero both read from the beginning. */
  function SinceOf(t: R.Token): Since {
    if R.Pos(t) == 0 then Beginning else After(R.Pos(t))
  }

  /** The last sequence of a page, or the token again if the page is empty. */
  function LastSeq(docs: seq<Document>, since: R.Token): R.Token {
    if docs == [] then since else Some(docs[|docs| - 1].localSeq)
  }

  function LocalChanges(s: Store, since: R.Token, limit: nat): R.Changes {
    ChangesVia(ReaderOf(s), FeedKeys(s), since, limit)
  }

  function ChangesVia(read: Reader, keys: seq<Bytes>, since: R.Token, limit: nat): R.Changes {
    var page := PageVia(read, keys, SinceOf(since), limit);
    R.Changes(ChangesOf(page.0), LastSeq(page.0, since), page.1)
  }

  /** The database as the replicator's contract sees a source. */
  ghost function SourceOf(s: Store): R.Source
    requires AllFound(ReaderOf(s), FeedKeys(s)) && Changes in s
  {
    SourceVia(ReaderOf(s), FeedKeys(s), s[Changes].counter)
  }

  ghost function SourceVia(read: Reader, keys: seq<Bytes>, last: nat): R.Source
    requires AllFound(read, keys)
  {
    R.Source(FeedEntries(read, keys), last, None)
  }

  ghost function FeedEntries(read: Reader, keys: seq<Bytes>): (r: seq<R.Entry>)
    requires AllFound(read, keys)
    ensures |r| == |keys| && forall j :: 0 <= j < |r| ==> r[j].seqNo == SeqOf(keys[j]) && Reports(r[j], read(keys[j]).doc)
  {
    seq(|keys|, j requires 0 <= j < |keys| => ChangeOf(read(keys[j]).doc))
  }

  /** The change names the document, its revision alone, and its history as known. */
  ghost predicate Reports(e: R.Entry, d: Document) {
    && e.seqNo == d.localSeq && e.id == d.id && e.revs == {d.rev}
    && forall r :: r in e.ancestors <==> r in d.history
  }

  lemma ReportIs(e: R.Entry, d: Document)
    ensures Reports(e, d) <==> e == ChangeOf(d)
  {
  }

  lemma {:induction false} AfterTail(entries: seq<R.Entry>, n: nat, c: nat)
    requires c <= |entries| && forall i :: 0 <= i < |entries| ==> (entries[i].seqNo > n <==> c <= i)
    ensures R.After(entries, n) == entries[c..]
  {
    if entries != [] && entries[0].seqNo <= n {
      assert forall i :: 0 <= i < |entries[1..]| ==> entries[1..][i] == entries[i + 1];
      AfterTail(entries[1..], n, c - 1);
    }
  }

  /** The number of keys at or before n. */
  ghost function Passed(keys: seq<Bytes>, n: nat): (c: nat)
    requires n < U64
  {
    SeekIndex(keys, U64Key(n)) + if U64Key(n) in keys then 1 else 0
  }

  lemma PassedSplits(keys: seq<Bytes>, n: nat)
    requires Numbered(keys) && n < U64
    ensures Passed(keys, n) <= |keys|
    ensures forall i :: 0 <= i < |keys| ==> (SeqOf(keys[i]) > n <==> Passed(keys, n) <= i)
  {
    var m := SeekIndex(keys, U64Key(n));
    U64KeyOrder(n, n);
    if U64Key(n) in keys {
      var j :| 0 <= j < |keys| && keys[j] == U64Key(n);
      SeekNumber(keys, n, j);
      SeekNumber(keys, n, m);
      if m < j { NumberedAscends(keys, m, j); }
      assert j == m;
    }
    forall i | 0 <= i < |keys| ensures SeqOf(keys[i]) > n <==> Passed(keys, n) <= i {
      SeekNumber(keys, n, i);
      U64KeyOrder(SeqOf(keys[i]), n);
      if m < i { NumberedAscends(keys, m, i); SeekNumber(keys, n, m); }
      if i == m { assert keys[i] in keys; }
    }
  }

  /** Where the feed starts reading is where the contract says, or one too far. */
  lemma StartsRight(keys: seq<Bytes>, t: R.Token)
    requires Numbered(keys) && R.Pos(t) < U64 && forall k :: k in keys ==> 1 <= SeqOf(k)
    ensures var n := R.Pos(t);
            FeedStart(keys, SinceOf(t)) == Passed(keys, n) <==> n == 0 || Live(keys, n) || Later(keys, n) == {}
    ensures Passed(keys, R.Pos(t)) <= FeedStart(keys, SinceOf(t))
  {
    var n := R.Pos(t);
    PassedSplits(keys, n);
    var c := Passed(keys, n);
    if c < |keys| { assert keys[c] in Later(keys, n); }
    if k :| k in Later(keys, n) {
      var j :| 0 <= j < |keys| && keys[j] == k;
    }
    if n == 0 && keys != [] {
      assert keys[0] in keys;
      assert Passed(keys, 0) <= 0;
    }
  }

  /** A local database serves what a source promises to serve after a token exactly
      when the token is the beginning, the sequence of some document as it stands, or
      past everything; else its first change is missing. */
  lemma LocalMeetsContract(env: Env, s: Store, t: R.Token, limit: nat)
    requires Inv(env, s) && limit > 0 && R.Pos(t) < U64
    ensures AllFound(ReaderOf(s), FeedKeys(s)) && Changes in s
    ensures var n := R.Pos(t);
            LocalChanges(s, t, limit) == R.GetChanges(SourceOf(s), t, limit)
            <==> n == 0 || Live(FeedKeys(s), n) || Later(FeedKeys(s), n) == {}
  {
    FeedIsFound(env, s);
    FeedIsNumbered(env, s);
    ChangesAgreeIn(env, s);
    forall k | k in FeedKeys(s) ensures 1 <= SeqOf(k) { EntryNumber(s, WinnersOf(Entries(s, Docs)).Keys, k); }
    StartsRight(FeedKeys(s), t);
    PagesCompare(ReaderOf(s), FeedKeys(s), s[Changes].counter, t, limit);
  }

  lemma PagesCompare(read: Reader, keys: seq<Bytes>, last: nat, t: R.Token, limit: nat)
    requires AllFound(read, keys) && Numbered(keys) && limit > 0 && R.Pos(t) < U64
    requires Passed(keys, R.Pos(t)) <= FeedStart(keys, SinceOf(t)) <= |keys|
    ensures ChangesVia(read, keys, t, limit) == R.GetChanges(SourceVia(read, keys, last), t, limit)
            <==> FeedStart(keys, SinceOf(t)) == Passed(keys, R.Pos(t))
  {
    var entries, page := FeedEntries(read, keys), PageVia(read, keys, SinceOf(t), limit);
    var c, from := Passed(keys, R.Pos(t)), FeedStart(keys, SinceOf(t));
    LocalServes(read, keys, SinceOf(t), limit, from, entries, page);
    ContractServes(keys, t, limit, c, entries, last);
    SlicesCompare(entries, t, c, from, limit, page);
  }

  /** The page is n entries from the given one on. */
  ghost predicate PageIs(entries: seq<R.Entry>, page: (seq<Document>, nat), from: nat, n: nat) {
    && from + n <= |entries| && page.1 == |entries| - from - n
    && |page.0| == n && ChangesOf(page.0) == entries[from..from + n]
    && forall j :: 0 <= j < n ==> page.0[j].localSeq == entries[from + j].seqNo
  }

  lemma LocalServes(read: Reader, keys: seq<Bytes>, since: Since, limit: nat, from: nat, entries: seq<R.Entry>,
                    page: (seq<Document>, nat))
    requires AllFound(read, keys) && limit > 0 && from == FeedStart(keys, since)
    requires page == PageVia(read, keys, since, limit) && entries == FeedEntries(read, keys)
    ensures PageIs(entries, page, from, Least2(limit, |entries| - from))
  {
    PageOf(read, keys, since, limit);
    LocalIs(read, keys, from, Least2(limit, |keys| - from), page.0);
  }

  lemma ContractServes(keys: seq<Bytes>, t: R.Token, limit: nat, c: nat, entries: seq<R.Entry>, last: nat)
    requires Numbered(keys) && R.Pos(t) < U64 && c == Passed(keys, R.Pos(t)) <= |entries| == |keys|
    requires forall j :: 0 <= j < |keys| ==> entries[j].seqNo == SeqOf(keys[j])
    ensures R.GetChanges(R.Source(entries, last, None), t, limit) == Slice(entries, t, c, limit)
  {
    PassedSplits(keys, R.Pos(t));
    AfterTail(entries, R.Pos(t), c);
    ServedIs(entries, t, c, limit);
  }

  /** What stands after cell c, cut to the limit. */
  ghost function Slice(entries: seq<R.Entry>, t: R.Token, c: nat, limit: nat): R.Changes
    requires c <= |entries|
  {
    var n := Least2(limit, |entries| - c);
    R.Changes(entries[c..c + n], if n == 0 then t else Some(entries[c + n - 1].seqNo), |entries| - c - n)
  }

  lemma ServedIs(entries: seq<R.Entry>, t: R.Token, c: nat, limit: nat)
    requires c <= |entries|
    ensures R.Cut(entries[c..], t, limit) == Slice(entries, t, c, limit)
  {
    var n := Least2(limit, |entries| - c);
    assert entries[c..][..n] == entries[c..c + n];
    assert entries[c..c + (|entries| - c)] == entries[c..];
  }

  lemma SlicesCompare(entries: seq<R.Entry>, t: R.Token, c: nat, from: nat, limit: nat,
                      page: (seq<Document>, nat))
    requires c <= from <= |entries| && PageIs(entries, page, from, Least2(limit, |entries| - from))
    ensures var served := R.Changes(ChangesOf(page.0), LastSeq(page.0, t), page.1);
            served == Slice(entries, t, c, limit) <==> from == c
  {
  }

  /** The page's changes are the entries of its stretch of the feed. */
  lemma LocalIs(read: Reader, keys: seq<Bytes>, from: nat, n: nat, docs: seq<Document>)
    requires AllFound(read, keys) && from + n <= |keys| && Covers(read, docs, keys[from..from + n])
    ensures ChangesOf(docs) == FeedEntries(read, keys)[from..from + n]
    ensures forall j :: 0 <= j < n ==> docs[j].localSeq == SeqOf(keys[from + j])
  {
    forall j | 0 <= j < n ensures docs[j] == read(keys[from + j]).doc { assert keys[from..from + n][j] == keys[from + j]; }
  }
}
