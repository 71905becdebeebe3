/** What a query answers, document by document, whichever way it is answered. */
module Answers {
  import opened ByteStrings
  import opened Documents
  import opened DocStore
  import opened Engine
  import opened Finds
  import opened Indexes
  import opened Iterators
  import opened Queries
  import opened Rebuilds
  import opened Selectors
  import opened SortedKeys
  import opened StoreInvariant
  import opened Writers

  /** The places from one to another where a condition holds, in order. */
  ghost function Places(p: int -> bool, from: nat, n: nat): (at: seq<int>)
    requires from <= n
    ensures forall i :: i in at <==> from <= i < n && p(i)
    ensures forall a, b :: 0 <= a < b < |at| ==> at[a] < at[b]
    decreases n - from
  {
    if from == n then []
    else
      var rest := Places(p, from + 1, n);
      assert forall a :: 0 <= a < |rest| ==> rest[a] in rest;
      if p(from) then [from] + rest else rest
  }

  ghost function Verdicts(re: Matcher, sel: Selector, ds: seq<Document>, m: Outcome): int -> bool {
    i => 0 <= i < |ds| && Match(re, sel, ds[i]) == m
  }

  ghost function DocsAt(ds: seq<Document>, at: seq<int>): (r: seq<Document>)
    requires forall i :: i in at ==> 0 <= i < |ds|
    ensures |r| == |at| && forall j :: 0 <= j < |at| ==> at[j] in at && r[j] == ds[at[j]]
  {
    assert forall j :: 0 <= j < |at| ==> at[j] in at;
    seq(|at|, j requires 0 <= j < |at| => ds[at[j]])
  }

  ghost function Cut<T>(xs: seq<T>, r: int): seq<T> {
    if 0 <= r < |xs| then xs[..r] else xs
  }

  /** A failure comes before there are r hits. */
  ghost predicate FailsBefore(yes: int -> bool, no: int -> bool, from: nat, n: nat, r: int)
    requires from <= n
  {
    exists i :: from <= i < n && no(i) && |Places(yes, from, i)| < r
  }

  lemma FailsStep(yes: int -> bool, no: int -> bool, from: nat, n: nat, r: int, left: int)
    requires from < n && r > 0 && left == if yes(from) then r - 1 else r
    ensures FailsBefore(yes, no, from, n, r) <==> no(from) || FailsBefore(yes, no, from + 1, n, left)
  {
    if no(from) { assert |Places(yes, from, from)| == 0; }
    forall i | from < i < n ensures |Places(yes, from, i)| - r == |Places(yes, from + 1, i)| - left {}
    if FailsBefore(yes, no, from + 1, n, left) {
      var i :| from + 1 <= i < n && no(i) && |Places(yes, from + 1, i)| < left;
      assert |Places(yes, from, i)| < r;
    }
    if i :| from <= i < n && no(i) && |Places(yes, from, i)| < r {
      if i > from { assert |Places(yes, from + 1, i)| < left; }
    }
  }

  lemma CutStep<T>(x: T, xs: seq<T>, r: int)
    requires r > 0
    ensures Cut([x] + xs, r) == [x] + Cut(xs, r - 1)
  {
  }

  lemma DocsAtCons(ds: seq<Document>, i: nat, at: seq<int>)
    requires i < |ds| && forall j :: j in at ==> 0 <= j < |ds|
    ensures DocsAt(ds, [i] + at) == [ds[i]] + DocsAt(ds, at)
  {
  }

  lemma NothingLeft(ds: seq<Document>, at: seq<int>, from: nat, r: int)
    requires from == |ds| || r == 0
    requires forall j :: j in at ==> from <= j < |ds|
    ensures Cut(DocsAt(ds, at), r) == []
  {
    if at != [] { assert at[0] in at; }
  }

  /******* The scan *******/

  /** The first r matching documents, in order; the query fails exactly if matching
      fails before those are found. */
  ghost function FirstMatches(re: Matcher, sel: Selector, ds: seq<Document>, from: nat, r: nat): Finds.Found
    requires from <= |ds|
  {
    var yes := Verdicts(re, sel, ds, Yes);
    if FailsBefore(yes, Verdicts(re, sel, ds, Failed), from, |ds|, r) then None
    else Some(Cut(DocsAt(ds, Places(yes, from, |ds|)), r))
  }

  lemma {:induction false} PicksFrom(re: Matcher, sel: Selector, ds: seq<Document>, from: nat, r: nat)
    requires from <= |ds|
    ensures Picks(re, sel, ds[from..], r) == FirstMatches(re, sel, ds, from, r)
    decreases |ds| - from
  {
    var yes := Verdicts(re, sel, ds, Yes);
    if from < |ds| && r > 0 {
      assert ds[from..] == [ds[from]] + ds[from + 1..];
      PicksCons(re, sel, ds[from], ds[from + 1..], r);
      var left := if Match(re, sel, ds[from]) == Yes then r - 1 else r;
      PicksFrom(re, sel, ds, from + 1, left);
      FailsStep(yes, Verdicts(re, sel, ds, Failed), from, |ds|, r, left);
      DocsAtCons(ds, from, Places(yes, from + 1, |ds|));
      CutStep(ds[from], DocsAt(ds, Places(yes, from + 1, |ds|)), r);
    } else {
      NothingLeft(ds, Places(yes, from, |ds|), from, r);
    }
  }

  /******* Through the index *******/

  /** The documents that the looked-up IDs are read as. */
  ghost function ReadAs(s: Store, ids: seq<Bytes>): (ds: seq<Document>)
    ensures |ds| == |ids|
    ensures forall i :: 0 <= i < |ids| && GetDocument(s, ids[i]).Found? ==> ds[i] == GetDocument(s, ids[i]).doc
  {
    seq(|ids|, i requires 0 <= i < |ids| => if GetDocument(s, ids[i]).Found? then GetDocument(s, ids[i]).doc else BLANK)
  }

  /** Judging a live document comes out this way. */
  ghost function ReadVerdicts(re: Matcher, sel: Selector, s: Store, ids: seq<Bytes>, m: Outcome): int -> bool {
    i => && 0 <= i < |ids| && GetDocument(s, ids[i]).Found? && !GetDocument(s, ids[i]).doc.deleted
         && Match(re, sel, GetDocument(s, ids[i]).doc) == m
  }

  /** A failure counts if it comes before what is wanted is found. */
  ghost predicate Broke(yes: int -> bool, no: int -> bool, from: nat, n: nat, skip: nat, limit: int)
    requires from <= n
  {
    if limit > 0 then FailsBefore(yes, no, from, n, skip + limit) else exists i :: from <= i < n && no(i)
  }

  ghost function Slice(all: seq<Document>, skip: nat, limit: int): seq<Document> {
    if skip >= |all| then [] else if limit > 0 then Cut(all[skip..], limit) else all[skip..]
  }

  /** The hits from some place on, less the skipped ones, up to the limit if there is one. */
  ghost function HitsFrom(yes: int -> bool, no: int -> bool, ds: seq<Document>, from: nat, skip: int, limit: int): Finds.Found
    requires from <= |ds| && forall i :: yes(i) ==> 0 <= i < |ds|
  {
    var skipped := if skip < 0 then 0 else skip;
    if Broke(yes, no, from, |ds|, skipped, limit) then None
    else Some(Slice(DocsAt(ds, Places(yes, from, |ds|)), skipped, limit))
  }

  ghost predicate JudgedAs(judge: Judge, id: Bytes, yes: bool, no: bool, d: Document) {
    match judge(id)
    case Hit(doc) => yes && !no && d == doc
    case Miss => !yes && !no
    case Broken => !yes && no
  }

  lemma {:induction false} PickedFrom(judge: Judge, ids: seq<Bytes>, yes: int -> bool, no: int -> bool, ds: seq<Document>,
                                      from: nat, skip: int, limit: int)
    requires from <= |ds| == |ids| && forall i :: yes(i) ==> 0 <= i < |ds|
    requires forall i :: 0 <= i < |ids| ==> JudgedAs(judge, ids[i], yes(i), no(i), ds[i])
    ensures IndexPicks(judge, ids[from..], skip, limit) == HitsFrom(yes, no, ds, from, skip, limit)
    decreases |ds| - from
  {
    if from < |ds| {
      assert JudgedAs(judge, ids[from], yes(from), no(from), ds[from]);
      IndexUnfold(judge, ids, from, skip, limit);
      if yes(from) && skip > 0 {
        PickedFrom(judge, ids, yes, no, ds, from + 1, skip - 1, limit);
        HitsSkip(yes, no, ds, from, skip, limit);
      } else if yes(from) && limit == 1 {
        HitsEnd(yes, no, ds, from, skip);
      } else if yes(from) {
        PickedFrom(judge, ids, yes, no, ds, from + 1, skip, if limit > 0 then limit - 1 else limit);
        HitsTake(yes, no, ds, from, skip, limit);
      } else {
        PickedFrom(judge, ids, yes, no, ds, from + 1, skip, limit);
        HitsMiss(yes, no, ds, from, skip, limit);
      }
    } else {
      HitsOver(yes, no, ds, skip, limit);
    }
  }

  lemma IndexUnfold(judge: Judge, ids: seq<Bytes>, from: nat, skip: int, limit: int)
    requires from < |ids|
    ensures IndexPicks(judge, ids[from..], skip, limit)
         == match judge(ids[from])
            case Broken => None
            case Miss => IndexPicks(judge, ids[from + 1..], skip, limit)
            case Hit(doc) =>
              if skip > 0 then IndexPicks(judge, ids[from + 1..], skip - 1, limit)
              else if limit == 1 then Some([doc])
              else Prepend(doc, IndexPicks(judge, ids[from + 1..], skip, if limit > 0 then limit - 1 else limit))
  {
    assert ids[from..][1..] == ids[from + 1..];
    if judge(ids[from]).Hit? { assert [judge(ids[from]).doc] + [] == [judge(ids[from]).doc]; }
  }

  lemma HitsOver(yes: int -> bool, no: int -> bool, ds: seq<Document>, skip: int, limit: int)
    requires forall i :: yes(i) ==> 0 <= i < |ds|
    ensures HitsFrom(yes, no, ds, |ds|, skip, limit) == Some([])
  {
  }

  lemma HitsMiss(yes: int -> bool, no: int -> bool, ds: seq<Document>, from: nat, skip: int, limit: int)
    requires from < |ds| && (forall i :: yes(i) ==> 0 <= i < |ds|) && !yes(from)
    ensures HitsFrom(yes, no, ds, from, skip, limit) == if no(from) then None else HitsFrom(yes, no, ds, from + 1, skip, limit)
  {
    var k := if skip < 0 then 0 else skip;
    BrokeStep(yes, no, from, |ds|, k, limit, k, limit);
  }

  lemma HitsSkip(yes: int -> bool, no: int -> bool, ds: seq<Document>, from: nat, skip: int, limit: int)
    requires from < |ds| && (forall i :: yes(i) ==> 0 <= i < |ds|) && yes(from) && !no(from) && skip > 0
    ensures HitsFrom(yes, no, ds, from, skip, limit) == HitsFrom(yes, no, ds, from + 1, skip - 1, limit)
  {
    var rest := Places(yes, from + 1, |ds|);
    BrokeStep(yes, no, from, |ds|, skip, limit, skip - 1, limit);
    DocsAtCons(ds, from, rest);
    SliceSkip(ds[from], DocsAt(ds, rest), skip, limit);
  }

  lemma HitsTake(yes: int -> bool, no: int -> bool, ds: seq<Document>, from: nat, skip: int, limit: int)
    requires from < |ds| && (forall i :: yes(i) ==> 0 <= i < |ds|) && yes(from) && !no(from) && skip <= 0 && limit != 1
    ensures HitsFrom(yes, no, ds, from, skip, limit) ==
            Prepend(ds[from], HitsFrom(yes, no, ds, from + 1, skip, if limit > 0 then limit - 1 else limit))
  {
    var rest := Places(yes, from + 1, |ds|);
    BrokeStep(yes, no, from, |ds|, 0, limit, 0, if limit > 0 then limit - 1 else limit);
    DocsAtCons(ds, from, rest);
    SliceTake(ds[from], DocsAt(ds, rest), limit);
  }

  lemma HitsEnd(yes: int -> bool, no: int -> bool, ds: seq<Document>, from: nat, skip: int)
    requires from < |ds| && (forall i :: yes(i) ==> 0 <= i < |ds|) && yes(from) && !no(from) && skip <= 0
    ensures HitsFrom(yes, no, ds, from, skip, 1) == Some([ds[from]])
  {
    var rest := Places(yes, from + 1, |ds|);
    BrokeStep(yes, no, from, |ds|, 0, 1, 0, 0);
    DocsAtCons(ds, from, rest);
    SliceTake(ds[from], DocsAt(ds, rest), 1);
  }

  lemma SliceSkip(d: Document, all: seq<Document>, skip: nat, limit: int)
    requires skip > 0
    ensures Slice([d] + all, skip, limit) == Slice(all, skip - 1, limit)
  {
    if skip <= |all| { assert ([d] + all)[skip..] == all[skip - 1..]; }
  }

  lemma SliceTake(d: Document, all: seq<Document>, limit: int)
    ensures limit == 1 ==> Slice([d] + all, 0, limit) == [d]
    ensures limit != 1 ==> Slice([d] + all, 0, limit) == [d] + Slice(all, 0, if limit > 0 then limit - 1 else limit)
  {
    assert ([d] + all)[0..] == [d] + all && all[0..] == all;
    if limit > 0 { CutStep(d, all, limit); }
  }

  lemma BrokeStep(yes: int -> bool, no: int -> bool, from: nat, n: nat, skip: nat, limit: int, skip': nat, limit': int)
    requires from < n && (limit > 0 <==> limit' > 0 || limit == 1)
    requires skip' + limit' == skip + limit - (if yes(from) && (skip > 0 || limit > 0) then 1 else 0)
    requires limit <= 0 ==> limit' == limit
    requires limit == 1 && limit' == 0 ==> skip' == 0
    ensures limit' > 0 || limit <= 0 ==>
              (Broke(yes, no, from, n, skip, limit) <==> no(from) || Broke(yes, no, from + 1, n, skip', limit'))
    ensures limit == 1 && limit' == 0 ==> (Broke(yes, no, from, n, skip, limit) <==> no(from))
  {
    if limit > 0 { FailsStep(yes, no, from, n, skip + limit, skip' + limit'); }
  }

  lemma {:induction false} JudgedFrom(re: Matcher, sel: Selector, s: Store, ids: seq<Bytes>, skip: int, limit: int)
    ensures IndexPicks(JudgeOf(re, sel, s), ids, skip, limit) == IndexAnswer(re, sel, s, ids, skip, limit)
  {
    var judge, ds := JudgeOf(re, sel, s), ReadAs(s, ids);
    var yes, no := ReadVerdicts(re, sel, s, ids, Yes), ReadVerdicts(re, sel, s, ids, Failed);
    forall i | 0 <= i < |ids| ensures JudgedAs(judge, ids[i], yes(i), no(i), ds[i]) {
      ReadJudged(re, sel, s, ids, i);
    }
    assert ids[0..] == ids;
    PickedFrom(judge, ids, yes, no, ds, 0, skip, limit);
  }

  lemma ReadJudged(re: Matcher, sel: Selector, s: Store, ids: seq<Bytes>, i: nat)
    requires i < |ids|
    ensures JudgedAs(JudgeOf(re, sel, s), ids[i], ReadVerdicts(re, sel, s, ids, Yes)(i),
                     ReadVerdicts(re, sel, s, ids, Failed)(i), ReadAs(s, ids)[i])
  {
  }

  /** The live ones among the documents that the looked-up IDs are read as, those that
      match, skipped and limited after matching. */
  ghost function IndexAnswer(re: Matcher, sel: Selector, s: Store, ids: seq<Bytes>, skip: int, limit: int): Finds.Found {
    HitsFrom(ReadVerdicts(re, sel, s, ids, Yes), ReadVerdicts(re, sel, s, ids, Failed), ReadAs(s, ids), 0, skip, limit)
  }

  /******* Without a limit, and with an order *******/

  /** An unlimited scan gives the documents before the first that does not match. */
  lemma {:induction false} LeadingAre(re: Matcher, sel: Selector, ds: seq<Document>) returns (m: nat)
    ensures m <= |ds| && (forall i :: 0 <= i < m ==> Match(re, sel, ds[i]) == Yes)
    ensures m < |ds| ==> Match(re, sel, ds[m]) != Yes
    ensures LeadingMatches(re, sel, ds) == if m < |ds| && Match(re, sel, ds[m]) == Failed then None else Some(ds[..m])
    decreases |ds|
  {
    if ds == [] || Match(re, sel, ds[0]) != Yes {
      m := 0;
    } else {
      var k := LeadingAre(re, sel, ds[1..]);
      assert [ds[0]] + ds[1..][..k] == ds[..k + 1];
      m := k + 1;
    }
  }

  lemma {:induction false} AllAreFirst(re: Matcher, sel: Selector, ds: seq<Document>, r: nat)
    requires r >= |ds|
    ensures AllMatches(re, sel, ds) == Picks(re, sel, ds, r)
    decreases |ds|
  {
    if ds != [] { AllAreFirst(re, sel, ds[1..], if Match(re, sel, ds[0]) == Yes then r - 1 else r); }
  }

  lemma AllAre(re: Matcher, sel: Selector, ds: seq<Document>)
    ensures AllMatches(re, sel, ds) == FirstMatches(re, sel, ds, 0, |ds| + 1)
  {
    AllAreFirst(re, sel, ds, |ds| + 1);
    assert ds[0..] == ds;
    PicksFrom(re, sel, ds, 0, |ds| + 1);
  }

  /** From the bookmark on, less the first `skip` entries of whatever kind, the
      documents that are not deleted, in key order. */
  lemma LiveFromAre(env: Env, s: Store, skip: int, bookmark: Bytes) returns (ranged: seq<Cell>)
    requires Inv(env, s)
    ensures AscendingCells(ranged)
    ensures forall c :: c in ranged <==> c.key in DocsIn(s) && DocsIn(s)[c.key] == Doc(c.doc) && AtMost(bookmark, c.key)
    ensures LiveFrom(s, skip, bookmark)
         == DocsOf(Filter((c: Cell) => !c.doc.deleted, ranged[Clamp(skip, |ranged|)..]))
  {
    var o, docs := ScanOptions(skip, bookmark), DocsIn(s);
    ranged := Filter(HasStarted(o), Cells(docs));
    CellsAscend(docs);
    FilterAscending(HasStarted(o), Cells(docs));
    forall c ensures c in ranged <==> c.key in docs && docs[c.key] == Doc(c.doc) && AtMost(bookmark, c.key) {
      FilterMembers(HasStarted(o), Cells(docs));
      CellIn(docs, c);
      assert c.key in docs ==> docs[c.key].Doc?;
    }
    var left := ranged[Clamp(skip, |ranged|)..];
    FilterSame(Keeping(o), (c: Cell) => !c.doc.deleted, left);
  }

  /******* The query *******/

  /** The first index the hint admits and all of whose fields, of which there is one,
      have an equality condition. */
  ghost predicate FirstUsable(indices: seq<Index>, hint: Index -> bool, eq: map<Bytes, Json>, k: nat) {
    k < |indices| && CanUse(indices[k], hint, eq) && forall j :: 0 <= j < k ==> !CanUse(indices[j], hint, eq)
  }

  ghost predicate CanUse(i: Index, hint: Index -> bool, eq: map<Bytes, Json>) {
    i.MangoIndex? && hint(i) && |i.fields| > 0 && forall j :: 0 <= j < |i.fields| ==> i.fields[j] in eq
  }

  lemma {:induction false} BestIsFirst(indices: seq<Index>, hint: Index -> bool, eq: map<Bytes, Json>) returns (k: nat)
    ensures BestIndex(indices, hint, eq).Some? ==>
              FirstUsable(indices, hint, eq, k) && BestIndex(indices, hint, eq) == Some(indices[k])
    ensures BestIndex(indices, hint, eq).None? ==> forall j :: 0 <= j < |indices| ==> !CanUse(indices[j], hint, eq)
    decreases |indices|
  {
    k := 0;
    if indices != [] {
      assert CanUse(indices[0], hint, eq) <==> Usable(hint, eq, indices[0]);
      if !Usable(hint, eq, indices[0]) {
        var j := BestIsFirst(indices[1..], hint, eq);
        k := j + 1;
      }
    }
  }

  /** Through an index: the first usable one, looked up with the conditions' values. */
  lemma IndexAnswers(re: Matcher, members: seq<Selector>, indices: seq<Index>, s: Store, q: Wish, k: nat, values: seq<Json>)
    requires q.order.None? && FirstUsable(indices, q.hint, EqConditions(members), k)
    requires |values| == |indices[k].fields|
    requires forall j :: 0 <= j < |values| ==> values[j] == EqConditions(members)[indices[k].fields[j]]
    ensures Answer(re, members, indices, s, q)
         == IndexAnswer(re, Group(And, members), s, LookupEq(s, indices[k].n, indices[k].encode, values), q.skip, q.limit)
  {
    var eq := EqConditions(members);
    var j := BestIsFirst(indices, q.hint, eq);
    BestIsUsable(indices, q.hint, eq);
    assert values == ValuesOf(indices[k].fields, eq);
    JudgedFrom(re, Group(And, members), s, LookupEq(s, indices[k].n, indices[k].encode, values), q.skip, q.limit);
  }

  /** By scanning, with a limit. */
  lemma ScanAnswers(re: Matcher, members: seq<Selector>, indices: seq<Index>, s: Store, q: Wish)
    requires q.order.None? && q.limit > 0 && TotalRows(s) != 0
    requires forall j :: 0 <= j < |indices| ==> !CanUse(indices[j], q.hint, EqConditions(members))
    ensures Answer(re, members, indices, s, q)
         == FirstMatches(re, Group(And, members), LiveFrom(s, q.skip, q.bookmark), 0, q.limit)
  {
    var sel, ds := Group(And, members), LiveFrom(s, q.skip, q.bookmark);
    var k := BestIsFirst(indices, q.hint, EqConditions(members));
    Finds.ScanFinds(re, sel, s, q.skip, q.limit, q.bookmark);
    assert ds[0..] == ds;
    PicksFrom(re, sel, ds, 0, q.limit);
  }

  /** With an order: all the matches, put in order, then skipped and limited. */
  lemma OrderedAnswers(re: Matcher, members: seq<Selector>, indices: seq<Index>, s: Store, q: Wish)
    requires q.order.Some? && q.skip >= 0 && TotalRows(s) != 0
    requires forall d :: d in LiveFrom(s, 0, []) ==> Match(re, Group(And, members), d) != Failed
    ensures Answer(re, members, indices, s, q)
         == Some(Slice(q.order.value(Matching(re, Group(And, members), LiveFrom(s, 0, []))), q.skip, q.limit))
  {
    var sel, ds := Group(And, members), LiveFrom(s, 0, []);
    LiveFromStart(s);
    OrderedSeesAll(re, sel, s);
    MatchingAre(re, sel, ds);
    SlicedIs(q.order.value(Matching(re, sel, ds)), q.skip, q.limit);
  }

  lemma SlicedIs(all: seq<Document>, skip: nat, limit: int)
    ensures Sliced(all, skip, limit) == Some(Slice(all, skip, limit))
  {
  }

  ghost function Matching(re: Matcher, sel: Selector, ds: seq<Document>): seq<Document> {
    DocsAt(ds, Places(Verdicts(re, sel, ds, Yes), 0, |ds|))
  }

  lemma MatchingAre(re: Matcher, sel: Selector, ds: seq<Document>)
    requires forall d :: d in ds ==> Match(re, sel, d) != Failed
    ensures AllMatches(re, sel, ds) == Some(Matching(re, sel, ds))
  {
    AllAre(re, sel, ds);
    NoFailure(re, sel, ds, |ds| + 1);
    PlacesWithin(Verdicts(re, sel, ds, Yes), 0, |ds|);
  }

  lemma NoFailure(re: Matcher, sel: Selector, ds: seq<Document>, r: int)
    requires forall d :: d in ds ==> Match(re, sel, d) != Failed
    ensures !FailsBefore(Verdicts(re, sel, ds, Yes), Verdicts(re, sel, ds, Failed), 0, |ds|, r)
  {
  }

  lemma {:induction false} PlacesWithin(p: int -> bool, from: nat, n: nat)
    requires from <= n
    ensures |Places(p, from, n)| <= n - from
    decreases n - from
  {
    if from < n { PlacesWithin(p, from + 1, n); }
  }
}
