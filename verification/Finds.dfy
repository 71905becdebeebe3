/** Finding documents: the equality lookup in a Mango index, the full scan, and why
    the shortcut gives the scan's answer. */
module Finds {
  import opened ByteStrings
  import opened Documents
  import opened DocStore
  import opened Engine
  import opened IndexInvariants
  import opened Indexes
  import opened Iterators
  import opened Rebuilds
  import opened Selectors
  import opened SortedKeys
  import opened StoreInvariant
  import opened Transactions
  import opened Writers

  /******* Equality lookup *******/

  /** What follows the encoded values in the keys under them. */
  function LookupEq(s: Store, n: nat, encode: Json -> Bytes, values: seq<Json>): seq<Bytes> {
    SuffixesAfter(Prefix(encode, values), KeysUnder(Prefix(encode, values), Entries(s, Mango(n))))
  }

  method Lookup(s: Store, n: nat, encode: Json -> Bytes, values: seq<Json>) returns (ids: seq<Bytes>)
    ensures ids == LookupEq(s, n, encode, values)
  {
    var prefix := BuildPrefix(encode, values);
    var keys := Sorted(Entries(s, Mango(n)).Keys);
    ghost var end;
    ids, end := ScanUnder(keys, prefix);
    ScanIsKeysUnder(prefix, Entries(s, Mango(n)), keys, end);
  }

  /** The document's leading indexed fields encode like the values. */
  predicate Leads(encode: Json -> Bytes, fields: seq<Bytes>, values: seq<Json>, doc: Document) {
    |values| <= |fields| && forall j :: 0 <= j < |values| ==> encode(Field(doc, fields[j])) == encode(values[j])
  }

  lemma {:induction false} SamePrefix(encode: Json -> Bytes, vs: seq<Json>, ws: seq<Json>)
    requires |vs| == |ws| && forall j :: 0 <= j < |vs| ==> encode(vs[j]) == encode(ws[j])
    ensures Prefix(encode, vs) == Prefix(encode, ws)
  {
    if vs != [] {
      forall j | 0 <= j < |vs[1..]| ensures encode(vs[1..][j]) == encode(ws[1..][j]) {
        assert vs[1..][j] == vs[j + 1] && ws[1..][j] == ws[j + 1];
      }
      SamePrefix(encode, vs[1..], ws[1..]);
    }
  }

  /** What the lookup returns for a document: the rest of its key. */
  ghost function RestOfKey(encode: Json -> Bytes, fields: seq<Bytes>, m: nat, doc: Document): Bytes
    requires m <= |fields|
  {
    Prefix(encode, FieldValues(fields, doc)[m..]) + doc.id
  }

  lemma KeySplit(encode: Json -> Bytes, fields: seq<Bytes>, m: nat, doc: Document)
    requires m <= |fields|
    ensures MangoKey(encode, fields, doc) == Prefix(encode, FieldValues(fields, doc)[..m]) + RestOfKey(encode, fields, m, doc)
  {
    var vs := FieldValues(fields, doc);
    assert vs == vs[..m] + vs[m..];
    PrefixAppend(encode, vs[..m], vs[m..]);
  }

  lemma SuffixMember(p: Bytes, entries: map<Bytes, Value>, r: Bytes)
    ensures r in SuffixesAfter(p, KeysUnder(p, entries)) <==> p + r in entries
  {
    var keys := KeysUnder(p, entries);
    var all := SuffixesAfter(p, keys);
    if r in all {
      var j :| 0 <= j < |all| && all[j] == r;
      assert keys[j] in keys && keys[j] == p + keys[j][|p|..];
    }
    if p + r in entries {
      assert (p + r)[..|p|] == p;
      assert p + r in keys;
      var j :| 0 <= j < |keys| && keys[j] == p + r;
      assert all[j] == r;
    }
  }

  lemma KeyUnder(encode: Json -> Bytes, fields: seq<Bytes>, values: seq<Json>, doc: Document, r: Bytes)
    requires |values| <= |fields| && Encodable(encode, values) && Encodable(encode, FieldValues(fields, doc))
    ensures MangoKey(encode, fields, doc) == Prefix(encode, values) + r
            <==> Leads(encode, fields, values, doc) && r == RestOfKey(encode, fields, |values|, doc)
  {
    var vs := FieldValues(fields, doc)[..|values|];
    KeySplit(encode, fields, |values|, doc);
    LeadsByField(encode, fields, values, doc, vs);
    if MangoKey(encode, fields, doc) == Prefix(encode, values) + r {
      PrefixSplits(encode, vs, values, RestOfKey(encode, fields, |values|, doc), r);
    }
    if Leads(encode, fields, values, doc) { SamePrefix(encode, vs, values); }
  }

  lemma LeadsByField(encode: Json -> Bytes, fields: seq<Bytes>, values: seq<Json>, doc: Document, vs: seq<Json>)
    requires |values| <= |fields| && vs == FieldValues(fields, doc)[..|values|]
    ensures Leads(encode, fields, values, doc) <==> forall j :: 0 <= j < |vs| ==> encode(vs[j]) == encode(values[j])
  {
    assert forall j :: 0 <= j < |vs| ==> vs[j] == Field(doc, fields[j]);
  }

  /** An indexed document with these leading values. */
  ghost predicate Answers(docs: Winners, encode: Json -> Bytes, fields: seq<Bytes>, values: seq<Json>, id: Bytes, r: Bytes) {
    && id in docs && MangoIndexable(docs[id]) && Leads(encode, fields, values, docs[id])
    && r == RestOfKey(encode, fields, |values|, docs[id])
  }

  /** The lookup finds exactly the indexed documents with these leading values, and
      gives for each the rest of its key. */
  lemma LookupHolds(s: Store, n: nat, fields: seq<Bytes>, encode: Json -> Bytes, values: seq<Json>, docs: Winners, r: Bytes)
    requires IndexAgrees(MangoIndex(n, fields, encode), s, docs) && Keyed(docs)
    requires |values| <= |fields| && Encodable(encode, values)
    ensures r in LookupEq(s, n, encode, values) <==> exists id :: Answers(docs, encode, fields, values, id, r)
  {
    var main, keys, p := s[Mango(n)].entries, MangoKeys(fields, encode, docs), Prefix(encode, values);
    SuffixMember(p, main, r);
    if p + r in main {
      var id :| id in keys && keys[id] == p + r;
      KeyUnder(encode, fields, values, docs[id], r);
      assert Answers(docs, encode, fields, values, id, r);
    }
    if id :| Answers(docs, encode, fields, values, id, r) {
      KeyUnder(encode, fields, values, docs[id], r);
      assert id in keys && keys[id] in main;
    }
  }

  lemma FullRest(encode: Json -> Bytes, fields: seq<Bytes>, doc: Document)
    ensures RestOfKey(encode, fields, |fields|, doc) == doc.id
  {
    assert FieldValues(fields, doc)[|fields|..] == [];
  }

  lemma LookupFull(s: Store, n: nat, fields: seq<Bytes>, encode: Json -> Bytes, values: seq<Json>, docs: Winners, id: Bytes)
    requires IndexAgrees(MangoIndex(n, fields, encode), s, docs) && Keyed(docs)
    requires |values| == |fields| && Encodable(encode, values)
    ensures id in LookupEq(s, n, encode, values) <==> Leading(docs, encode, fields, values, id)
  {
    LookupHolds(s, n, fields, encode, values, docs, id);
    if o :| Answers(docs, encode, fields, values, o, id) { FullRest(encode, fields, docs[o]); }
    if Leading(docs, encode, fields, values, id) {
      FullRest(encode, fields, docs[id]);
      assert Answers(docs, encode, fields, values, id, id);
    }
  }

  /** With a value for every field it finds exactly the documents' IDs. */
  lemma LookupExact(s: Store, n: nat, fields: seq<Bytes>, encode: Json -> Bytes, values: seq<Json>, docs: Winners, id: Bytes)
    requires IndexAgrees(MangoIndex(n, fields, encode), s, docs) && Keyed(docs)
    requires |values| == |fields| && Encodable(encode, values)
    ensures id in LookupEq(s, n, encode, values)
            <==> id in docs && !docs[id].deleted && !IsDesign(id) && !IsLocal(id)
                 && forall j :: 0 <= j < |fields| ==> encode(Field(docs[id], fields[j])) == encode(values[j])
  {
    LookupFull(s, n, fields, encode, values, docs, id);
  }

  /** With fewer values than fields, what it returns for a document still begins with
      the other fields. */
  lemma PartialLookup(s: Store, n: nat, fields: seq<Bytes>, encode: Json -> Bytes, values: seq<Json>, docs: Winners, id: Bytes)
    requires IndexAgrees(MangoIndex(n, fields, encode), s, docs) && Keyed(docs)
    requires |values| < |fields| && Encodable(encode, values)
    requires Leading(docs, encode, fields, values, id)
    ensures RestOfKey(encode, fields, |values|, docs[id]) in LookupEq(s, n, encode, values)
    ensures |RestOfKey(encode, fields, |values|, docs[id])| >= |id| + 2
  {
    var r := RestOfKey(encode, fields, |values|, docs[id]);
    assert Answers(docs, encode, fields, values, id, r);
    LookupHolds(s, n, fields, encode, values, docs, r);
    assert FieldValues(fields, docs[id])[|values|..] != [];
  }

  /** An indexed document with these leading values. */
  ghost predicate Leading(docs: Winners, encode: Json -> Bytes, fields: seq<Bytes>, values: seq<Json>, id: Bytes) {
    id in docs && MangoIndexable(docs[id]) && Leads(encode, fields, values, docs[id])
  }

  /** A returned string is longer than the ID it was made of, so some document with
      these values is never returned under its own ID. */
  lemma {:induction false} SomeIdMissing(s: Store, n: nat, fields: seq<Bytes>, encode: Json -> Bytes, values: seq<Json>,
                                         docs: Winners, id: Bytes)
    requires IndexAgrees(MangoIndex(n, fields, encode), s, docs) && Keyed(docs)
    requires |values| < |fields| && Encodable(encode, values) && Leading(docs, encode, fields, values, id)
    ensures exists o :: Leading(docs, encode, fields, values, o) && o !in LookupEq(s, n, encode, values)
    decreases |id|
  {
    if id in LookupEq(s, n, encode, values) {
      LookupHolds(s, n, fields, encode, values, docs, id);
      var o :| Answers(docs, encode, fields, values, o, id);
      PartialLookup(s, n, fields, encode, values, docs, o);
      SomeIdMissing(s, n, fields, encode, values, docs, o);
    }
  }

  /** The lookup returns exactly the documents with these leading values. */
  ghost predicate ReturnsIds(s: Store, n: nat, fields: seq<Bytes>, encode: Json -> Bytes, values: seq<Json>, docs: Winners) {
    forall id :: id in LookupEq(s, n, encode, values) <==> Leading(docs, encode, fields, values, id)
  }

  lemma NothingToReturn(s: Store, n: nat, fields: seq<Bytes>, encode: Json -> Bytes, values: seq<Json>, docs: Winners)
    requires IndexAgrees(MangoIndex(n, fields, encode), s, docs) && Keyed(docs)
    requires |values| <= |fields| && Encodable(encode, values)
    requires forall id :: !Leading(docs, encode, fields, values, id)
    ensures ReturnsIds(s, n, fields, encode, values, docs)
  {
    forall id ensures id !in LookupEq(s, n, encode, values) {
      LookupHolds(s, n, fields, encode, values, docs, id);
      if o :| Answers(docs, encode, fields, values, o, id) { assert Leading(docs, encode, fields, values, o); }
    }
  }

  lemma FullReturnsIds(s: Store, n: nat, fields: seq<Bytes>, encode: Json -> Bytes, values: seq<Json>, docs: Winners)
    requires IndexAgrees(MangoIndex(n, fields, encode), s, docs) && Keyed(docs)
    requires |values| == |fields| && Encodable(encode, values)
    ensures ReturnsIds(s, n, fields, encode, values, docs)
  {
    forall id ensures id in LookupEq(s, n, encode, values) <==> Leading(docs, encode, fields, values, id) {
      LookupFull(s, n, fields, encode, values, docs, id);
    }
  }

  /** The lookup returns exactly the IDs of the documents with these leading values
      when there is a value for every field, or no such document; partial lookups,
      which are meant to work, never do. */
  lemma LookupReturnsIds(s: Store, n: nat, fields: seq<Bytes>, encode: Json -> Bytes, values: seq<Json>, docs: Winners)
    requires IndexAgrees(MangoIndex(n, fields, encode), s, docs) && Keyed(docs)
    requires |values| <= |fields| && Encodable(encode, values)
    ensures ReturnsIds(s, n, fields, encode, values, docs)
            <==> |values| == |fields| || forall id :: !Leading(docs, encode, fields, values, id)
  {
    if |values| == |fields| {
      FullReturnsIds(s, n, fields, encode, values, docs);
    } else if id :| Leading(docs, encode, fields, values, id) {
      SomeIdMissing(s, n, fields, encode, values, docs, id);
    } else {
      NothingToReturn(s, n, fields, encode, values, docs);
    }
  }

  lemma SuffixesAscend(p: Bytes, entries: map<Bytes, Value>)
    ensures Ascending(SuffixesAfter(p, KeysUnder(p, entries)))
  {
    var keys := KeysUnder(p, entries);
    var all := SuffixesAfter(p, keys);
    SortedAscending(set k | k in entries && p <= k);
    forall i, j | 0 <= i < j < |all| ensures Before(all[i], all[j]) {
      assert keys[i] == p + all[i] && keys[j] == p + all[j];
      ComparePrepend(p, all[i], all[j]);
    }
  }

  /******* The scan *******/

  type Found = Option<seq<Document>>  // None: a match failed and the query with it

  function Prepend(d: Document, rest: Found): Found {
    if rest.Some? then Some([d] + rest.value) else None
  }

  /** A document that does not match gives its place in the limit back. */
  function LimitAfterMatch(limit: int, r: Outcome): int {
    if r == No then limit + 1 else limit
  }

  /** The scan's loop, from the entry under the cursor on. */
  function ScanLoop(re: Matcher, sel: Selector, o: Options, limit: int, ahead: seq<Cell>): Found
    decreases |ahead|
  {
    if !Continues(o, limit, ahead) then Some([])
    else
      var r := Match(re, sel, ahead[0].doc);
      if r == Failed then None
      else
        var l := LimitAfterMatch(limit, r);
        NextShorter(o, l, ahead[1..]);
        var next := NextFrom(o, l, ahead[1..]);
        var rest := ScanLoop(re, sel, o, LimitAfter(o, l, next), next);
        if r == Yes then Prepend(ahead[0].doc, rest) else rest
  }

  function ScanOptions(skip: int, bookmark: Bytes): Options {
    Options(if bookmark == [] then None else Some(bookmark), None, skip, true, false, false, false, false)
  }

  function FullScan(re: Matcher, sel: Selector, s: Store, skip: int, limit: int, bookmark: Bytes): Found {
    var o, cells := ScanOptions(skip, bookmark), Cells(Entries(s, Docs));
    var l := if limit != 0 then limit else -1;
    if TotalRows(s) == 0 then Some([])
    else ScanLoop(re, sel, o, l, FirstFrom(o, AfterSkip(o, l, AheadOf(cells, false, StartPos(o, cells)))))
  }

  method FindByScan(re: Matcher, sel: Selector, s: Store, skip: int, limit: int, bookmark: Bytes) returns (found: Found)
    ensures found == FullScan(re, sel, s, skip, limit, bookmark)
  {
    if TotalRows(s) == 0 { return Some([]); }
    var i := new Iterator(Entries(s, Docs));
    i.o := i.o.(skip := skip);
    if limit != 0 { i.limit := limit; }
    if bookmark != [] { i.o := i.o.(startKey := Some(bookmark)); }
    assert i.o == ScanOptions(skip, bookmark);
    found := ScanWith(re, sel, i);
  }

  method ScanWith(re: Matcher, sel: Selector, i: Iterator) returns (found: Found)
    modifies i`pos, i`limit
    ensures found == ScanLoop(re, sel, i.o, old(i.limit),
                              FirstFrom(i.o, AfterSkip(i.o, old(i.limit),
                                                       AheadOf(i.cells, i.o.descending, StartPos(i.o, i.cells)))))
  {
    var docs := [];
    var doc := i.First();
    ghost var goal := ScanLoop(re, sel, i.o, i.limit, i.Ahead());
    OnwardNothing(goal);
    while i.Continue()
      invariant goal == Onward(docs, ScanLoop(re, sel, i.o, i.limit, i.Ahead()))
      invariant Continues(i.o, i.limit, i.Ahead()) ==> doc == Some(i.Ahead()[0].doc)
      decreases |i.Ahead()|
    {
      ScanStep(re, sel, i.o, i.limit, i.Ahead(), docs);
      var r;
      r, docs, doc := ScanOne(re, sel, i, doc.value, docs);
      if r == Failed { return None; }
    }
    assert docs + [] == docs;
    found := Some(docs);
  }

  /** One document, and the cursor moves on. */
  method ScanOne(re: Matcher, sel: Selector, i: Iterator, d: Document, docs: seq<Document>)
    returns (r: Outcome, found: seq<Document>, next: Option<Document>)
    requires i.Continue()
    modifies i`pos, i`limit
    ensures r == Match(re, sel, d) && found == if r == Yes then docs + [d] else docs
    ensures r != Failed ==>
              var l := LimitAfterMatch(old(i.limit), r);
              && i.Ahead() == NextFrom(i.o, l, old(i.Ahead())[1..]) && i.limit == LimitAfter(i.o, l, i.Ahead())
    ensures r != Failed && Continues(i.o, i.limit, i.Ahead()) ==> next == Some(i.Ahead()[0].doc)
  {
    r := Match(re, sel, d);
    found, next := docs, None;
    if r == Failed { return; }
    if r == Yes { found := docs + [d]; } else { i.IncLimit(); }
    next := i.Next();
  }

  ghost function Onward(docs: seq<Document>, rest: Found): Found {
    if rest.Some? then Some(docs + rest.value) else None
  }

  lemma OnwardNothing(rest: Found)
    ensures Onward([], rest) == rest
  {
    if rest.Some? { assert [] + rest.value == rest.value; }
  }

  lemma ScanStep(re: Matcher, sel: Selector, o: Options, limit: int, ahead: seq<Cell>, docs: seq<Document>)
    requires Continues(o, limit, ahead)
    ensures var r := Match(re, sel, ahead[0].doc);
            var l := LimitAfterMatch(limit, r);
            var next := NextFrom(o, l, ahead[1..]);
            && |next| < |ahead|
            && (r == Failed ==> ScanLoop(re, sel, o, limit, ahead) == None)
            && (r != Failed ==>
                  Onward(docs, ScanLoop(re, sel, o, limit, ahead))
                  == Onward(if r == Yes then docs + [ahead[0].doc] else docs,
                            ScanLoop(re, sel, o, LimitAfter(o, l, next), next)))
  {
    var l := LimitAfterMatch(limit, Match(re, sel, ahead[0].doc));
    NextShorter(o, l, ahead[1..]);
    var next := NextFrom(o, l, ahead[1..]);
    OnwardNext(docs, ahead[0].doc, ScanLoop(re, sel, o, LimitAfter(o, l, next), next));
  }

  lemma OnwardNext(docs: seq<Document>, d: Document, rest: Found)
    ensures Onward(docs, Prepend(d, rest)) == Onward(docs + [d], rest)
  {
    if rest.Some? { assert docs + ([d] + rest.value) == docs + [d] + rest.value; }
  }

  /******* What the scan finds *******/

  /** The first r matches. */
  function Picks(re: Matcher, sel: Selector, ds: seq<Document>, r: nat): Found {
    if r == 0 || ds == [] then Some([])
    else match Match(re, sel, ds[0])
      case Failed => None
      case Yes => Prepend(ds[0], Picks(re, sel, ds[1..], r - 1))
      case No => Picks(re, sel, ds[1..], r)
  }

  /** The matches before the first document that does not match. */
  function LeadingMatches(re: Matcher, sel: Selector, ds: seq<Document>): Found {
    if ds == [] then Some([])
    else match Match(re, sel, ds[0])
      case Failed => None
      case Yes => Prepend(ds[0], LeadingMatches(re, sel, ds[1..]))
      case No => Some([])
  }

  ghost predicate PlainScan(o: Options) {
    o.endKey.None? && o.skipDeleted && !o.skipDesignDoc && !o.skipLocalDoc && !o.descending
  }

  lemma PlainClosed(o: Options, ahead: seq<Cell>)
    requires PlainScan(o)
    ensures RangeClosed(o, ahead)
  {
  }

  /** A limited scan counts matches, not documents. */
  lemma {:induction false} LimitedScan(re: Matcher, sel: Selector, o: Options, limit: int, ahead: seq<Cell>)
    requires PlainScan(o) && limit > 0 && ahead != []
    ensures ScanLoop(re, sel, o, limit, ahead) == Picks(re, sel, [ahead[0].doc] + Good(o, ahead[1..]), limit)
    decreases |ahead|, 0
  {
    var r, rest := Match(re, sel, ahead[0].doc), ahead[1..];
    PlainClosed(o, rest);
    PicksCons(re, sel, ahead[0].doc, Good(o, rest), limit);
    if r != Failed { LimitedNext(re, sel, o, LimitAfterMatch(limit, r), rest); }
  }

  lemma {:induction false} LimitedNext(re: Matcher, sel: Selector, o: Options, l: int, rest: seq<Cell>)
    requires PlainScan(o) && l > 0
    ensures var next := NextFrom(o, l, rest);
            && |next| <= |rest|
            && ScanLoop(re, sel, o, LimitAfter(o, l, next), next) == Picks(re, sel, Good(o, rest), l - 1)
    decreases |rest|, 1
  {
    PlainClosed(o, rest);
    NextGood(o, l, rest);
    var next := NextFrom(o, l, rest);
    if next != [] && l > 1 { LimitedScan(re, sel, o, l - 1, next); }
  }

  lemma PicksCons(re: Matcher, sel: Selector, d: Document, rest: seq<Document>, r: nat)
    requires r > 0
    ensures Picks(re, sel, [d] + rest, r)
         == match Match(re, sel, d)
            case Failed => None
            case Yes => Prepend(d, Picks(re, sel, rest, r - 1))
            case No => Picks(re, sel, rest, r)
  {
    assert ([d] + rest)[1..] == rest;
  }

  /** An unlimited scan turns into one that has no room left at the first document
      that does not match. */
  lemma {:induction false} UnlimitedScan(re: Matcher, sel: Selector, o: Options, ahead: seq<Cell>)
    requires PlainScan(o) && ahead != []
    ensures ScanLoop(re, sel, o, -1, ahead) == LeadingMatches(re, sel, [ahead[0].doc] + Good(o, ahead[1..]))
    decreases |ahead|
  {
    var r, rest := Match(re, sel, ahead[0].doc), ahead[1..];
    PlainClosed(o, rest);
    NextGood(o, -1, rest);
    NextShorter(o, -1, rest);
    var next := NextFrom(o, -1, rest);
    var ds := [ahead[0].doc] + Good(o, rest);
    assert ds[1..] == Good(o, rest);
    if r == Yes && next != [] { UnlimitedScan(re, sel, o, next); }
  }

  /** The live documents in key order, design and local ones included. */
  ghost function LiveCells(s: Store): seq<Cell> {
    Filter(Keeping(ScanOptions(0, [])), Cells(Entries(s, Docs)))
  }

  lemma FromFirst(re: Matcher, sel: Selector, o: Options, limit: int, cells: seq<Cell>)
    requires PlainScan(o) && (limit > 0 || limit == -1)
    ensures ScanLoop(re, sel, o, limit, FirstFrom(o, cells))
         == if limit > 0 then Picks(re, sel, Good(o, cells), limit) else LeadingMatches(re, sel, Good(o, cells))
  {
    PlainClosed(o, cells);
    FirstGood(o, cells);
    var first := FirstFrom(o, cells);
    if first != [] {
      if limit > 0 { LimitedScan(re, sel, o, limit, first); } else { UnlimitedScan(re, sel, o, first); }
    }
  }

  /** The live documents that are left when `skip` raw entries are dropped from the
      bookmark on: deleted ones count there too. */
  ghost function LiveFrom(s: Store, skip: int, bookmark: Bytes): seq<Document> {
    var o := ScanOptions(skip, bookmark);
    DocsOf(Filter(Keeping(o), Drop(Filter(HasStarted(o), Cells(Entries(s, Docs))), skip)))
  }

  lemma EndlessSkip(o: Options, limit: int, ahead: seq<Cell>)
    requires o.endKey.None? && limit != 0
    ensures AfterSkip(o, limit, ahead) == Drop(ahead, o.skip)
  {
  }

  lemma LiveFromStart(s: Store)
    ensures LiveFrom(s, 0, []) == DocsOf(LiveCells(s))
  {
    var o := ScanOptions(0, []);
    FilterAll(HasStarted(o), Cells(Entries(s, Docs)), true);
  }

  /** With a limit, the scan finds the first that many matches; without one it ends
      at the first live document that does not match. */
  lemma ScanFinds(re: Matcher, sel: Selector, s: Store, skip: int, limit: nat, bookmark: Bytes)
    requires TotalRows(s) != 0
    ensures FullScan(re, sel, s, skip, limit, bookmark)
         == if limit > 0 then Picks(re, sel, LiveFrom(s, skip, bookmark), limit)
            else LeadingMatches(re, sel, LiveFrom(s, skip, bookmark))
  {
    var o, cells := ScanOptions(skip, bookmark), Cells(Entries(s, Docs));
    var l := if limit != 0 then limit else -1;
    var ahead := AheadOf(cells, false, StartPos(o, cells));
    CellsAscend(Entries(s, Docs));
    StartExact(o, cells);
    EndlessSkip(o, l, ahead);
    FromFirst(re, sel, o, l, Drop(ahead, skip));
    GoodIsKept(o, Drop(ahead, skip));
  }

  /** No match comes after a document that does not match. */
  ghost predicate MatchesFirst(re: Matcher, sel: Selector, ds: seq<Document>) {
    forall i, j :: 0 <= i < j < |ds| && Match(re, sel, ds[j]) == Yes ==> Match(re, sel, ds[i]) == Yes
  }

  /** Without a limit the scan is complete exactly when the matches come first. */
  lemma {:induction false} UnlimitedExact(re: Matcher, sel: Selector, ds: seq<Document>)
    requires forall d :: d in ds ==> Match(re, sel, d) != Failed
    ensures LeadingMatches(re, sel, ds) == Picks(re, sel, ds, |ds|) <==> MatchesFirst(re, sel, ds)
  {
    if ds != [] {
      var rest := ds[1..];
      UnlimitedExact(re, sel, rest);
      if Match(re, sel, ds[0]) == Yes {
        PrependInjective(ds[0], LeadingMatches(re, sel, rest), Picks(re, sel, rest, |rest|));
        RestMatchesFirst(re, sel, ds);
      } else {
        NonePicked(re, sel, rest, |ds|);
        assert forall j :: 0 <= j < |rest| ==> rest[j] == ds[j + 1];
      }
    }
  }

  lemma PrependInjective(d: Document, a: Found, b: Found)
    ensures Prepend(d, a) == Prepend(d, b) <==> a == b
  {
    if a.Some? && b.Some? && [d] + a.value == [d] + b.value {
      assert a.value == ([d] + a.value)[1..] == ([d] + b.value)[1..] == b.value;
    }
  }

  lemma RestMatchesFirst(re: Matcher, sel: Selector, ds: seq<Document>)
    requires ds != [] && Match(re, sel, ds[0]) == Yes
    ensures MatchesFirst(re, sel, ds) <==> MatchesFirst(re, sel, ds[1..])
  {
    var rest := ds[1..];
    assert forall j :: 0 <= j < |rest| ==> rest[j] == ds[j + 1];
    assert forall j :: 0 < j < |ds| ==> ds[j] == rest[j - 1];
  }

  lemma {:induction false} NonePicked(re: Matcher, sel: Selector, ds: seq<Document>, r: nat)
    requires r > |ds| && forall d :: d in ds ==> Match(re, sel, d) != Failed
    ensures Picks(re, sel, ds, r) == Some([]) <==> forall j :: 0 <= j < |ds| ==> Match(re, sel, ds[j]) != Yes
    ensures Picks(re, sel, ds, r).Some?
  {
    if ds != [] {
      NonePicked(re, sel, ds[1..], r);
      NonePicked(re, sel, ds[1..], r - 1);
      assert forall j :: 0 < j < |ds| ==> ds[j] == ds[1..][j - 1];
      if forall j :: 0 <= j < |ds| ==> Match(re, sel, ds[j]) != Yes {
        assert forall j :: 0 <= j < |ds[1..]| ==> ds[1..][j] == ds[j + 1];
      }
    }
  }

  /******* Through the index *******/

  /** What becomes of one looked-up ID. */
  datatype Verdict = Hit(doc: Document) | Miss | Broken

  function Judged(re: Matcher, sel: Selector, read: Read): Verdict {
    if !read.Found? || read.doc.deleted then Miss
    else match Match(re, sel, read.doc)
      case Yes => Hit(read.doc)
      case No => Miss
      case Failed => Broken
  }

  type Judge = Bytes -> Verdict

  function JudgeOf(re: Matcher, sel: Selector, s: Store): Judge {
    id => Judged(re, sel, GetDocument(s, id))
  }

  /** The loop over the looked-up IDs. A limit of zero or less is no limit. */
  function IndexPicks(judge: Judge, ids: seq<Bytes>, skip: int, limit: int): Found
    decreases ids
  {
    if ids == [] then Some([])
    else match judge(ids[0])
      case Broken => None
      case Miss => IndexPicks(judge, ids[1..], skip, limit)
      case Hit(doc) =>
        if skip > 0 then IndexPicks(judge, ids[1..], skip - 1, limit)
        else Prepend(doc, if limit == 1 then Some([])
                          else IndexPicks(judge, ids[1..], skip, if limit > 0 then limit - 1 else limit))
  }

  method FindViaIndex(re: Matcher, sel: Selector, t: Transaction, n: nat, encode: Json -> Bytes, values: seq<Json>,
                      skip: int, limit: int) returns (found: Found)
    ensures found == IndexPicks(JudgeOf(re, sel, t.tx.snapshot), LookupEq(t.tx.snapshot, n, encode, values), skip, limit)
  {
    var ids := Lookup(t.tx.snapshot, n, encode, values);
    found := PickFrom(re, sel, t, ids, skip, if limit == 0 then -1 else limit);
    if limit == 0 { NoLimit(JudgeOf(re, sel, t.tx.snapshot), ids, skip, limit, -1); }
  }

  method PickFrom(re: Matcher, sel: Selector, t: Transaction, ids: seq<Bytes>, skip: int, limit: int) returns (found: Found)
    ensures found == IndexPicks(JudgeOf(re, sel, t.tx.snapshot), ids, skip, limit)
  {
    found := PickVia(re, sel, t, ids, skip, limit, JudgeOf(re, sel, t.tx.snapshot));
  }

  method PickVia(re: Matcher, sel: Selector, t: Transaction, ids: seq<Bytes>, skip: int, limit: int, ghost judge: Judge)
    returns (found: Found)
    requires judge == JudgeOf(re, sel, t.tx.snapshot)
    ensures found == IndexPicks(judge, ids, skip, limit)
  {
    ghost var goal := IndexPicks(judge, ids, skip, limit);
    var docs, toSkip, j := [], skip, 0;
    OnwardNothing(goal);
    assert ids[0..] == ids;
    while j < |ids|
      invariant 0 <= j <= |ids| && (limit > 0 ==> |docs| < limit)
      invariant Picking(judge, ids, j, toSkip, limit, docs, goal)
    {
      var v := JudgeOne(re, sel, t, ids[j], judge);
      if v == Broken {
        PickNext(judge, ids, j, toSkip, limit, docs, goal, v);
        return None;
      }
      docs, toSkip := PickOne(judge, ids, j, toSkip, limit, docs, goal, v);
      if limit > 0 && |docs| >= limit { return Some(docs); }
      j := j + 1;
    }
    PickedAll(judge, ids, j, toSkip, limit, docs, goal);
    found := Some(docs);
  }

  method PickOne(ghost judge: Judge, ghost ids: seq<Bytes>, ghost j: nat, skip: int, ghost limit: int, docs: seq<Document>,
                 ghost goal: Found, v: Verdict) returns (more: seq<Document>, left: int)
    requires j < |ids| && (limit > 0 ==> |docs| < limit) && Picking(judge, ids, j, skip, limit, docs, goal)
    requires v == judge(ids[j]) && v != Broken
    ensures if limit > 0 && |more| >= limit then goal == Some(more) else Picking(judge, ids, j + 1, left, limit, more, goal)
  {
    PickNext(judge, ids, j, skip, limit, docs, goal, v);
    more, left := docs, skip;
    if v.Hit? {
      if skip > 0 { left := skip - 1; } else { more := docs + [v.doc]; }
    }
  }

  lemma PickedAll(judge: Judge, ids: seq<Bytes>, j: nat, skip: int, limit: int, docs: seq<Document>, goal: Found)
    requires j == |ids| && Picking(judge, ids, j, skip, limit, docs, goal)
    ensures goal == Some(docs)
  {
    assert docs + [] == docs;
  }

  method JudgeOne(re: Matcher, sel: Selector, t: Transaction, id: Bytes, ghost judge: Judge) returns (v: Verdict)
    requires judge == JudgeOf(re, sel, t.tx.snapshot)
    ensures v == judge(id)
  {
    var read := t.GetDocument(id);
    v := Judged(re, sel, read);
  }

  ghost predicate Picking(judge: Judge, ids: seq<Bytes>, j: nat, skip: int, limit: int, docs: seq<Document>, goal: Found)
    requires j <= |ids|
  {
    goal == Onward(docs, IndexPicks(judge, ids[j..], skip, if limit > 0 then limit - |docs| else limit))
  }

  lemma PickNext(judge: Judge, ids: seq<Bytes>, j: nat, skip: int, limit: int, docs: seq<Document>, goal: Found, v: Verdict)
    requires j < |ids| && (limit > 0 ==> |docs| < limit) && Picking(judge, ids, j, skip, limit, docs, goal) && v == judge(ids[j])
    ensures v == Broken ==> goal == None
    ensures v == Miss ==> Picking(judge, ids, j + 1, skip, limit, docs, goal)
    ensures v.Hit? && skip > 0 ==> Picking(judge, ids, j + 1, skip - 1, limit, docs, goal)
    ensures v.Hit? && skip <= 0 && limit > 0 && |docs| + 1 == limit ==> goal == Some(docs + [v.doc])
    ensures v.Hit? && skip <= 0 && !(limit > 0 && |docs| + 1 == limit) ==>
              Picking(judge, ids, j + 1, skip, limit, docs + [v.doc], goal)
  {
    assert ids[j..][1..] == ids[j + 1..];
    if v.Hit? && skip <= 0 {
      assert docs + [v.doc] + [] == docs + [v.doc];
      var left := if limit > 0 then limit - |docs| - 1 else limit;
      OnwardNext(docs, v.doc,
                 if limit > 0 && left == 0 then Some([]) else IndexPicks(judge, ids[j + 1..], skip, left));
    }
  }

  lemma {:induction false} NoLimit(judge: Judge, ids: seq<Bytes>, skip: int, limit: int, left: int)
    requires limit <= 0 && left <= 0
    ensures IndexPicks(judge, ids, skip, limit) == IndexPicks(judge, ids, skip, left)
    decreases ids
  {
    if ids != [] {
      NoLimit(judge, ids[1..], skip, limit, left);
      NoLimit(judge, ids[1..], skip - 1, limit, left);
    }
  }

  /******* The shortcut gives the scan's answer *******/

  /** The same documents, the second list read with their meta members. */
  ghost predicate SameDocs(scanned: Found, looked: Found) {
    && scanned.Some? && looked.Some? && |scanned.value| == |looked.value|
    && forall j :: 0 <= j < |scanned.value| ==> ReadOf(scanned.value[j], looked.value[j])
  }

  lemma SamePrepend(a: Document, b: Document, x: Found, y: Found)
    requires ReadOf(a, b) && SameDocs(x, y)
    ensures SameDocs(Prepend(a, x), Prepend(b, y))
  {
  }

  /** Leaving out documents that do not match changes no picks. */
  lemma {:induction false} PicksFilter(re: Matcher, sel: Selector, xs: seq<Cell>, p: Cell -> bool, r: nat)
    requires forall c :: c in xs && Match(re, sel, c.doc) == Yes ==> p(c)
    requires Picks(re, sel, DocsOf(xs), r).Some?
    ensures Picks(re, sel, DocsOf(Filter(p, xs)), r) == Picks(re, sel, DocsOf(xs), r)
    decreases xs
  {
    if xs != [] && r > 0 {
      var c, rest := xs[0], xs[1..];
      DocsCons(c, rest, xs);
      PicksCons(re, sel, c.doc, DocsOf(rest), r);
      PicksFilter(re, sel, rest, p, if Match(re, sel, c.doc) == Yes then r - 1 else r);
      FilterCons(p, xs);
      if p(c) {
        DocsCons(c, Filter(p, rest), Filter(p, xs));
        PicksCons(re, sel, c.doc, DocsOf(Filter(p, rest)), r);
      }
    }
  }

  lemma DocsCons(c: Cell, rest: seq<Cell>, xs: seq<Cell>)
    requires xs == [c] + rest
    ensures DocsOf(xs) == [c.doc] + DocsOf(rest) && KeysOf(xs) == [c.key] + KeysOf(rest)
  {
  }

  lemma FilterCons(p: Cell -> bool, xs: seq<Cell>)
    requires xs != []
    ensures Filter(p, xs) == if p(xs[0]) then [xs[0]] + Filter(p, xs[1..]) else Filter(p, xs[1..])
  {
  }

  /** The judge sees what the scan sees. */
  ghost predicate JudgesAlike(judge: Judge, re: Matcher, sel: Selector, c: Cell) {
    match Match(re, sel, c.doc)
    case Failed => judge(c.key) == Broken
    case No => judge(c.key) == Miss
    case Yes => judge(c.key).Hit? && ReadOf(c.doc, judge(c.key).doc)
  }

  lemma IndexCons(judge: Judge, id: Bytes, ids: seq<Bytes>, r: nat)
    requires r > 0
    ensures IndexPicks(judge, [id] + ids, 0, r)
         == match judge(id)
            case Broken => None
            case Miss => IndexPicks(judge, ids, 0, r)
            case Hit(doc) => Prepend(doc, if r == 1 then Some([]) else IndexPicks(judge, ids, 0, r - 1))
  {
    assert ([id] + ids)[1..] == ids;
  }

  lemma AlikeStep(judge: Judge, re: Matcher, sel: Selector, c: Cell, docs: seq<Document>, keys: seq<Bytes>, r: nat, m: Outcome)
    requires r > 0 && m == Match(re, sel, c.doc) && m != Failed && JudgesAlike(judge, re, sel, c)
    requires m == No ==> SameDocs(Picks(re, sel, docs, r), IndexPicks(judge, keys, 0, r))
    requires m == Yes && r > 1 ==> SameDocs(Picks(re, sel, docs, r - 1), IndexPicks(judge, keys, 0, r - 1))
    requires m == Yes && r == 1 ==> Picks(re, sel, docs, 0) == Some([])
    ensures SameDocs(Picks(re, sel, [c.doc] + docs, r), IndexPicks(judge, [c.key] + keys, 0, r))
  {
    IndexCons(judge, c.key, keys, r);
    PicksCons(re, sel, c.doc, docs, r);
    if m == Yes {
      SamePrepend(c.doc, judge(c.key).doc, Picks(re, sel, docs, r - 1),
                  if r == 1 then Some([]) else IndexPicks(judge, keys, 0, r - 1));
    }
  }

  lemma PicksGoOn(re: Matcher, sel: Selector, d: Document, rest: seq<Document>, r: nat, m: Outcome)
    requires r > 0 && m == Match(re, sel, d) && Picks(re, sel, [d] + rest, r).Some?
    ensures m != Failed
    ensures m == No ==> Picks(re, sel, rest, r).Some?
    ensures m == Yes ==> Picks(re, sel, rest, r - 1).Some?
    ensures Picks(re, sel, rest, 0) == Some([])
  {
    PicksCons(re, sel, d, rest, r);
  }

  ghost predicate AllAlike(judge: Judge, re: Matcher, sel: Selector, xs: seq<Cell>) {
    forall c :: c in xs ==> JudgesAlike(judge, re, sel, c)
  }

  lemma AlikeRest(judge: Judge, re: Matcher, sel: Selector, xs: seq<Cell>)
    requires xs != [] && AllAlike(judge, re, sel, xs)
    ensures JudgesAlike(judge, re, sel, xs[0]) && AllAlike(judge, re, sel, xs[1..])
  {
    assert xs[0] in xs;
  }

  lemma {:induction false} PicksAlike(judge: Judge, re: Matcher, sel: Selector, xs: seq<Cell>, r: nat)
    requires r > 0 && AllAlike(judge, re, sel, xs) && Picks(re, sel, DocsOf(xs), r).Some?
    ensures SameDocs(Picks(re, sel, DocsOf(xs), r), IndexPicks(judge, KeysOf(xs), 0, r))
    decreases xs
  {
    if xs != [] {
      var c, rest := xs[0], xs[1..];
      var m := Match(re, sel, c.doc);
      DocsCons(c, rest, xs);
      AlikeRest(judge, re, sel, xs);
      PicksGoOn(re, sel, c.doc, DocsOf(rest), r, m);
      if m == No { PicksAlike(judge, re, sel, rest, r); }
      if m == Yes && r > 1 { PicksAlike(judge, re, sel, rest, r - 1); }
      AlikeStep(judge, re, sel, c, DocsOf(rest), KeysOf(rest), r, m);
    }
  }

  function InLookup(encode: Json -> Bytes, fields: seq<Bytes>, values: seq<Json>): Cell -> bool {
    (c: Cell) => MangoIndexable(c.doc) && Leads(encode, fields, values, c.doc)
  }

  /** The looked-up IDs are the keys of the indexed live documents with these values,
      in the scan's order. */
  lemma LookupInOrder(s: Store, n: nat, fields: seq<Bytes>, encode: Json -> Bytes, values: seq<Json>)
    requires DocsOk(Entries(s, Docs)) && IndexAgrees(MangoIndex(n, fields, encode), s, WinnersOf(Entries(s, Docs)))
    requires |values| == |fields| && Encodable(encode, values)
    ensures LookupEq(s, n, encode, values) == KeysOf(Filter(InLookup(encode, fields, values), LiveCells(s)))
  {
    var docs := Entries(s, Docs);
    var p, o := InLookup(encode, fields, values), ScanOptions(0, []);
    var found := Filter(p, LiveCells(s));
    WinnersKeyed(docs);
    CellsAscend(docs);
    FilterAscending(Keeping(o), Cells(docs));
    FilterAscending(p, LiveCells(s));
    FilterMembers(Keeping(o), Cells(docs));
    FilterMembers(p, LiveCells(s));
    SuffixesAscend(Prefix(encode, values), Entries(s, Mango(n)));
    forall id ensures id in LookupEq(s, n, encode, values) <==> id in KeysOf(found) {
      LookupFull(s, n, fields, encode, values, WinnersOf(docs), id);
      KeyAmong(docs, found, id, p);
      LeadingLive(docs, encode, fields, values, id);
    }
    AscendingUnique(LookupEq(s, n, encode, values), KeysOf(found));
  }

  lemma LeadingLive(docs: map<Bytes, Value>, encode: Json -> Bytes, fields: seq<Bytes>, values: seq<Json>, id: Bytes)
    requires DocsOk(docs)
    ensures Leading(WinnersOf(docs), encode, fields, values, id) <==>
            id in docs && !docs[id].doc.deleted && InLookup(encode, fields, values)(Cell(id, docs[id].doc))
  {
  }

  lemma KeyAmong(docs: map<Bytes, Value>, found: seq<Cell>, id: Bytes, p: Cell -> bool)
    requires DocsOk(docs)
    requires forall c :: c in found <==> c in Cells(docs) && !c.doc.deleted && p(c)
    ensures id in KeysOf(found) <==> id in docs && !docs[id].doc.deleted && p(Cell(id, docs[id].doc))
  {
    if id in KeysOf(found) {
      var j :| 0 <= j < |found| && KeysOf(found)[j] == id;
      assert found[j] in found;
      CellIn(docs, found[j]);
    }
    if id in docs && !docs[id].doc.deleted && p(Cell(id, docs[id].doc)) {
      var c := Cell(id, docs[id].doc);
      CellIn(docs, c);
      assert c in found;
      var j :| 0 <= j < |found| && found[j] == c;
      assert KeysOf(found)[j] == id;
    }
  }

  lemma BranchBody(s: Store, d: Document)
    ensures SameBody(d, WithBranches(s, d))
  {
  }

  lemma ReadBody(s: Store, id: Bytes, stored: Document, d: Document)
    requires id in Entries(s, Docs) && Entries(s, Docs)[id] == Doc(stored) && GetDocument(s, id) == Found(d)
    ensures SameBody(stored, d)
  {
    var e := WithSequence(s, WithMeta(stored)).value;
    assert SameBody(stored, e);
    BranchBody(s, e);
  }

  lemma LiveCellRead(env: Env, s: Store, c: Cell)
    requires Inv(env, s) && c in LiveCells(s)
    ensures c.key in s[Docs].entries && s[Docs].entries[c.key] == Doc(c.doc) && c.doc.id == c.key && !c.doc.deleted
    ensures GetDocument(s, c.key).Found? && ReadOf(c.doc, GetDocument(s, c.key).doc)
            && SameBody(c.doc, GetDocument(s, c.key).doc)
  {
    FilterMembers(Keeping(ScanOptions(0, [])), Cells(s[Docs].entries));
    CellIn(s[Docs].entries, c);
    ReadStored(env, s, c.key);
    ReadBody(s, c.key, c.doc, GetDocument(s, c.key).doc);
  }

  lemma LiveCellJudged(env: Env, s: Store, re: Matcher, sel: Selector, c: Cell)
    requires Inv(env, s) && c in LiveCells(s) && AvoidsMeta(sel)
    ensures JudgesAlike(JudgeOf(re, sel, s), re, sel, c)
  {
    LiveCellRead(env, s, c);
    SameMatch(re, sel, c.doc, GetDocument(s, c.key).doc);
  }

  /** A matching document the index leaves out is a design or local one. */
  lemma MatchIsLookedUp(re: Matcher, members: seq<Selector>, fields: seq<Bytes>, encode: Json -> Bytes, values: seq<Json>,
                        c: Cell)
    requires Match(re, Group(And, members), c.doc) == Yes && !c.doc.deleted && |values| == |fields|
    requires forall j :: 0 <= j < |fields| ==>
               fields[j] in EqConditions(members) && values[j] == EqConditions(members)[fields[j]]
    ensures InLookup(encode, fields, values)(c) || IsDesign(c.doc.id) || IsLocal(c.doc.id)
  {
    forall j | 0 <= j < |fields| ensures Field(c.doc, fields[j]) == values[j] {
      EqImplied(re, members, c.doc, fields[j]);
    }
  }

  lemma EmptyLookup(s: Store, fields: seq<Bytes>, encode: Json -> Bytes, values: seq<Json>)
    requires DocsOk(Entries(s, Docs)) && DeletedAgree(Entries(s, DeletedDocs), WinnersOf(Entries(s, Docs)))
    requires TotalRows(s) == 0
    ensures Filter(InLookup(encode, fields, values), LiveCells(s)) == []
  {
    var p := InLookup(encode, fields, values);
    var found := Filter(p, LiveCells(s));
    TotalExact(s);
    FilterMembers(p, LiveCells(s));
    FilterMembers(Keeping(ScanOptions(0, [])), Cells(Entries(s, Docs)));
    forall c | c in found ensures c.key in LiveIds(Entries(s, Docs)) { CellIn(Entries(s, Docs), c); }
    HasMember(found);
  }

  lemma HasMember(xs: seq<Cell>)
    ensures xs != [] ==> exists c :: c in xs
  {
    if xs != [] { assert xs[0] in xs; }
  }

  ghost predicate HasIndex(env: Env, i: Index) {
    exists k :: 0 <= k < |env.indices| && env.indices[k] == i
  }

  lemma HasAgrees(env: Env, s: Store, i: Index)
    requires Inv(env, s) && HasIndex(env, i)
    ensures IndexAgrees(i, s, WinnersOf(Entries(s, Docs)))
  {
    var k :| 0 <= k < |env.indices| && env.indices[k] == i;
    assert IndexAgrees(env.indices[k], s, WinnersOf(Entries(s, Docs)));
  }

  /** What the planner checks before it takes the index: every indexed field has an
      equality condition, whose value is looked up. */
  ghost predicate Covers(fields: seq<Bytes>, members: seq<Selector>, values: seq<Json>) {
    && |values| == |fields|
    && forall j :: 0 <= j < |fields| ==>
         fields[j] in EqConditions(members) && values[j] == EqConditions(members)[fields[j]]
  }

  /** With a limit and nothing skipped, the lookup returns the documents the scan
      returns, in the same order, unless a design or local document matches: those
      are in no index. */
  lemma IndexRefinesScan(env: Env, s: Store, n: nat, fields: seq<Bytes>, encode: Json -> Bytes, values: seq<Json>,
                         re: Matcher, members: seq<Selector>, limit: nat)
    requires Inv(env, s) && HasIndex(env, MangoIndex(n, fields, encode)) && HasIndex(env, DeletedIndex)
    requires Covers(fields, members, values) && Encodable(encode, values)
    requires AvoidsMeta(Group(And, members)) && limit > 0
    requires forall c :: c in LiveCells(s) && (IsDesign(c.doc.id) || IsLocal(c.doc.id)) ==>
               Match(re, Group(And, members), c.doc) != Yes
    requires FullScan(re, Group(And, members), s, 0, limit, []).Some?
    ensures SameDocs(FullScan(re, Group(And, members), s, 0, limit, []),
                     IndexPicks(JudgeOf(re, Group(And, members), s), LookupEq(s, n, encode, values), 0, limit))
  {
    var sel, p := Group(And, members), InLookup(encode, fields, values);
    HasAgrees(env, s, MangoIndex(n, fields, encode));
    HasAgrees(env, s, DeletedIndex);
    LookupInOrder(s, n, fields, encode, values);
    if TotalRows(s) == 0 {
      EmptyLookup(s, fields, encode, values);
    } else {
      ScanFinds(re, sel, s, 0, limit, []);
      LiveFromStart(s);
      LookupPicks(env, s, re, members, fields, encode, values, limit);
    }
  }

  lemma LookupPicks(env: Env, s: Store, re: Matcher, members: seq<Selector>, fields: seq<Bytes>, encode: Json -> Bytes,
                    values: seq<Json>, limit: nat)
    requires Inv(env, s) && AvoidsMeta(Group(And, members)) && limit > 0 && Covers(fields, members, values)
    requires forall c :: c in LiveCells(s) && (IsDesign(c.doc.id) || IsLocal(c.doc.id)) ==>
               Match(re, Group(And, members), c.doc) != Yes
    requires Picks(re, Group(And, members), DocsOf(LiveCells(s)), limit).Some?
    ensures SameDocs(Picks(re, Group(And, members), DocsOf(LiveCells(s)), limit),
                     IndexPicks(JudgeOf(re, Group(And, members), s),
                                KeysOf(Filter(InLookup(encode, fields, values), LiveCells(s))), 0, limit))
  {
    var sel, p, live := Group(And, members), InLookup(encode, fields, values), LiveCells(s);
    forall c | c in live ensures JudgesAlike(JudgeOf(re, sel, s), re, sel, c) && !c.doc.deleted {
      LiveCellJudged(env, s, re, sel, c);
      LiveCellRead(env, s, c);
    }
    forall c | c in live && Match(re, sel, c.doc) == Yes ensures p(c) {
      MatchIsLookedUp(re, members, fields, encode, values, c);
    }
    PicksFilter(re, sel, live, p, limit);
    FilterMembers(p, live);
    PicksAlike(JudgeOf(re, sel, s), re, sel, Filter(p, live), limit);
  }
}
