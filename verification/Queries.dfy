/** A whole query: which way it is answered, and what comes out. */
module Queries {
  import opened ByteStrings
  import opened Documents
  import opened DocStore
  import opened Engine
  import opened Finds
  import opened IndexInvariants
  import opened Indexes
  import opened Iterators
  import opened Rebuilds
  import opened Selectors
  import opened StoreInvariant
  import opened Transactions

  /******* The planner *******/

  /** An index that the hint admits and all of whose fields have an equality condition. */
  predicate Usable(hint: Index -> bool, eq: map<Bytes, Json>, i: Index) {
    i.MangoIndex? && hint(i) && i.fields != [] && forall f :: f in i.fields ==> f in eq
  }

  /** The first one. */
  function BestIndex(indices: seq<Index>, hint: Index -> bool, eq: map<Bytes, Json>): Option<Index> {
    if indices == [] then None
    else if Usable(hint, eq, indices[0]) then Some(indices[0])
    else BestIndex(indices[1..], hint, eq)
  }

  lemma {:induction false} BestIsUsable(indices: seq<Index>, hint: Index -> bool, eq: map<Bytes, Json>)
    ensures var best := BestIndex(indices, hint, eq);
            && (best.Some? ==> best.value in indices && Usable(hint, eq, best.value))
            && (best.None? <==> forall i :: i in indices ==> !Usable(hint, eq, i))
  {
    if indices != [] {
      BestIsUsable(indices[1..], hint, eq);
      assert indices == [indices[0]] + indices[1..];
    }
  }

  function ValuesOf(fields: seq<Bytes>, eq: map<Bytes, Json>): (values: seq<Json>)
    requires forall f :: f in fields ==> f in eq
    ensures |values| == |fields| && forall j :: 0 <= j < |fields| ==> values[j] == eq[fields[j]]
  {
    seq(|fields|, j requires 0 <= j < |fields| => eq[fields[j]])
  }

  method BestMangoIndex(indices: seq<Index>, hint: Index -> bool, eq: map<Bytes, Json>)
    returns (best: Option<Index>, values: seq<Json>)
    ensures best == BestIndex(indices, hint, eq)
    ensures best.Some? ==> Usable(hint, eq, best.value) && values == ValuesOf(best.value.fields, eq)
    ensures best.None? <==> forall i :: i in indices ==> !Usable(hint, eq, i)
  {
    BestIsUsable(indices, hint, eq);
    best, values := None, [];
    var k := 0;
    assert indices[0..] == indices;
    while k < |indices|
      invariant 0 <= k <= |indices| && BestIndex(indices, hint, eq) == BestIndex(indices[k..], hint, eq)
    {
      assert indices[k..][1..] == indices[k + 1..];
      if indices[k].MangoIndex? && hint(indices[k]) && indices[k].fields != [] {
        var covered;
        covered, values := ValuesFor(indices[k].fields, eq);
        if covered {
          assert values == ValuesOf(indices[k].fields, eq);
          return Some(indices[k]), values;
        }
      }
      k := k + 1;
    }
  }

  method ValuesFor(fields: seq<Bytes>, eq: map<Bytes, Json>) returns (covered: bool, values: seq<Json>)
    ensures covered <==> forall f :: f in fields ==> f in eq
    ensures covered ==> |values| == |fields| && forall j :: 0 <= j < |fields| ==> values[j] == eq[fields[j]]
  {
    values := [];
    for j := 0 to |fields|
      invariant forall k :: 0 <= k < j ==> fields[k] in eq
      invariant |values| == j && forall k :: 0 <= k < j ==> values[k] == eq[fields[k]]
    {
      if fields[j] !in eq {
        assert fields[j] in fields;
        return false, [];
      }
      values := values + [eq[fields[j]]];
    }
    covered := true;
  }

  /******* With an order *******/

  /** Every match; None if a match failed. */
  function AllMatches(re: Matcher, sel: Selector, ds: seq<Document>): Finds.Found {
    if ds == [] then Some([])
    else match Match(re, sel, ds[0])
      case Failed => None
      case Yes => Prepend(ds[0], AllMatches(re, sel, ds[1..]))
      case No => AllMatches(re, sel, ds[1..])
  }

  /** The loop when there is an order: nothing is given back to the limit, which is
      not set. */
  function ScanAll(re: Matcher, sel: Selector, o: Options, ahead: seq<Cell>): Finds.Found
    decreases |ahead|
  {
    if !Continues(o, -1, ahead) then Some([])
    else match Match(re, sel, ahead[0].doc)
      case Failed => None
      case r =>
        NextShorter(o, -1, ahead[1..]);
        var rest := ScanAll(re, sel, o, NextFrom(o, -1, ahead[1..]));
        if r == Yes then Prepend(ahead[0].doc, rest) else rest
  }

  method ScanForAll(re: Matcher, sel: Selector, i: Iterator) returns (found: Finds.Found)
    requires i.limit == -1
    modifies i`pos, i`limit
    ensures found == ScanAll(re, sel, i.o,
                             FirstFrom(i.o, AfterSkip(i.o, -1, AheadOf(i.cells, i.o.descending, StartPos(i.o, i.cells)))))
  {
    var docs := [];
    var doc := i.First();
    ghost var goal := ScanAll(re, sel, i.o, i.Ahead());
    OnwardNothing(goal);
    while i.Continue()
      invariant i.limit == -1 && goal == Onward(docs, ScanAll(re, sel, i.o, i.Ahead()))
      invariant Continues(i.o, -1, i.Ahead()) ==> doc == Some(i.Ahead()[0].doc)
      decreases |i.Ahead()|
    {
      AllStep(re, sel, i.o, i.Ahead(), docs);
      var r := Match(re, sel, doc.value);
      if r == Failed { return None; }
      if r == Yes { docs := docs + [doc.value]; }
      doc := i.Next();
    }
    assert docs + [] == docs;
    found := Some(docs);
  }

  lemma AllStep(re: Matcher, sel: Selector, o: Options, ahead: seq<Cell>, docs: seq<Document>)
    requires Continues(o, -1, ahead)
    ensures var r, next := Match(re, sel, ahead[0].doc), NextFrom(o, -1, ahead[1..]);
            && |next| < |ahead|
            && (r == Failed ==> ScanAll(re, sel, o, ahead) == None)
            && (r != Failed ==>
                  Onward(docs, ScanAll(re, sel, o, ahead))
                  == Onward(if r == Yes then docs + [ahead[0].doc] else docs, ScanAll(re, sel, o, next)))
  {
    NextShorter(o, -1, ahead[1..]);
    OnwardNext(docs, ahead[0].doc, ScanAll(re, sel, o, NextFrom(o, -1, ahead[1..])));
  }

  lemma {:induction false} AllScan(re: Matcher, sel: Selector, o: Options, ahead: seq<Cell>)
    requires PlainScan(o) && ahead != []
    ensures ScanAll(re, sel, o, ahead) == AllMatches(re, sel, [ahead[0].doc] + Good(o, ahead[1..]))
    decreases |ahead|
  {
    var rest := ahead[1..];
    PlainClosed(o, rest);
    NextGood(o, -1, rest);
    NextShorter(o, -1, rest);
    var next := NextFrom(o, -1, rest);
    var ds := [ahead[0].doc] + Good(o, rest);
    assert ds[1..] == Good(o, rest);
    if next != [] { AllScan(re, sel, o, next); }
  }

  /** The slice of the ordered matches; None where a negative skip makes the source panic. */
  function Sliced(docs: seq<Document>, skip: int, limit: int): Finds.Found {
    if skip < 0 then None
    else
      var rest := if skip > |docs| then [] else docs[skip..];
      Some(if 0 < limit < |rest| then rest[..limit] else rest)
  }

  type Order = seq<Document> -> seq<Document>

  function Ordered(found: Finds.Found, order: Order, skip: int, limit: int): Finds.Found {
    if found.None? then None else Sliced(order(found.value), skip, limit)
  }

  method FindOrdered(re: Matcher, sel: Selector, s: Store, order: Order, skip: int, limit: int) returns (found: Finds.Found)
    ensures found == Ordered(EveryMatch(re, sel, s), order, skip, limit)
  {
    var all := Some([]);
    if TotalRows(s) != 0 {
      var i := new Iterator(Entries(s, Docs));
      assert i.o == ScanOptions(0, []);
      all := ScanForAll(re, sel, i);
    }
    if all.None? { return None; }
    found := Sliced(order(all.value), skip, limit);
  }

  /** What the loop over the whole database yields. */
  function EveryMatch(re: Matcher, sel: Selector, s: Store): Finds.Found {
    var o, cells := ScanOptions(0, []), Cells(Entries(s, Docs));
    if TotalRows(s) == 0 then Some([])
    else ScanAll(re, sel, o, FirstFrom(o, AfterSkip(o, -1, AheadOf(cells, false, StartPos(o, cells)))))
  }

  /** With an order, the query sees every matching live document, whatever its limit. */
  lemma OrderedSeesAll(re: Matcher, sel: Selector, s: Store)
    requires TotalRows(s) != 0
    ensures EveryMatch(re, sel, s) == AllMatches(re, sel, DocsOf(LiveCells(s)))
  {
    var o, cells := ScanOptions(0, []), Cells(Entries(s, Docs));
    assert AheadOf(cells, false, 0) == cells;
    EndlessSkip(o, -1, cells);
    AllFromFirst(re, sel, o, cells);
    GoodIsKept(o, cells);
  }

  lemma AllFromFirst(re: Matcher, sel: Selector, o: Options, cells: seq<Cell>)
    requires PlainScan(o)
    ensures ScanAll(re, sel, o, FirstFrom(o, cells)) == AllMatches(re, sel, Good(o, cells))
  {
    PlainClosed(o, cells);
    FirstGood(o, cells);
    var first := FirstFrom(o, cells);
    if first != [] { AllScan(re, sel, o, first); }
  }

  /******* The query *******/

  /** What a query asks for, apart from its selector. */
  datatype Wish = Wish(hint: Index -> bool, order: Option<Order>, skip: int, limit: int, bookmark: Bytes)

  function Answer(re: Matcher, members: seq<Selector>, indices: seq<Index>, s: Store, q: Wish): Finds.Found {
    var sel, eq := Group(And, members), EqConditions(members);
    if q.order.Some? then Ordered(EveryMatch(re, sel, s), q.order.value, q.skip, q.limit)
    else
      BestIsUsable(indices, q.hint, eq);
      match BestIndex(indices, q.hint, eq)
      case Some(i) =>
        IndexPicks(JudgeOf(re, sel, s), LookupEq(s, i.n, i.encode, ValuesOf(i.fields, eq)), q.skip, q.limit)
      case None => FullScan(re, sel, s, q.skip, q.limit, q.bookmark)
  }

  method FindDocs(re: Matcher, members: seq<Selector>, t: Transaction, q: Wish) returns (found: Finds.Found)
    ensures found == Answer(re, members, t.env.indices, t.tx.snapshot, q)
  {
    if q.order.Some? {
      found := FindOrdered(re, Group(And, members), t.tx.snapshot, q.order.value, q.skip, q.limit);
      return;
    }
    var eq := ReadEqConditions(members);
    if eq != map[] {
      var best, values := BestMangoIndex(t.env.indices, q.hint, eq);
      if best.Some? {
        var i := best.value;
        found := FindViaIndex(re, Group(And, members), t, i.n, i.encode, values, q.skip, q.limit);
        return;
      }
    } else {
      NoneUsable(t.env.indices, q.hint);
    }
    found := FindByScan(re, Group(And, members), t.tx.snapshot, q.skip, q.limit, q.bookmark);
  }

  lemma {:induction false} NoneUsable(indices: seq<Index>, hint: Index -> bool)
    ensures BestIndex(indices, hint, map[]).None?
  {
    if indices != [] {
      NoneUsable(indices[1..], hint);
      assert indices[0].MangoIndex? && indices[0].fields != [] ==> indices[0].fields[0] in indices[0].fields;
    }
  }

  lemma SameAsItself(found: Finds.Found)
    requires found.Some?
    ensures SameDocs(found, found)
  {
  }

  /** Whatever indices there are, a query with a limit and nothing skipped is answered
      as the full scan answers it, unless a design or local document matches. */
  lemma AnswerIsScan(env: Env, s: Store, re: Matcher, members: seq<Selector>, q: Wish)
    requires Inv(env, s) && HasIndex(env, DeletedIndex)
    requires q.order.None? && q.skip == 0 && q.limit > 0 && q.bookmark == []
    requires AvoidsMeta(Group(And, members))
    requires forall i, v :: i in env.indices && i.MangoIndex? && v in EqConditions(members).Values ==> |i.encode(v)| < U16
    requires forall c :: c in LiveCells(s) && (IsDesign(c.doc.id) || IsLocal(c.doc.id)) ==>
               Match(re, Group(And, members), c.doc) != Yes
    requires FullScan(re, Group(And, members), s, 0, q.limit, []).Some?
    ensures SameDocs(FullScan(re, Group(And, members), s, 0, q.limit, []), Answer(re, members, env.indices, s, q))
  {
    var eq := EqConditions(members);
    BestIsUsable(env.indices, q.hint, eq);
    match BestIndex(env.indices, q.hint, eq)
    case Some(i) =>
      var k :| 0 <= k < |env.indices| && env.indices[k] == i;
      var values := ValuesOf(i.fields, eq);
      forall v | v in values ensures |i.encode(v)| < U16 {
        var j :| 0 <= j < |values| && values[j] == v;
        assert v in eq.Values;
      }
      IndexRefinesScan(env, s, i.n, i.fields, i.encode, values, re, members, q.limit);
    case None => SameAsItself(FullScan(re, Group(And, members), s, 0, q.limit, []));
  }
}
