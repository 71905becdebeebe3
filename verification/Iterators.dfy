/** The cursor iterator: bounds, skipping and the limit, in both directions. */
module Iterators {
  import opened ByteStrings
  import opened Documents
  import opened Engine
  import opened SortedKeys

  /** A bucket entry under the cursor, its value decoded. */
  datatype Cell = Cell(key: Bytes, doc: Document)

  datatype Options = Options(
    startKey: Option<Bytes>, endKey: Option<Bytes>, skip: int,
    skipDeleted: bool, skipDesignDoc: bool, skipLocalDoc: bool, exclusiveEnd: bool, descending: bool)

  const BLANK: Document := Document([], [], false, 0, [], map[], map[])

  function CellOf(k: Bytes, v: Value): Cell {
    Cell(k, if v.Doc? then v.doc else BLANK)
  }

  function Cells(entries: map<Bytes, Value>): (cells: seq<Cell>)
    ensures |cells| == |Sorted(entries.Keys)|
    ensures forall j :: 0 <= j < |cells| ==>
              Sorted(entries.Keys)[j] in entries && cells[j] == CellOf(Sorted(entries.Keys)[j], entries[Sorted(entries.Keys)[j]])
  {
    var keys := Sorted(entries.Keys);
    assert forall j :: 0 <= j < |keys| ==> keys[j] in keys;
    seq(|keys|, j requires 0 <= j < |keys| => CellOf(keys[j], entries[keys[j]]))
  }

  function KeysOf(cells: seq<Cell>): (keys: seq<Bytes>)
    ensures |keys| == |cells| && forall j :: 0 <= j < |keys| ==> keys[j] == cells[j].key
  {
    seq(|cells|, j requires 0 <= j < |cells| => cells[j].key)
  }

  /******* The walk, as a list of what lies ahead of the cursor *******/

  function Backward(cells: seq<Cell>, n: nat): (r: seq<Cell>)
    requires n <= |cells|
    ensures |r| == n
  {
    if n == 0 then [] else [cells[n - 1]] + Backward(cells, n - 1)
  }

  function AheadOf(cells: seq<Cell>, descending: bool, pos: int): seq<Cell> {
    if !(0 <= pos < |cells|) then []
    else if descending then Backward(cells, pos + 1)
    else cells[pos..]
  }

  /** Descending scans begin below the start key followed by ten 0xFF. */
  function Padded(key: Bytes): Bytes {
    key + seq(10, _ => 255)
  }

  function StartPos(o: Options, cells: seq<Cell>): (pos: int)
    ensures -1 <= pos <= |cells|
  {
    if o.descending then
      (if o.startKey.None? then |cells| else SeekIndex(KeysOf(cells), Padded(o.startKey.value))) - 1
    else if o.startKey.None? then 0
    else SeekIndex(KeysOf(cells), o.startKey.value)
  }

  predicate InRange(o: Options, key: Bytes) {
    o.endKey.None? ||
    var c := Compare(key, o.endKey.value);
    if o.descending then (if o.exclusiveEnd then c > 0 else c >= 0)
    else (if o.exclusiveEnd then c < 0 else c <= 0)
  }

  predicate Continues(o: Options, limit: int, ahead: seq<Cell>) {
    ahead != [] && limit != 0 && InRange(o, ahead[0].key)
  }

  function Drop<T>(xs: seq<T>, n: int): seq<T> {
    if n <= 0 then xs else if n >= |xs| then [] else xs[n..]
  }

  /** Ascending scans skip only if the first key is in range at all. */
  function AfterSkip(o: Options, limit: int, ahead: seq<Cell>): seq<Cell> {
    if o.descending || Continues(o, limit, ahead) then Drop(ahead, o.skip) else ahead
  }

  /** First passes over deleted documents, and local ones if asked; never over
      design documents. */
  predicate FirstKeeps(o: Options, d: Document) {
    !d.deleted && !(o.skipLocalDoc && IsLocal(d.id))
  }

  predicate NextKeeps(o: Options, d: Document) {
    !(o.skipDeleted && d.deleted) && !(o.skipDesignDoc && IsDesign(d.id)) && !(o.skipLocalDoc && IsLocal(d.id))
  }

  function FirstFrom(o: Options, ahead: seq<Cell>): seq<Cell> {
    if ahead == [] || FirstKeeps(o, ahead[0].doc) then ahead else FirstFrom(o, ahead[1..])
  }

  function NextFrom(o: Options, limit: int, ahead: seq<Cell>): seq<Cell> {
    if !Continues(o, limit, ahead) || NextKeeps(o, ahead[0].doc) then ahead else NextFrom(o, limit, ahead[1..])
  }

  function LimitAfter(o: Options, limit: int, ahead: seq<Cell>): int {
    if Continues(o, limit, ahead) && limit != -1 then limit - 1 else limit
  }

  /** What the caller's loop sees. */
  function Scan(o: Options, limit: int, ahead: seq<Cell>): seq<Document>
    decreases |ahead|
  {
    if !Continues(o, limit, ahead) then []
    else
      NextShorter(o, limit, ahead[1..]);
      var next := NextFrom(o, limit, ahead[1..]);
      [ahead[0].doc] + Scan(o, LimitAfter(o, limit, next), next)
  }

  lemma {:induction false} NextShorter(o: Options, limit: int, ahead: seq<Cell>)
    ensures |NextFrom(o, limit, ahead)| <= |ahead|
    decreases |ahead|
  {
    if Continues(o, limit, ahead) && !NextKeeps(o, ahead[0].doc) { NextShorter(o, limit, ahead[1..]); }
  }

  function Yield(o: Options, limit: int, cells: seq<Cell>): seq<Document> {
    Scan(o, limit, FirstFrom(o, AfterSkip(o, limit, AheadOf(cells, o.descending, StartPos(o, cells)))))
  }

  class Iterator {
    const cells: seq<Cell>
    var o: Options
    var limit: int
    var pos: int

    constructor (entries: map<Bytes, Value>)
      ensures cells == Cells(entries) && limit == -1
      ensures o == Options(None, None, 0, true, false, false, false, false)
    {
      cells := Cells(entries);
      o := Options(None, None, 0, true, false, false, false, false);
      limit := -1;
      pos := 0;
    }

    ghost function Ahead(): seq<Cell>
      reads this
    {
      AheadOf(cells, o.descending, pos)
    }

    function Continue(): (b: bool)
      reads this
      ensures b == Continues(o, limit, Ahead())
    {
      if !(0 <= pos < |cells|) then false
      else if limit == 0 then false
      else if o.endKey.None? then true
      else
        var cmp := Compare(cells[pos].key, o.endKey.value);
        if o.descending then (if o.exclusiveEnd then cmp > 0 else cmp >= 0)
        else (if o.exclusiveEnd then cmp < 0 else cmp <= 0)
    }

    /** The cursor moves one entry on, or falls off the end. */
    method Advance()
      requires 0 <= pos < |cells|
      modifies this`pos
      ensures Ahead() == old(Ahead())[1..]
    {
      AheadStep(cells, o.descending, pos);
      pos := if o.descending then pos - 1 else pos + 1;
    }

    method SkipRaw()
      modifies this`pos
      ensures Ahead() == Drop(old(Ahead()), o.skip)
    {
      var j := 0;
      while j < o.skip && 0 <= pos < |cells|
        invariant 0 <= j && (j <= o.skip || j == 0)
        invariant Ahead() == Drop(old(Ahead()), j)
        decreases o.skip - j
      {
        Advance();
        j := j + 1;
      }
    }

    method First() returns (doc: Option<Document>)
      modifies this`pos
      ensures Ahead() == FirstFrom(o, AfterSkip(o, limit, AheadOf(cells, o.descending, StartPos(o, cells))))
      ensures doc == if Ahead() == [] then None else Some(Ahead()[0].doc)
    {
      pos := StartPos(o, cells);
      if o.descending || Continue() { SkipRaw(); }
      ghost var from := Ahead();
      while 0 <= pos < |cells|
        invariant FirstFrom(o, Ahead()) == FirstFrom(o, from)
        decreases |Ahead()|
      {
        var d := cells[pos].doc;
        if !d.deleted && !(o.skipLocalDoc && IsLocal(d.id)) { return Some(d); }
        Advance();
      }
      doc := None;
    }

    method Next() returns (doc: Option<Document>)
      requires 0 <= pos < |cells|
      modifies this`pos, this`limit
      ensures Ahead() == NextFrom(o, old(limit), old(Ahead())[1..])
      ensures limit == LimitAfter(o, old(limit), Ahead())
      ensures doc == if Continues(o, old(limit), Ahead()) then Some(Ahead()[0].doc) else None
    {
      Advance();
      ghost var from := Ahead();
      while Continue()
        invariant limit == old(limit)
        invariant NextFrom(o, limit, Ahead()) == NextFrom(o, limit, from)
        decreases |Ahead()|
      {
        var d := cells[pos].doc;
        if !(o.skipDeleted && d.deleted) && !(o.skipDesignDoc && IsDesign(d.id))
           && !(o.skipLocalDoc && IsLocal(d.id))
        {
          if limit != -1 { limit := limit - 1; }
          return Some(d);
        }
        Advance();
      }
      doc := None;
    }

    /** The loop every caller writes. */
    method Documents() returns (docs: seq<Document>)
      modifies this`pos, this`limit
      ensures docs == Yield(o, old(limit), cells)
    {
      docs := [];
      var doc := First();
      ghost var all := Scan(o, limit, Ahead());
      while Continue()
        invariant all == docs + Scan(o, limit, Ahead())
        invariant Continues(o, limit, Ahead()) ==> doc == Some(Ahead()[0].doc)
        decreases |Ahead()|
      {
        ScanNext(o, limit, Ahead(), docs);
        docs := docs + [doc.value];
        doc := Next();
      }
      assert docs + [] == docs;
    }

    method IncLimit()
      modifies this`limit
      ensures limit == old(limit) + 1
    {
      limit := limit + 1;
    }
  }

  lemma ScanNext(o: Options, limit: int, ahead: seq<Cell>, docs: seq<Document>)
    requires Continues(o, limit, ahead)
    ensures var next := NextFrom(o, limit, ahead[1..]);
            |next| < |ahead|
            && docs + Scan(o, limit, ahead) == docs + [ahead[0].doc] + Scan(o, LimitAfter(o, limit, next), next)
  {
    NextShorter(o, limit, ahead[1..]);
    var next := NextFrom(o, limit, ahead[1..]);
    var rest := Scan(o, LimitAfter(o, limit, next), next);
    assert docs + ([ahead[0].doc] + rest) == docs + [ahead[0].doc] + rest;
  }

  lemma AheadStep(cells: seq<Cell>, descending: bool, pos: int)
    requires 0 <= pos < |cells|
    ensures var ahead := AheadOf(cells, descending, pos);
            ahead != [] && ahead[0] == cells[pos]
            && ahead[1..] == AheadOf(cells, descending, if descending then pos - 1 else pos + 1)
  {
  }

  /******* What a scan yields *******/

  function Filter(p: Cell -> bool, xs: seq<Cell>): (r: seq<Cell>)
    ensures |r| <= |xs|
  {
    if xs == [] then [] else (if p(xs[0]) then [xs[0]] else []) + Filter(p, xs[1..])
  }

  function DocsOf(xs: seq<Cell>): (docs: seq<Document>)
    ensures |docs| == |xs| && forall j :: 0 <= j < |docs| ==> docs[j] == xs[j].doc
  {
    seq(|xs|, j requires 0 <= j < |xs| => xs[j].doc)
  }

  /** A negative limit is no limit. */
  function Take<T>(limit: int, xs: seq<T>): seq<T> {
    if limit < 0 || limit >= |xs| then xs else xs[..limit]
  }

  ghost predicate AscendingCells(cells: seq<Cell>) {
    forall i, j :: 0 <= i < j < |cells| ==> Before(cells[i].key, cells[j].key)
  }

  /** The start bound; a descending scan starts below the key followed by ten 0xFF. */
  ghost predicate Started(o: Options, key: Bytes) {
    o.startKey.None?
    || if o.descending then Before(key, o.startKey.value + [255, 255, 255, 255, 255, 255, 255, 255, 255, 255])
       else AtMost(o.startKey.value, key)
  }

  /** The end bound. */
  ghost predicate Ended(o: Options, key: Bytes) {
    && o.endKey.Some?
    && match (o.descending, o.exclusiveEnd)
       case (false, false) => Before(o.endKey.value, key)
       case (false, true) => AtMost(o.endKey.value, key)
       case (true, false) => Before(key, o.endKey.value)
       case (true, true) => AtMost(key, o.endKey.value)
  }

  function Directed(o: Options, cells: seq<Cell>): seq<Cell> {
    if o.descending then Backward(cells, |cells|) else cells
  }

  function Ranged(o: Options): Cell -> bool {
    (c: Cell) => InRange(o, c.key)
  }

  function Keeping(o: Options): Cell -> bool {
    (c: Cell) => NextKeeps(o, c.doc)
  }

  ghost function Within(o: Options): Cell -> bool {
    (c: Cell) => Started(o, c.key) && !Ended(o, c.key)
  }

  /** Live documents, and only those that are not local if those are to be skipped. */
  ghost function LiveCell(o: Options): Cell -> bool {
    (c: Cell) => !c.doc.deleted && (o.skipLocalDoc ==> !IsLocal(c.doc.id))
  }

  ghost function Clamp(n: int, most: nat): (m: nat)
    ensures m <= most
  {
    if n < 0 then 0 else if n > most then most else n
  }

  /** The range in cursor order, less the skipped entries, less what is passed over,
      up to the limit. */
  ghost function Expected(o: Options, limit: int, cells: seq<Cell>): seq<Document> {
    var ranged := Filter(Within(o), if o.descending then Backward(cells, |cells|) else cells);
    var docs := DocsOf(Filter(LiveCell(o), ranged[Clamp(o.skip, |ranged|)..]));
    if limit < 0 then docs else docs[..Clamp(limit, |docs|)]
  }

  lemma RangeBounds(o: Options, key: Bytes)
    ensures InRange(o, key) <==> !Ended(o, key)
  {
    if o.endKey.Some? {
      CompareSwap(key, o.endKey.value);
      if Compare(key, o.endKey.value) == 0 { CompareSwap(o.endKey.value, key); }
    }
  }

  lemma PaddedIs(key: Bytes)
    ensures Padded(key) == key + [255, 255, 255, 255, 255, 255, 255, 255, 255, 255]
  {
  }

  lemma {:induction false} FilterSame(p: Cell -> bool, q: Cell -> bool, xs: seq<Cell>)
    requires forall c :: p(c) <==> q(c)
    ensures Filter(p, xs) == Filter(q, xs)
  {
    if xs != [] { FilterSame(p, q, xs[1..]); }
  }

  /** Once out of range, out of range for good. */
  ghost predicate RangeClosed(o: Options, ahead: seq<Cell>) {
    forall i, j :: 0 <= i < j < |ahead| && InRange(o, ahead[j].key) ==> InRange(o, ahead[i].key)
  }

  ghost function Good(o: Options, ahead: seq<Cell>): seq<Document> {
    DocsOf(Filter((c: Cell) => InRange(o, c.key) && NextKeeps(o, c.doc), ahead))
  }

  lemma GoodHead(o: Options, ahead: seq<Cell>)
    requires ahead != []
    ensures Good(o, ahead)
         == (if InRange(o, ahead[0].key) && NextKeeps(o, ahead[0].doc) then [ahead[0].doc] else []) + Good(o, ahead[1..])
  {
  }

  lemma {:induction false} NoneGood(o: Options, ahead: seq<Cell>)
    requires forall j :: 0 <= j < |ahead| ==> !InRange(o, ahead[j].key)
    ensures Good(o, ahead) == []
  {
    if ahead != [] {
      GoodHead(o, ahead);
      NoneGood(o, ahead[1..]);
    }
  }

  lemma ClosedTail(o: Options, ahead: seq<Cell>)
    requires RangeClosed(o, ahead)
    ensures forall n :: 0 <= n <= |ahead| ==> RangeClosed(o, ahead[n..])
    ensures ahead != [] && !InRange(o, ahead[0].key) ==> forall n :: 0 <= n <= |ahead| ==> Good(o, ahead[n..]) == []
  {
    if ahead != [] && !InRange(o, ahead[0].key) {
      forall n | 0 <= n <= |ahead| ensures Good(o, ahead[n..]) == [] {
        forall j | 0 <= j < |ahead[n..]| ensures !InRange(o, ahead[n..][j].key) { assert ahead[n..][j] == ahead[n + j]; }
        NoneGood(o, ahead[n..]);
      }
    }
  }

  lemma {:induction false} NextGood(o: Options, limit: int, ahead: seq<Cell>)
    requires RangeClosed(o, ahead) && limit != 0
    ensures var next := NextFrom(o, limit, ahead);
            RangeClosed(o, next) && |next| <= |ahead|
            && Good(o, ahead) == if Continues(o, limit, next) then [next[0].doc] + Good(o, next[1..]) else []
  {
    ClosedTail(o, ahead);
    if ahead != [] {
      GoodHead(o, ahead);
      assert ahead[0..] == ahead;
      if Continues(o, limit, ahead) && !NextKeeps(o, ahead[0].doc) { NextGood(o, limit, ahead[1..]); }
    }
  }

  lemma {:induction false} ScanExact(o: Options, limit: int, ahead: seq<Cell>)
    requires RangeClosed(o, ahead) && Continues(o, limit, ahead)
    ensures Scan(o, limit, ahead) == Take(limit, [ahead[0].doc] + Good(o, ahead[1..]))
    decreases |ahead|
  {
    ClosedTail(o, ahead);
    NextGood(o, limit, ahead[1..]);
    var next := NextFrom(o, limit, ahead[1..]);
    var limit' := LimitAfter(o, limit, next);
    if Continues(o, limit', next) { ScanExact(o, limit', next); }
  }

  lemma {:induction false} FirstGood(o: Options, ahead: seq<Cell>)
    requires RangeClosed(o, ahead) && o.skipDeleted && !o.skipDesignDoc
    ensures var first := FirstFrom(o, ahead);
            RangeClosed(o, first)
            && Good(o, ahead) == if first != [] && InRange(o, first[0].key) then [first[0].doc] + Good(o, first[1..]) else []
  {
    ClosedTail(o, ahead);
    if ahead != [] {
      GoodHead(o, ahead);
      assert ahead[0..] == ahead;
      if !FirstKeeps(o, ahead[0].doc) { FirstGood(o, ahead[1..]); }
    }
  }

  /** From any position, the loop yields the good documents ahead up to the limit. */
  lemma LoopExact(o: Options, limit: int, ahead: seq<Cell>)
    requires RangeClosed(o, ahead) && o.skipDeleted && !o.skipDesignDoc
    ensures Scan(o, limit, FirstFrom(o, ahead)) == Take(limit, Good(o, ahead))
  {
    FirstGood(o, ahead);
    if Continues(o, limit, FirstFrom(o, ahead)) { ScanExact(o, limit, FirstFrom(o, ahead)); }
  }

  /******* Bounds *******/

  lemma {:induction false} FilterAppend(p: Cell -> bool, xs: seq<Cell>, ys: seq<Cell>)
    ensures Filter(p, xs + ys) == Filter(p, xs) + Filter(p, ys)
  {
    if xs == [] {
      assert xs + ys == ys;
    } else {
      var c, rest := xs[0], xs[1..];
      assert (xs + ys)[0] == c && (xs + ys)[1..] == rest + ys;
      FilterAppend(p, rest, ys);
      ConsAppend(c, Filter(p, rest), Filter(p, ys));
    }
  }

  lemma ConsAppend<T>(c: T, a: seq<T>, b: seq<T>)
    ensures [c] + (a + b) == ([c] + a) + b && [] + (a + b) == ([] + a) + b
  {
  }

  lemma {:induction false} FilterAll(p: Cell -> bool, xs: seq<Cell>, all: bool)
    requires forall c :: c in xs ==> p(c) == all
    ensures Filter(p, xs) == if all then xs else []
  {
    if xs != [] {
      assert xs == [xs[0]] + xs[1..];
      FilterAll(p, xs[1..], all);
    }
  }

  lemma FilterTail(p: Cell -> bool, xs: seq<Cell>, m: nat)
    requires m <= |xs|
    requires forall j :: 0 <= j < |xs| ==> (p(xs[j]) <==> m <= j)
    ensures Filter(p, xs) == xs[m..]
  {
    assert xs == xs[..m] + xs[m..];
    FilterAppend(p, xs[..m], xs[m..]);
    FilterAll(p, xs[..m], false);
    FilterAll(p, xs[m..], true);
  }

  lemma FilterHead(p: Cell -> bool, xs: seq<Cell>, m: nat)
    requires m <= |xs|
    requires forall j :: 0 <= j < |xs| ==> (p(xs[j]) <==> j < m)
    ensures Filter(p, xs) == xs[..m]
  {
    assert xs == xs[..m] + xs[m..];
    FilterAppend(p, xs[..m], xs[m..]);
    FilterAll(p, xs[..m], true);
    FilterAll(p, xs[m..], false);
  }

  lemma {:induction false} FilterTwice(p: Cell -> bool, q: Cell -> bool, r: Cell -> bool, xs: seq<Cell>)
    requires forall c :: r(c) <==> p(c) && q(c)
    ensures Filter(q, Filter(p, xs)) == Filter(r, xs)
  {
    if xs != [] {
      FilterTwice(p, q, r, xs[1..]);
      if p(xs[0]) {
        assert ([xs[0]] + Filter(p, xs[1..]))[1..] == Filter(p, xs[1..]);
      } else {
        assert Filter(p, xs) == Filter(p, xs[1..]);
      }
    }
  }

  lemma {:induction false} BackwardAt(cells: seq<Cell>, n: nat, m: nat)
    requires m <= n <= |cells|
    ensures forall j :: 0 <= j < n ==> Backward(cells, n)[j] == cells[n - 1 - j]
    ensures Backward(cells, n)[n - m..] == Backward(cells, m)
  {
    if n > 0 {
      BackwardAt(cells, n - 1, if m < n then m else m - 1);
      if m < n {
        assert Backward(cells, n)[n - m..] == Backward(cells, n - 1)[n - 1 - m..];
      }
    }
  }

  ghost function HasStarted(o: Options): Cell -> bool {
    (c: Cell) => Started(o, c.key)
  }

  lemma SeekBefore(cells: seq<Cell>, k: Bytes, j: nat)
    requires AscendingCells(cells) && j < |cells|
    ensures j < SeekIndex(KeysOf(cells), k) <==> Before(cells[j].key, k)
  {
    assert Ascending(KeysOf(cells));
    SeekSplits(KeysOf(cells), k, j);
  }

  /** A cell has started exactly when the start position has passed it or is on it. */
  lemma StartedFrom(o: Options, cells: seq<Cell>, j: nat)
    requires AscendingCells(cells) && j < |cells|
    ensures Started(o, cells[j].key) <==> if o.descending then j <= StartPos(o, cells) else StartPos(o, cells) <= j
  {
    if o.startKey.Some? {
      if o.descending {
        PaddedIs(o.startKey.value);
        SeekBefore(cells, Padded(o.startKey.value), j);
      } else {
        SeekBefore(cells, o.startKey.value, j);
        CompareSwap(o.startKey.value, cells[j].key);
      }
    }
  }

  /** The cursor starts at the first key within the start bound. */
  lemma StartExact(o: Options, cells: seq<Cell>)
    requires AscendingCells(cells)
    ensures AheadOf(cells, o.descending, StartPos(o, cells)) == Filter(HasStarted(o), Directed(o, cells))
  {
    forall j | 0 <= j < |cells|
      ensures Started(o, cells[j].key) <==> if o.descending then j <= StartPos(o, cells) else StartPos(o, cells) <= j
    {
      StartedFrom(o, cells, j);
    }
    if o.descending {
      BackwardStart(HasStarted(o), cells, StartPos(o, cells) + 1);
    } else {
      FilterTail(HasStarted(o), cells, StartPos(o, cells));
    }
  }

  lemma BackwardStart(p: Cell -> bool, cells: seq<Cell>, m: nat)
    requires m <= |cells| && forall j :: 0 <= j < |cells| ==> (p(cells[j]) <==> j < m)
    ensures Filter(p, Backward(cells, |cells|)) == Backward(cells, m)
  {
    var n := |cells|;
    BackwardAt(cells, n, m);
    forall j | 0 <= j < n ensures p(Backward(cells, n)[j]) <==> n - m <= j {
      assert Backward(cells, n)[j] == cells[n - 1 - j];
    }
    FilterTail(p, Backward(cells, n), n - m);
  }

  lemma RangeMonotone(o: Options, a: Bytes, b: Bytes)
    requires if o.descending then Before(b, a) else Before(a, b)
    requires InRange(o, b)
    ensures InRange(o, a)
  {
    if o.endKey.Some? {
      var e := o.endKey.value;
      CompareSwap(a, e);
      CompareSwap(b, e);
      if o.descending { CompareTransitive(e, b, a); } else { CompareTransitive(a, b, e); }
    }
  }

  lemma AheadClosed(o: Options, cells: seq<Cell>, pos: int)
    requires AscendingCells(cells)
    ensures RangeClosed(o, AheadOf(cells, o.descending, pos))
  {
    var ahead := AheadOf(cells, o.descending, pos);
    if o.descending && 0 <= pos < |cells| { BackwardAt(cells, pos + 1, 0); }
    forall i, j | 0 <= i < j < |ahead| && InRange(o, ahead[j].key) ensures InRange(o, ahead[i].key) {
      RangeMonotone(o, ahead[i].key, ahead[j].key);
    }
  }

  /******* Skipping *******/

  function RangeLength(o: Options, ahead: seq<Cell>): (m: nat)
    ensures m <= |ahead| && (m < |ahead| ==> !InRange(o, ahead[m].key))
    ensures forall j :: 0 <= j < m ==> InRange(o, ahead[j].key)
  {
    if ahead == [] || !InRange(o, ahead[0].key) then 0
    else
      var m := RangeLength(o, ahead[1..]);
      assert forall j :: 0 < j < m + 1 ==> ahead[j] == ahead[1..][j - 1];
      m + 1
  }

  lemma {:induction false} GoodPrefix(o: Options, xs: seq<Cell>, ys: seq<Cell>)
    requires forall j :: 0 <= j < |xs| ==> InRange(o, xs[j].key)
    requires Good(o, ys) == []
    ensures Good(o, xs + ys) == DocsOf(Filter(Keeping(o), xs))
  {
    if xs == [] {
      assert xs + ys == ys;
    } else {
      GoodHead(o, xs + ys);
      assert (xs + ys)[1..] == xs[1..] + ys;
      assert forall j :: 0 <= j < |xs[1..]| ==> xs[1..][j] == xs[j + 1];
      GoodPrefix(o, xs[1..], ys);
    }
  }

  lemma SkipGood(o: Options, ahead: seq<Cell>)
    requires RangeClosed(o, ahead)
    ensures Good(o, Drop(ahead, o.skip)) == DocsOf(Filter(Keeping(o), Drop(Filter(Ranged(o), ahead), o.skip)))
  {
    var m := RangeLength(o, ahead);
    RangedPrefix(o, ahead, m);
    OutOfRange(o, ahead, m);
    var n := if o.skip <= 0 then 0 else if o.skip >= |ahead| then |ahead| else o.skip;
    DropSplit(ahead, m, o.skip, n);
    if n > m { assert Good(o, ahead[m..][n - m..]) == []; }
    DropGood(o, ahead, m, o.skip, n);
  }

  lemma RangedPrefix(o: Options, ahead: seq<Cell>, m: nat)
    requires RangeClosed(o, ahead) && m == RangeLength(o, ahead)
    ensures Filter(Ranged(o), ahead) == ahead[..m]
  {
    FilterHead(Ranged(o), ahead, m);
  }

  lemma DropGood(o: Options, ahead: seq<Cell>, m: nat, skip: int, n: nat)
    requires m <= |ahead| && forall j :: 0 <= j < m ==> InRange(o, ahead[j].key)
    requires n == if skip <= 0 then 0 else if skip >= |ahead| then |ahead| else skip
    requires Good(o, ahead[m..]) == [] && (n > m ==> Good(o, ahead[n..]) == [])
    ensures Good(o, Drop(ahead, skip)) == DocsOf(Filter(Keeping(o), Drop(ahead[..m], skip)))
  {
    DropSplit(ahead, m, skip, n);
    if n <= m {
      var kept := ahead[n..m];
      assert forall j :: 0 <= j < |kept| ==> kept[j] == ahead[n + j];
      GoodPrefix(o, kept, ahead[m..]);
    }
  }

  lemma DropSplit<T>(xs: seq<T>, m: nat, skip: int, n: nat)
    requires m <= |xs| && n == if skip <= 0 then 0 else if skip >= |xs| then |xs| else skip
    ensures Drop(xs, skip) == xs[n..]
    ensures n <= m ==> xs[n..] == xs[n..m] + xs[m..] && Drop(xs[..m], skip) == xs[n..m]
    ensures n > m ==> xs[n..] == xs[m..][n - m..] && Drop(xs[..m], skip) == []
  {
  }

  lemma OutOfRange(o: Options, ahead: seq<Cell>, m: nat)
    requires RangeClosed(o, ahead) && m <= |ahead| && (m < |ahead| ==> !InRange(o, ahead[m].key))
    ensures forall n :: 0 <= n <= |ahead| - m ==> Good(o, ahead[m..][n..]) == []
    ensures Good(o, ahead[m..]) == []
  {
    ClosedTail(o, ahead);
    ClosedTail(o, ahead[m..]);
    assert ahead[m..][0..] == ahead[m..];
  }

  lemma SkippedGood(o: Options, limit: int, ahead: seq<Cell>)
    requires RangeClosed(o, ahead)
    ensures RangeClosed(o, AfterSkip(o, limit, ahead))
    ensures Take(limit, Good(o, AfterSkip(o, limit, ahead))) == Take(limit, Good(o, Drop(ahead, o.skip)))
  {
    ClosedTail(o, ahead);
    assert ahead[0..] == ahead;
    assert Good(o, []) == [];
  }

  /** Exactly the first `limit` live documents, local ones left out if asked, of the
      key range in cursor order after dropping `skip` raw keys. */
  lemma YieldExact(o: Options, limit: int, cells: seq<Cell>)
    requires AscendingCells(cells) && o.skipDeleted && !o.skipDesignDoc
    ensures Yield(o, limit, cells) == Expected(o, limit, cells)
  {
    var ahead := AheadOf(cells, o.descending, StartPos(o, cells));
    AheadClosed(o, cells, StartPos(o, cells));
    SkippedGood(o, limit, ahead);
    LoopExact(o, limit, AfterSkip(o, limit, ahead));
    SkipGood(o, ahead);
    StartExact(o, cells);
    var ds := Directed(o, cells);
    forall c: Cell ensures Within(o)(c) <==> HasStarted(o)(c) && Ranged(o)(c) { RangeBounds(o, c.key); }
    FilterTwice(HasStarted(o), Ranged(o), Within(o), ds);
    KeptAre(o, limit, Filter(Within(o), ds));
  }

  lemma KeptAre(o: Options, limit: int, ranged: seq<Cell>)
    requires o.skipDeleted && !o.skipDesignDoc
    ensures var docs := DocsOf(Filter(LiveCell(o), ranged[Clamp(o.skip, |ranged|)..]));
            Take(limit, DocsOf(Filter(Keeping(o), Drop(ranged, o.skip))))
            == if limit < 0 then docs else docs[..Clamp(limit, |docs|)]
  {
    FilterSame(Keeping(o), LiveCell(o), Drop(ranged, o.skip));
    assert Drop(ranged, o.skip) == ranged[Clamp(o.skip, |ranged|)..];
  }
}
