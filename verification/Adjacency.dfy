/** What leaving out an OR means: two terms next to each other are meant to be a
    disjunction, and are one exactly when the first is no word that ends in a colon
    or the second is no phrase. */
module Adjacency {
  import opened Lucene

  /******* Where an OR may be left out *******/

  predicate EndsTerm(t: Token) {
    t.Word? || t.Quoted? || t == RParen
  }

  /** Between the two a term ends and another one starts. */
  predicate Adjacent(left: seq<Token>, right: seq<Token>) {
    left != [] && EndsTerm(left[|left| - 1]) && StartsClause(Peek(right))
  }

  /******* Without a clash: both are parsed alike *******/

  /** What stands after the place, without the OR and with it. */
  ghost predicate Place(b: seq<Token>, c: seq<Token>) {
    StartsClause(Peek(b)) && c == [Or] + b
  }

  /** What is still to be read before the place. */
  ghost predicate Front(s: seq<Token>, b: seq<Token>) {
    End !in s && (s != [] ==> EndsTerm(s[|s| - 1])) && !Clash(s, b)
  }

  /** The same query, and the same still to be read before the place. */
  ghost predicate Along(r: Parsed, r': Parsed, s: seq<Token>, b: seq<Token>, c: seq<Token>) {
    Front(s, b) && r.Ok? && r' == Ok(r.q, s + c) && r.rest == s + b
  }

  /** Both parses are past the place, or both are the same way before it. */
  ghost predicate Alike(r: Parsed, r': Parsed, b: seq<Token>, c: seq<Token>) {
    r == r' || (r.Ok? && |r.rest| >= |b| && Along(r, r', r.rest[..|r.rest| - |b|], b, c))
  }

  /** A whole disjunction never stops at the place itself. */
  ghost predicate AlikeOr(r: Parsed, r': Parsed, b: seq<Token>, c: seq<Token>) {
    r == r' || (r.Ok? && |r.rest| > |b| && Along(r, r', r.rest[..|r.rest| - |b|], b, c))
  }

  lemma AlongAlike(r: Parsed, r': Parsed, s: seq<Token>, b: seq<Token>, c: seq<Token>)
    requires Along(r, r', s, b, c)
    ensures Alike(r, r', b, c) && (s != [] ==> AlikeOr(r, r', b, c))
  {
    assert (s + b)[..|s|] == s;
  }

  lemma FrontTail(s: seq<Token>, b: seq<Token>, c: seq<Token>, n: nat)
    requires Front(s, b) && n <= |s|
    ensures Front(s[n..], b) && (s + b)[n..] == s[n..] + b && (s + c)[n..] == s[n..] + c
  {
  }

  lemma {:induction false} PrimaryAlike(s: seq<Token>, b: seq<Token>, c: seq<Token>)
    requires Place(b, c) && Front(s, b) && s != []
    ensures Alike(ReadPrimary(s + b), ReadPrimary(s + c), b, c)
    decreases |s|, 0
  {
    var r, r' := ReadPrimary(s + b), ReadPrimary(s + c);
    FrontTail(s, b, c, 1);
    if s[0] == LParen {
      OrAlike(s[1..], b, c);
      ClosesAlike(ReadOr(s[1..] + b), ReadOr(s[1..] + c), b, c);
    } else if s[0].Quoted? {
      AlongAlike(r, r', s[1..], b, c);
    } else if s[0].Word? {
      WordAlike(s, b, c);
    }
  }

  /** A bracket that follows the place, or comes before it. */
  function Closed(r: Parsed): Parsed {
    if r.Ok? && Peek(r.rest) == RParen then Ok(r.q, r.rest[1..]) else Failed
  }

  lemma ClosesAlike(r: Parsed, r': Parsed, b: seq<Token>, c: seq<Token>)
    requires AlikeOr(r, r', b, c)
    ensures Alike(Closed(r), Closed(r'), b, c)
  {
    if r != r' {
      var s := r.rest[..|r.rest| - |b|];
      FrontTail(s, b, c, 1);
      if s[0] == RParen { AlongAlike(Closed(r), Closed(r'), s[1..], b, c); }
    }
  }

  lemma WordAlike(s: seq<Token>, b: seq<Token>, c: seq<Token>)
    requires Place(b, c) && Front(s, b) && s != [] && s[0].Word?
    ensures Alike(ReadPrimary(s + b), ReadPrimary(s + c), b, c)
  {
    var r, r' := ReadPrimary(s + b), ReadPrimary(s + c);
    FrontTail(s, b, c, 1);
    if |s| > 1 {
      if EndsInColon(s[0].text) && s[1].Quoted? {
        FrontTail(s, b, c, 2);
        AlongAlike(r, r', s[2..], b, c);
      } else {
        AlongAlike(r, r', s[1..], b, c);
      }
    } else {
      assert s[1..] + b == b && s[1..] + c == c;
      AlongAlike(r, r', s[1..], b, c);
    }
  }

  lemma {:induction false} NotAlike(s: seq<Token>, b: seq<Token>, c: seq<Token>)
    requires Place(b, c) && Front(s, b) && s != []
    ensures Alike(ReadNot(s + b), ReadNot(s + c), b, c)
    decreases |s|, 1
  {
    if s[0] == Not {
      FrontTail(s, b, c, 1);
      NotAlike(s[1..], b, c);
    } else {
      PrimaryAlike(s, b, c);
    }
  }

  lemma {:induction false} AndTailAlike(s: seq<Token>, b: seq<Token>, c: seq<Token>, parts: seq<Query>)
    requires Place(b, c) && Front(s, b) && parts != []
    ensures Alike(AndTail(s + b, parts), AndTail(s + c, parts), b, c)
    decreases |s|, 2
  {
    if s != [] && s[0] == And {
      FrontTail(s, b, c, 1);
      NotAlike(s[1..], b, c);
      var r, r' := ReadNot(s[1..] + b), ReadNot(s[1..] + c);
      if r != r' { AndTailAlike(r.rest[..|r.rest| - |b|], b, c, parts + [r.q]); }
    } else {
      assert [] + b == b && [] + c == c;
      AlongAlike(AndTail(s + b, parts), AndTail(s + c, parts), s, b, c);
    }
  }

  lemma {:induction false} AndAlike(s: seq<Token>, b: seq<Token>, c: seq<Token>)
    requires Place(b, c) && Front(s, b) && s != []
    ensures Alike(ReadAnd(s + b), ReadAnd(s + c), b, c)
    decreases |s|, 3
  {
    NotAlike(s, b, c);
    var r, r' := ReadNot(s + b), ReadNot(s + c);
    if r != r' { AndTailAlike(r.rest[..|r.rest| - |b|], b, c, [r.q]); }
  }

  lemma {:induction false} OrTailAlike(s: seq<Token>, b: seq<Token>, c: seq<Token>, parts: seq<Query>)
    requires Place(b, c) && Front(s, b) && parts != []
    ensures AlikeOr(OrTail(s + b, parts), OrTail(s + c, parts), b, c)
    decreases |s|, 4
  {
    if s == [] {
      assert [] + b == b && [] + c == c && c[1..] == b;
    } else if s[0] == Or || StartsClause(s[0]) {
      var n := if s[0] == Or then 1 else 0;
      FrontTail(s, b, c, n);
      AndAlike(s[n..], b, c);
      var r, r' := ReadAnd(s[n..] + b), ReadAnd(s[n..] + c);
      if r != r' { OrTailAlike(r.rest[..|r.rest| - |b|], b, c, parts + [r.q]); }
    } else {
      AlongAlike(OrTail(s + b, parts), OrTail(s + c, parts), s, b, c);
    }
  }

  lemma {:induction false} OrAlike(s: seq<Token>, b: seq<Token>, c: seq<Token>)
    requires Place(b, c) && Front(s, b) && s != []
    ensures AlikeOr(ReadOr(s + b), ReadOr(s + c), b, c)
    decreases |s|, 5
  {
    AndAlike(s, b, c);
    var r, r' := ReadAnd(s + b), ReadAnd(s + c);
    if r != r' { OrTailAlike(r.rest[..|r.rest| - |b|], b, c, [r.q]); }
  }

  /******* With a clash: one field phrase more *******/

  /** How often a word that ends in a colon is followed by a phrase. */
  function Pairs(ts: seq<Token>): nat {
    if ts == [] then 0 else (if Clash(ts[..1], ts[1..]) then 1 else 0) + Pairs(ts[1..])
  }

  function Sum(ns: seq<nat>): nat {
    if ns == [] then 0 else Sum(ns[..|ns| - 1]) + ns[|ns| - 1]
  }

  /** How many phrases of a field there are in a query. */
  function Fields(q: Query): nat
    decreases q
  {
    match q
    case FieldPhrase(_, _) => 1
    case Excluding(inner) => Fields(inner)
    case Both(parts) => Sum(seq(|parts|, i requires 0 <= i < |parts| => Fields(parts[i])))
    case Either(parts) => Sum(seq(|parts|, i requires 0 <= i < |parts| => Fields(parts[i])))
    case _ => 0
  }

  function FieldsOf(parts: seq<Query>): nat {
    Sum(seq(|parts|, i requires 0 <= i < |parts| => Fields(parts[i])))
  }

  lemma FieldsSnoc(parts: seq<Query>, q: Query)
    ensures FieldsOf(parts + [q]) == FieldsOf(parts) + Fields(q) && FieldsOf([q]) == Fields(q)
  {
    var more := parts + [q];
    var counts := seq(|more|, i requires 0 <= i < |more| => Fields(more[i]));
    assert counts[..|parts|] == seq(|parts|, i requires 0 <= i < |parts| => Fields(parts[i]));
    assert seq(1, i requires 0 <= i < 1 => Fields([q][i])) == [Fields(q)];
    assert Sum([Fields(q)]) == Sum([Fields(q)][..0]) + Fields(q);
  }

  /** Reading turns each pair into the phrase of a field, and makes no others. */
  ghost predicate Counts(r: Parsed, n: nat) {
    r.Ok? ==> Fields(r.q) + Pairs(r.rest) == n
  }

  lemma {:induction false} PrimaryCounts(ts: seq<Token>)
    ensures Counts(ReadPrimary(ts), Pairs(ts))
    decreases |ts|, 0
  {
    if Peek(ts) == LParen {
      OrCounts(ts[1..]);
      var r := ReadOr(ts[1..]);
      if r.Ok? && Peek(r.rest) == RParen { assert Pairs(r.rest) == Pairs(r.rest[1..]); }
    } else if Peek(ts).Word? && EndsInColon(ts[0].text) && Peek(ts[1..]).Quoted? {
      assert Pairs(ts[1..]) == Pairs(ts[1..][1..]) && ts[1..][1..] == ts[2..];
    }
  }

  lemma {:induction false} NotCounts(ts: seq<Token>)
    ensures Counts(ReadNot(ts), Pairs(ts))
    decreases |ts|, 1
  {
    if Peek(ts) == Not { NotCounts(ts[1..]); } else { PrimaryCounts(ts); }
  }

  lemma {:induction false} AndTailCounts(ts: seq<Token>, parts: seq<Query>)
    requires parts != []
    ensures Counts(AndTail(ts, parts), FieldsOf(parts) + Pairs(ts))
    decreases |ts|, 2
  {
    if Peek(ts) == And {
      NotCounts(ts[1..]);
      var r := ReadNot(ts[1..]);
      if r.Ok? {
        FieldsSnoc(parts, r.q);
        AndTailCounts(r.rest, parts + [r.q]);
      }
    } else {
      LonePart(parts);
    }
  }

  lemma LonePart(parts: seq<Query>)
    requires parts != []
    ensures FieldsOf(parts) == (if |parts| == 1 then Fields(parts[0]) else Fields(Both(parts)))
    ensures FieldsOf(parts) == (if |parts| == 1 then Fields(parts[0]) else Fields(Either(parts)))
  {
    if |parts| == 1 {
      FieldsSnoc([], parts[0]);
      assert parts == [parts[0]];
    }
  }

  lemma {:induction false} AndCounts(ts: seq<Token>)
    ensures Counts(ReadAnd(ts), Pairs(ts))
    decreases |ts|, 3
  {
    NotCounts(ts);
    var r := ReadNot(ts);
    if r.Ok? {
      FieldsSnoc([], r.q);
      AndTailCounts(r.rest, [r.q]);
    }
  }

  lemma {:induction false} OrTailCounts(ts: seq<Token>, parts: seq<Query>)
    requires parts != []
    ensures Counts(OrTail(ts, parts), FieldsOf(parts) + Pairs(ts))
    decreases |ts|, 4
  {
    if Peek(ts) == Or || StartsClause(Peek(ts)) {
      var next := if Peek(ts) == Or then ts[1..] else ts;
      assert Pairs(next) == Pairs(ts);
      AndCounts(next);
      var r := ReadAnd(next);
      if r.Ok? {
        FieldsSnoc(parts, r.q);
        OrTailCounts(r.rest, parts + [r.q]);
      }
    } else {
      LonePart(parts);
    }
  }

  lemma {:induction false} OrCounts(ts: seq<Token>)
    ensures Counts(ReadOr(ts), Pairs(ts))
    decreases |ts|, 5
  {
    AndCounts(ts);
    var r := ReadAnd(ts);
    if r.Ok? {
      FieldsSnoc([], r.q);
      OrTailCounts(r.rest, [r.q]);
    }
  }

  lemma {:induction false} PairsJoin(x: seq<Token>, y: seq<Token>)
    ensures Pairs(x + y) == Pairs(x) + Pairs(y) + if Clash(x, y) then 1 else 0
  {
    if x == [] {
      assert [] + y == y;
    } else {
      assert (x + y)[1..] == x[1..] + y && (x + y)[..1] == x[..1];
      PairsJoin(x[1..], y);
      if |x| == 1 {
        assert x[1..] + y == y && x[..1] == x;
      } else {
        assert Peek(x[1..] + y) == Peek(x[1..]);
      }
    }
  }

  lemma OrAddsNoPair(x: seq<Token>, y: seq<Token>)
    ensures Pairs(x + ([Or] + y)) == Pairs(x) + Pairs(y)
  {
    PairsJoin(x, [Or] + y);
    PairsJoin([Or], y);
  }

  /******* With a clash: a query or none, as with the OR *******/

  /** Both fail, or both leave the same to be read. */
  ghost predicate SameEnd(r: Parsed, r': Parsed) {
    if r.Ok? then r'.Ok? && r'.rest == r.rest else r' == Failed
  }

  /** What was read before does not matter to the rest of a conjunction or disjunction. */
  lemma {:induction false} AndTailEnd(ts: seq<Token>, parts: seq<Query>, parts': seq<Query>)
    requires parts != [] && parts' != []
    ensures SameEnd(AndTail(ts, parts), AndTail(ts, parts'))
    decreases |ts|
  {
    if Peek(ts) == And {
      var r := ReadNot(ts[1..]);
      if r.Ok? { AndTailEnd(r.rest, parts + [r.q], parts' + [r.q]); }
    }
  }

  lemma {:induction false} OrTailEnd(ts: seq<Token>, parts: seq<Query>, parts': seq<Query>)
    requires parts != [] && parts' != []
    ensures SameEnd(OrTail(ts, parts), OrTail(ts, parts'))
    decreases |ts|
  {
    if Peek(ts) == Or || StartsClause(Peek(ts)) {
      var r := ReadAnd(if Peek(ts) == Or then ts[1..] else ts);
      if r.Ok? { OrTailEnd(r.rest, parts + [r.q], parts' + [r.q]); }
    }
  }

  /** What is still to be read before the place, when the phrase there would be taken. */
  ghost predicate Taking(s: seq<Token>, b: seq<Token>) {
    End !in s && Clash(s, b)
  }

  ghost predicate Before(r: Parsed, r': Parsed, s: seq<Token>, b: seq<Token>, c: seq<Token>) {
    Taking(s, b) && r.Ok? && r'.Ok? && r.rest == s + b && r'.rest == s + c
  }

  /** The same end, or both before the place. */
  ghost predicate EndsAlike(r: Parsed, r': Parsed, b: seq<Token>, c: seq<Token>) {
    SameEnd(r, r') || (r.Ok? && |r.rest| >= |b| && Before(r, r', r.rest[..|r.rest| - |b|], b, c))
  }

  /** Or one parse has taken the phrase, and the other has stopped at the OR. */
  ghost predicate TakesOrStops(r: Parsed, r': Parsed, b: seq<Token>, c: seq<Token>) {
    EndsAlike(r, r', b, c) || (b != [] && r.Ok? && r'.Ok? && r.rest == b[1..] && r'.rest == c)
  }

  /** A conjunction goes on after the phrase, or stops at the OR. */
  ghost predicate GoesOnOrStops(r: Parsed, r': Parsed, b: seq<Token>, c: seq<Token>) {
    EndsAlike(r, r', b, c) || (b != [] && SameEnd(r, AndTail(b[1..], [MatchAll])) && r'.Ok? && r'.rest == c)
  }

  lemma BeforeAlike(r: Parsed, r': Parsed, s: seq<Token>, b: seq<Token>, c: seq<Token>)
    requires Before(r, r', s, b, c)
    ensures EndsAlike(r, r', b, c)
  {
    assert (s + b)[..|s|] == s;
  }

  lemma TakingTail(s: seq<Token>, b: seq<Token>, c: seq<Token>)
    requires Taking(s, b) && |s| > 1
    ensures Taking(s[1..], b) && (s + b)[1..] == s[1..] + b && (s + c)[1..] == s[1..] + c
  {
  }

  lemma {:induction false} PrimaryEnds(s: seq<Token>, b: seq<Token>, c: seq<Token>)
    requires Place(b, c) && Taking(s, b)
    ensures TakesOrStops(ReadPrimary(s + b), ReadPrimary(s + c), b, c)
    decreases |s|, 0
  {
    var r, r' := ReadPrimary(s + b), ReadPrimary(s + c);
    if |s| == 1 {
      assert (s + b)[1..] == b && (s + b)[2..] == b[1..] && (s + c)[1..] == c;
    } else {
      TakingTail(s, b, c);
      if s[0] == LParen {
        OrEnds(s[1..], b, c);
        ClosesAt(ReadOr(s[1..] + b), ReadOr(s[1..] + c), b, c);
      } else if s[0].Word? && EndsInColon(s[0].text) && s[1].Quoted? {
        TakingTail(s[1..], b, c);
        assert s[2..] == s[1..][1..] && (s + b)[2..] == s[2..] + b && (s + c)[2..] == s[2..] + c;
        BeforeAlike(r, r', s[2..], b, c);
      } else if s[0].Word? || s[0].Quoted? {
        BeforeAlike(r, r', s[1..], b, c);
      }
    }
  }

  lemma ClosesAt(r: Parsed, r': Parsed, b: seq<Token>, c: seq<Token>)
    requires EndsAlike(r, r', b, c)
    ensures EndsAlike(Closed(r), Closed(r'), b, c)
  {
    if !SameEnd(r, r') {
      var s := r.rest[..|r.rest| - |b|];
      if s[0] == RParen {
        TakingTail(s, b, c);
        BeforeAlike(Closed(r), Closed(r'), s[1..], b, c);
      }
    }
  }

  lemma {:induction false} NotEnds(s: seq<Token>, b: seq<Token>, c: seq<Token>)
    requires Place(b, c) && Taking(s, b)
    ensures TakesOrStops(ReadNot(s + b), ReadNot(s + c), b, c)
    decreases |s|, 1
  {
    if s[0] == Not {
      TakingTail(s, b, c);
      NotEnds(s[1..], b, c);
      var r, r' := ReadNot(s[1..] + b), ReadNot(s[1..] + c);
      if !SameEnd(r, r') && EndsAlike(r, r', b, c) {
        BeforeAlike(ReadNot(s + b), ReadNot(s + c), r.rest[..|r.rest| - |b|], b, c);
      }
    } else {
      PrimaryEnds(s, b, c);
    }
  }

  /** A conjunction goes on from where its parts have come to. */
  lemma {:induction false} AndTailGoesOn(r: Parsed, r': Parsed, b: seq<Token>, c: seq<Token>, parts: seq<Query>,
                                         parts': seq<Query>, n: nat)
    requires Place(b, c) && TakesOrStops(r, r', b, c) && r.Ok? && r'.Ok? && parts != [] && parts' != []
    requires |r.rest| < n + |b|
    ensures GoesOnOrStops(AndTail(r.rest, parts), AndTail(r'.rest, parts'), b, c)
    decreases n, 0
  {
    if SameEnd(r, r') {
      AndTailEnd(r.rest, parts, parts');
    } else if EndsAlike(r, r', b, c) {
      AndTailEnds(r.rest[..|r.rest| - |b|], b, c, parts, parts', n - 1);
    } else {
      AndTailEnd(b[1..], parts, [MatchAll]);
    }
  }

  lemma {:induction false} AndTailEnds(s: seq<Token>, b: seq<Token>, c: seq<Token>, parts: seq<Query>, parts': seq<Query>,
                                       n: nat)
    requires Place(b, c) && Taking(s, b) && parts != [] && parts' != [] && |s| <= n
    ensures GoesOnOrStops(AndTail(s + b, parts), AndTail(s + c, parts'), b, c)
    decreases n, 1
  {
    if s[0] == And {
      TakingTail(s, b, c);
      NotEnds(s[1..], b, c);
      var r, r' := ReadNot(s[1..] + b), ReadNot(s[1..] + c);
      if r.Ok? && r'.Ok? { AndTailGoesOn(r, r', b, c, parts + [r.q], parts' + [r'.q], n - 1); }
    } else {
      BeforeAlike(AndTail(s + b, parts), AndTail(s + c, parts'), s, b, c);
    }
  }

  lemma {:induction false} AndEnds(s: seq<Token>, b: seq<Token>, c: seq<Token>)
    requires Place(b, c) && Taking(s, b)
    ensures GoesOnOrStops(ReadAnd(s + b), ReadAnd(s + c), b, c)
    decreases |s|, 3
  {
    NotEnds(s, b, c);
    var r, r' := ReadNot(s + b), ReadNot(s + c);
    if r.Ok? && r'.Ok? { AndTailGoesOn(r, r', b, c, [r.q], [r'.q], |s|); }
  }

  /** After the OR comes what the other conjunction went on with. */
  lemma OrReadsOn(b: seq<Token>, c: seq<Token>, r: Parsed, parts: seq<Query>, parts': seq<Query>)
    requires Place(b, c) && b[0].Quoted? && SameEnd(r, AndTail(b[1..], [MatchAll])) && parts != [] && parts' != []
    ensures SameEnd(if r.Ok? then OrTail(r.rest, parts) else Failed, OrTail(c, parts'))
  {
    assert c[1..] == b;
    var phrase := Phrase(b[0].text);
    AndTailEnd(b[1..], [phrase], [MatchAll]);
    assert ReadNot(b) == Ok(phrase, b[1..]);
    var r' := ReadAnd(b);
    assert r' == AndTail(b[1..], [phrase]);
    assert OrTail(c, parts') == if r'.Ok? then OrTail(r'.rest, parts' + [r'.q]) else Failed;
    if r'.Ok? { OrTailEnd(r'.rest, parts, parts' + [r'.q]); }
  }

  lemma {:induction false} OrTailGoesOn(r: Parsed, r': Parsed, b: seq<Token>, c: seq<Token>, parts: seq<Query>,
                                        parts': seq<Query>, n: nat)
    requires Place(b, c) && b[0].Quoted? && GoesOnOrStops(r, r', b, c) && r'.Ok? && parts != [] && parts' != []
    requires r.Ok? && EndsAlike(r, r', b, c) ==> |r.rest| < n + |b|
    ensures EndsAlike(if r.Ok? then OrTail(r.rest, parts) else Failed, OrTail(r'.rest, parts'), b, c)
    decreases n, 0
  {
    if SameEnd(r, r') {
      OrTailEnd(r.rest, parts, parts');
    } else if EndsAlike(r, r', b, c) {
      OrTailEnds(r.rest[..|r.rest| - |b|], b, c, parts, parts', n - 1);
    } else {
      OrReadsOn(b, c, r, parts, parts');
    }
  }

  lemma {:induction false} OrTailEnds(s: seq<Token>, b: seq<Token>, c: seq<Token>, parts: seq<Query>, parts': seq<Query>,
                                      n: nat)
    requires Place(b, c) && Taking(s, b) && parts != [] && parts' != [] && |s| <= n
    ensures EndsAlike(OrTail(s + b, parts), OrTail(s + c, parts'), b, c)
    decreases n, 4
  {
    if s[0] == Or || StartsClause(s[0]) {
      var next := if s[0] == Or then s[1..] else s;
      if s[0] == Or { TakingTail(s, b, c); }
      AndEnds(next, b, c);
      var r, r' := ReadAnd(next + b), ReadAnd(next + c);
      if r'.Ok? {
        var q := if r.Ok? then r.q else MatchAll;
        OrTailGoesOn(r, r', b, c, parts + [q], parts' + [r'.q], |next|);
      }
    } else {
      BeforeAlike(OrTail(s + b, parts), OrTail(s + c, parts'), s, b, c);
    }
  }

  lemma {:induction false} OrEnds(s: seq<Token>, b: seq<Token>, c: seq<Token>)
    requires Place(b, c) && Taking(s, b)
    ensures EndsAlike(ReadOr(s + b), ReadOr(s + c), b, c)
    decreases |s|, 5
  {
    AndEnds(s, b, c);
    var r, r' := ReadAnd(s + b), ReadAnd(s + c);
    if r'.Ok? { OrTailGoesOn(r, r', b, c, [if r.Ok? then r.q else MatchAll], [r'.q], |s|); }
  }

  /******* The theorem *******/

  /** Wherever a term follows another, however deep in brackets and whatever else
      there is: leaving out the OR between the two never makes a query of what is
      none, or none of what is one, and it changes the query exactly when there is
      one and a phrase comes right after a colon. */
  lemma AdjacentIsOr(left: seq<Token>, right: seq<Token>)
    requires Adjacent(left, right) && End !in left
    ensures var without, with := ParseTokens(left + right), ParseTokens(left + ([Or] + right));
            (without.Ok? <==> with.Ok?) && (without == with <==> !Clash(left, right) || with == Failed)
  {
    var r, r' := ReadOr(left + right), ReadOr(left + ([Or] + right));
    if Clash(left, right) {
      OrEnds(left, right, [Or] + right);
      EndsParse(r, r', right, [Or] + right);
      OrCounts(left + right);
      OrCounts(left + ([Or] + right));
      PairsJoin(left, right);
      OrAddsNoPair(left, right);
    } else {
      OrAlike(left, right, [Or] + right);
      AlikeParses(r, r', right, [Or] + right);
    }
  }

  /** Stopping before the place is no way to read everything. */
  predicate Whole(r: Parsed) {
    r.Ok? && Peek(r.rest) == End
  }

  lemma EndsParse(r: Parsed, r': Parsed, b: seq<Token>, c: seq<Token>)
    requires EndsAlike(r, r', b, c)
    ensures Whole(r) <==> Whole(r')
  {
    if !SameEnd(r, r') {
      var s := r.rest[..|r.rest| - |b|];
      assert s[0] in s;
    }
  }

  lemma AlikeParses(r: Parsed, r': Parsed, b: seq<Token>, c: seq<Token>)
    requires AlikeOr(r, r', b, c)
    ensures Whole(r) <==> Whole(r')
    ensures Whole(r) ==> r == r'
  {
    if r.Ok? && |r.rest| > |b| {
      var s := r.rest[..|r.rest| - |b|];
      assert s[0] in s;
    }
  }

  /** Two queries side by side, each in brackets where a conjunction needs them, are
      their disjunction exactly when they do not clash; with an OR they always are. */
  lemma NeighboursAreEither(style: Style, l: Query, r: Query)
    requires WellMade(l) && WellMade(r)
    ensures var x, y := Print(style, 1, l), Print(style, 1, r);
            && ParseTokens(x + ([Or] + (y + [End]))) == Ok(Either([l, r]), [End])
            && (ParseTokens(x + (y + [End])) == Ok(Either([l, r]), [End]) <==> !Clash(x, y))
  {
    var x, y := Print(style, 1, l), Print(style, 1, r);
    PrintStarts(style, 1, l);
    PrintStarts(style, 1, r);
    OrBetween(style, l, r, x, y);
    PrintCloses(style, 1, l);
    assert Peek(y + [End]) == Peek(y);
    AdjacentIsOr(x, y + [End]);
  }

  lemma OrBetween(style: Style, l: Query, r: Query, x: seq<Token>, y: seq<Token>)
    requires WellMade(l) && WellMade(r) && x == Print(style, 1, l) && y == Print(style, 1, r)
    ensures ParseTokens(x + ([Or] + (y + [End]))) == Ok(Either([l, r]), [End])
  {
    var more := [Or] + (y + [End]);
    PrintReads(style, 1, l, more);
    PrintReads(style, 1, r, [End]);
    assert Ends(1, x, more) && Ends(1, y, [End]);
    assert more[1..] == y + [End];
    assert [l] + [r] == [l, r];
    assert OrTail([End], [l, r]) == Ok(Either([l, r]), [End]);
    assert OrTail(more, [l]) == OrTail([End], [l, r]);
  }

  /** What is printed ends a term, and holds no terminator. */
  lemma {:induction false} PrintCloses(style: Style, level: nat, q: Query)
    requires WellMade(q)
    ensures Closes(Print(style, level, q))
    decreases q
  {
    match q
    case Excluding(inner) => PrintCloses(style, 2, inner);
    case Both(parts) =>
      var printed := PrintAll(style, 2, parts);
      assert printed == seq(|parts|, i requires 0 <= i < |parts| => Print(style, 2, parts[i]));
      forall k | 0 <= k < |parts| ensures Closes(printed[k]) { PrintCloses(style, 2, parts[k]); }
      AndedCloses(printed, 1);
      EnclosedCloses(printed[0] + AndedFrom(printed, 1));
    case Either(parts) =>
      var printed := PrintAll(style, 1, parts);
      assert printed == seq(|parts|, i requires 0 <= i < |parts| => Print(style, 1, parts[i]));
      forall k | 0 <= k < |parts| ensures Closes(printed[k]) { PrintCloses(style, 1, parts[k]); }
      var joins := (i: nat) => style(q, i);
      JoinedCloses(printed, 1, joins);
      EnclosedCloses(printed[0] + JoinedFrom(printed, 1, joins));
    case _ =>
  }

  ghost predicate Closes(x: seq<Token>) {
    x != [] && EndsTerm(x[|x| - 1]) && End !in x
  }

  lemma EnclosedCloses(body: seq<Token>)
    requires Closes(body)
    ensures Closes(Enclosed(body))
  {
  }

  lemma {:induction false} AndedCloses(printed: seq<seq<Token>>, i: nat)
    requires 1 <= i <= |printed| && forall k :: 0 <= k < |printed| ==> Closes(printed[k])
    ensures Closes(printed[i - 1] + AndedFrom(printed, i))
    decreases |printed| - i
  {
    if i < |printed| {
      AndedCloses(printed, i + 1);
      var tail := printed[i] + AndedFrom(printed, i + 1);
      assert printed[i - 1] + AndedFrom(printed, i) == printed[i - 1] + [And] + tail;
    } else {
      assert printed[i - 1] + [] == printed[i - 1];
    }
  }

  lemma {:induction false} JoinedCloses(printed: seq<seq<Token>>, i: nat, style: nat -> bool)
    requires 1 <= i <= |printed| && forall k :: 0 <= k < |printed| ==> Closes(printed[k])
    ensures Closes(printed[i - 1] + JoinedFrom(printed, i, style))
    decreases |printed| - i
  {
    if i < |printed| {
      JoinedCloses(printed, i + 1, style);
      var sep := Separator(style(i), printed[i - 1], printed[i]);
      var tail := printed[i] + JoinedFrom(printed, i + 1, style);
      assert printed[i - 1] + JoinedFrom(printed, i, style) == printed[i - 1] + sep + tail;
    } else {
      assert printed[i - 1] + [] == printed[i - 1];
    }
  }
}
