/** The search query language: a tokenizer and a recursive-descent parser. */
module Lucene {
  datatype Token =
    | Word(text: string)
    | Quoted(text: string)
    | And | Or | Not
    | LParen | RParen
    | End

  /** What the parser hands to the search engine. */
  datatype Query =
    | MatchAll
    | Phrase(text: string)
    | FieldPhrase(field: string, text: string)
    | Term(text: string)
    | FieldTerm(field: string, value: string)
    | Excluding(inner: Query)
    | Both(parts: seq<Query>)
    | Either(parts: seq<Query>)

  datatype Parsed = Ok(q: Query, rest: seq<Token>) | Failed

  function Peek(ts: seq<Token>): Token {
    if ts == [] then End else ts[0]
  }

  predicate StartsClause(t: Token) {
    t.Word? || t.Quoted? || t == LParen || t == Not
  }

  predicate EndsInColon(w: string) {
    w != "" && w[|w| - 1] == ':'
  }

  /** The index of the first colon; the length if there is none. */
  function Colon(w: string): (i: nat)
    ensures i <= |w| && (i < |w| ==> w[i] == ':') && ':' !in w[..i]
  {
    if w == "" || w[0] == ':' then 0
    else
      assert w == [w[0]] + w[1..];
      Colon(w[1..]) + 1
  }

  /** The query of a word that is no field prefix of a phrase. */
  function WordQuery(w: string): Query {
    if w == "*:*" then MatchAll
    else if 0 < Colon(w) < |w| - 1 then FieldTerm(w[..Colon(w)], w[Colon(w) + 1..])
    else Term(w)
  }

  /******* The grammar *******/

  function ReadOr(ts: seq<Token>): (r: Parsed)
    ensures r.Ok? ==> |r.rest| < |ts|
    decreases |ts|, 5
  {
    match ReadAnd(ts)
    case Failed => Failed
    case Ok(left, rest) => OrTail(rest, [left])
  }

  /** Clauses joined by OR, or by nothing. */
  function OrTail(ts: seq<Token>, parts: seq<Query>): (r: Parsed)
    requires parts != []
    ensures r.Ok? ==> |r.rest| <= |ts|
    decreases |ts|, 4
  {
    if Peek(ts) == Or || StartsClause(Peek(ts)) then
      match ReadAnd(if Peek(ts) == Or then ts[1..] else ts)
      case Failed => Failed
      case Ok(right, rest) => OrTail(rest, parts + [right])
    else Ok(if |parts| == 1 then parts[0] else Either(parts), ts)
  }

  function ReadAnd(ts: seq<Token>): (r: Parsed)
    ensures r.Ok? ==> |r.rest| < |ts|
    decreases |ts|, 3
  {
    match ReadNot(ts)
    case Failed => Failed
    case Ok(left, rest) => AndTail(rest, [left])
  }

  function AndTail(ts: seq<Token>, parts: seq<Query>): (r: Parsed)
    requires parts != []
    ensures r.Ok? ==> |r.rest| <= |ts|
    decreases |ts|, 2
  {
    if Peek(ts) == And then
      match ReadNot(ts[1..])
      case Failed => Failed
      case Ok(right, rest) => AndTail(rest, parts + [right])
    else Ok(if |parts| == 1 then parts[0] else Both(parts), ts)
  }

  function ReadNot(ts: seq<Token>): (r: Parsed)
    ensures r.Ok? ==> |r.rest| < |ts|
    decreases |ts|, 1
  {
    if Peek(ts) == Not then
      match ReadNot(ts[1..])
      case Failed => Failed
      case Ok(inner, rest) => Ok(Excluding(inner), rest)
    else ReadPrimary(ts)
  }

  function ReadPrimary(ts: seq<Token>): (r: Parsed)
    ensures r.Ok? ==> |r.rest| < |ts|
    decreases |ts|, 0
  {
    match Peek(ts)
    case LParen =>
      (match ReadOr(ts[1..])
       case Failed => Failed
       case Ok(q, rest) => if Peek(rest) == RParen then Ok(q, rest[1..]) else Failed)
    case Quoted(text) => Ok(Phrase(text), ts[1..])
    case Word(w) =>
      if w == "*:*" then Ok(MatchAll, ts[1..])
      else if EndsInColon(w) && Peek(ts[1..]).Quoted? then Ok(FieldPhrase(w[..|w| - 1], ts[1].text), ts[2..])
      else Ok(WordQuery(w), ts[1..])
    case _ => Failed
  }

  /** The whole input; None if it is no query. */
  function ParseTokens(ts: seq<Token>): Parsed {
    match ReadOr(ts)
    case Failed => Failed
    case Ok(q, rest) => if Peek(rest) == End then Ok(q, rest) else Failed
  }

  /******* The parser *******/

  class Parser {
    const tokens: seq<Token>
    var pos: nat

    constructor (tokens: seq<Token>)
      ensures this.tokens == tokens && pos == 0
    {
      this.tokens, pos := tokens, 0;
    }

    function Here(): (ts: seq<Token>)
      reads this
    {
      if pos <= |tokens| then tokens[pos..] else []
    }

    function PeekHere(): (t: Token)
      reads this
      ensures t == Peek(Here())
    {
      if pos >= |tokens| then End else tokens[pos]
    }

    method Advance() returns (t: Token)
      modifies this`pos
      ensures t == old(PeekHere())
      ensures Here() == if old(Here()) == [] then [] else old(Here())[1..]
    {
      t := PeekHere();
      if pos < |tokens| { pos := pos + 1; }
    }

    method Match(t: Token) returns (found: bool)
      requires t != End
      modifies this`pos
      ensures found == (Peek(old(Here())) == t)
      ensures found ==> old(Here()) != [] && Here() == old(Here())[1..]
      ensures !found ==> Here() == old(Here())
    {
      found := PeekHere() == t;
      if found { var _ := Advance(); }
    }

    method ParseOr() returns (ok: bool, q: Query)
      modifies this`pos
      ensures var r := ReadOr(old(Here()));
              ok == r.Ok? && (ok ==> q == r.q && Here() == r.rest)
      decreases |Here()|, 5
    {
      ghost var goal := ReadOr(Here());
      ok, q := ParseAnd();
      if !ok { return; }
      var disjuncts := [q];
      while true
        invariant disjuncts != [] && goal == OrTail(Here(), disjuncts) && |Here()| < |old(Here())|
        decreases |Here()|
      {
        var explicit := Match(Or);
        if !explicit && !StartsClause(PeekHere()) { break; }
        ok, q := ParseAnd();
        if !ok { return; }
        disjuncts := disjuncts + [q];
      }
      q := if |disjuncts| == 1 then disjuncts[0] else Either(disjuncts);
    }

    method ParseAnd() returns (ok: bool, q: Query)
      modifies this`pos
      ensures var r := ReadAnd(old(Here()));
              ok == r.Ok? && (ok ==> q == r.q && Here() == r.rest)
      decreases |Here()|, 3
    {
      ghost var goal := ReadAnd(Here());
      ok, q := ParseNot();
      if !ok { return; }
      var conjuncts := [q];
      while true
        invariant conjuncts != [] && goal == AndTail(Here(), conjuncts) && |Here()| < |old(Here())|
        decreases |Here()|
      {
        var more := Match(And);
        if !more { break; }
        ok, q := ParseNot();
        if !ok { return; }
        conjuncts := conjuncts + [q];
      }
      q := if |conjuncts| == 1 then conjuncts[0] else Both(conjuncts);
    }

    method ParseNot() returns (ok: bool, q: Query)
      modifies this`pos
      ensures var r := ReadNot(old(Here()));
              ok == r.Ok? && (ok ==> q == r.q && Here() == r.rest)
      decreases |Here()|, 1
    {
      var negated := Match(Not);
      if negated {
        ok, q := ParseNot();
        if ok { q := Excluding(q); }
        return;
      }
      ok, q := ParsePrimary();
    }

    method ParsePrimary() returns (ok: bool, q: Query)
      modifies this`pos
      ensures var r := ReadPrimary(old(Here()));
              ok == r.Ok? && (ok ==> q == r.q && Here() == r.rest)
      decreases |Here()|, 0
    {
      var open := Match(LParen);
      if open {
        ok, q := ParseOr();
        if ok { ok := Match(RParen); }
        return;
      }
      if PeekHere().Quoted? {
        var t := Advance();
        return true, Phrase(t.text);
      }
      if PeekHere().Word? {
        var t := Advance();
        if t.text == "*:*" { return true, MatchAll; }
        if EndsInColon(t.text) && PeekHere().Quoted? {
          var phrase := Advance();
          return true, FieldPhrase(t.text[..|t.text| - 1], phrase.text);
        }
        return true, WordQuery(t.text);
      }
      ok, q := false, MatchAll;
    }
  }

  /******* Printing *******/

  /** A query the parser can produce: two parts or more in every conjunction and
      disjunction, and leaves whose word says what they are. */
  predicate WellMade(q: Query)
    decreases q
  {
    match q
    case MatchAll => true
    case Phrase(_) => true
    case FieldPhrase(f, _) => f + ":" != "*:*"
    case Term(w) => w != "*:*" && (':' !in w || w[0] == ':' || ':' !in w[..|w| - 1])
    case FieldTerm(f, v) => f != "" && v != "" && ':' !in f && f + ":" + v != "*:*"
    case Excluding(inner) => WellMade(inner)
    case Both(parts) => |parts| >= 2 && forall i :: 0 <= i < |parts| ==> WellMade(parts[i])
    case Either(parts) => |parts| >= 2 && forall i :: 0 <= i < |parts| ==> WellMade(parts[i])
  }

  /** A word with a colon inside is a field and a value, split at the first one; the
      colon at its start or end is part of a term. */
  lemma WordIs(q: Query)
    requires WellMade(q)
    ensures q.Term? ==> WordQuery(q.text) == q
    ensures q.FieldTerm? ==> WordQuery(q.field + ":" + q.value) == q
  {
    if q.Term? && |q.text| > 0 { assert forall k :: 0 <= k < |q.text| - 1 ==> q.text[k] == q.text[..|q.text| - 1][k]; }
    if q.FieldTerm? {
      var w := q.field + ":" + q.value;
      ColonIs(q.field, q.value);
      assert w[..|q.field|] == q.field && w[|q.field| + 1..] == q.value;
    }
  }

  lemma {:induction false} ColonIs(f: string, v: string)
    requires ':' !in f
    ensures Colon(f + ":" + v) == |f|
  {
    if f != "" {
      assert (f + ":" + v)[1..] == f[1..] + ":" + v;
      ColonIs(f[1..], v);
    }
  }

  function LeafTokens(q: Query): seq<Token>
    requires !q.Excluding? && !q.Both? && !q.Either?
  {
    match q
    case MatchAll => [Word("*:*")]
    case Phrase(text) => [Quoted(text)]
    case FieldPhrase(f, text) => [Word(f + ":"), Quoted(text)]
    case Term(w) => [Word(w)]
    case FieldTerm(f, v) => [Word(f + ":" + v)]
  }

  /** A word ending in a colon takes a phrase that comes right after it. */
  predicate Clash(left: seq<Token>, right: seq<Token>) {
    left != [] && left[|left| - 1].Word? && EndsInColon(left[|left| - 1].text) && Peek(right).Quoted?
  }

  /** Whether two neighbours in a disjunction are joined by nothing instead of OR. */
  type Style = (Query, nat) -> bool

  function Separator(adjacent: bool, left: seq<Token>, right: seq<Token>): seq<Token> {
    if adjacent && !Clash(left, right) then [] else [Or]
  }

  /** All but the first part, each with what joins it to the one before. */
  function JoinedFrom(parts: seq<seq<Token>>, i: nat, style: nat -> bool): seq<Token>
    requires 1 <= i <= |parts|
    decreases |parts| - i
  {
    if i == |parts| then []
    else Separator(style(i), parts[i - 1], parts[i]) + parts[i] + JoinedFrom(parts, i + 1, style)
  }

  function AndedFrom(parts: seq<seq<Token>>, i: nat): seq<Token>
    requires 1 <= i <= |parts|
    decreases |parts| - i
  {
    if i == |parts| then [] else [And] + parts[i] + AndedFrom(parts, i + 1)
  }

  function Enclosed(ts: seq<Token>): seq<Token> {
    [LParen] + ts + [RParen]
  }

  /** The tokens of a query where a disjunction (0), a conjunction (1) or only a
      negation (2) may stand bare. */
  function Print(style: Style, level: nat, q: Query): seq<Token>
    requires WellMade(q)
    decreases q
  {
    match q
    case Excluding(inner) => [Not] + Print(style, 2, inner)
    case Both(parts) =>
      var printed := seq(|parts|, i requires 0 <= i < |parts| => Print(style, 2, parts[i]));
      var body := printed[0] + AndedFrom(printed, 1);
      if level <= 1 then body else Enclosed(body)
    case Either(parts) =>
      var printed := seq(|parts|, i requires 0 <= i < |parts| => Print(style, 1, parts[i]));
      var body := printed[0] + JoinedFrom(printed, 1, (i: nat) => style(q, i));
      if level == 0 then body else Enclosed(body)
    case _ => LeafTokens(q)
  }

  /******* Reading back *******/

  /** The rest does not change the meaning of what was printed. */
  predicate Ends(level: nat, printed: seq<Token>, rest: seq<Token>) {
    && !Clash(printed, rest)
    && (level <= 1 ==> Peek(rest) != And)
    && (level == 0 ==> Peek(rest) != Or && !StartsClause(Peek(rest)))
  }

  function Read(level: nat, ts: seq<Token>): Parsed {
    if level == 0 then ReadOr(ts) else if level == 1 then ReadAnd(ts) else ReadNot(ts)
  }

  ghost predicate ReadsBack(style: Style, level: nat, q: Query, rest: seq<Token>)
    requires WellMade(q)
  {
    Ends(level, Print(style, level, q), rest) ==> Read(level, Print(style, level, q) + rest) == Ok(q, rest)
  }

  /** From one level to the looser one: a single part. */
  lemma Loosen(style: Style, level: nat, q: Query, rest: seq<Token>)
    requires WellMade(q) && level <= 1
    requires Print(style, level, q) == Print(style, level + 1, q) && ReadsBack(style, level + 1, q, rest)
    ensures ReadsBack(style, level, q, rest)
  {
    if Ends(level, Print(style, level, q), rest) {
      assert Ends(level + 1, Print(style, level + 1, q), rest);
      if level == 1 {
        assert AndTail(rest, [q]) == Ok(q, rest);
      } else {
        assert OrTail(rest, [q]) == Ok(q, rest);
      }
    }
  }

  lemma LeafReads(q: Query, rest: seq<Token>)
    requires WellMade(q) && !q.Excluding? && !q.Both? && !q.Either?
    requires !Clash(LeafTokens(q), rest)
    ensures ReadNot(LeafTokens(q) + rest) == Ok(q, rest)
  {
    match q
    case FieldPhrase(f, text) => FieldPhraseReads(f, text, rest);
    case Phrase(text) => assert ([Quoted(text)] + rest)[1..] == rest;
    case MatchAll => assert ([Word("*:*")] + rest)[1..] == rest;
    case Term(w) =>
      WordIs(q);
      WordAlone(w, rest);
    case FieldTerm(f, v) =>
      WordIs(q);
      WordAlone(f + ":" + v, rest);
  }

  lemma WordAlone(w: string, rest: seq<Token>)
    requires w != "*:*" && !(EndsInColon(w) && Peek(rest).Quoted?)
    ensures ReadNot([Word(w)] + rest) == Ok(WordQuery(w), rest)
  {
    assert ([Word(w)] + rest)[1..] == rest;
  }

  lemma FieldPhraseReads(f: string, text: string, rest: seq<Token>)
    requires f + ":" != "*:*"
    ensures ReadNot([Word(f + ":"), Quoted(text)] + rest) == Ok(FieldPhrase(f, text), rest)
  {
    var w, ts := f + ":", [Word(f + ":"), Quoted(text)] + rest;
    assert EndsInColon(w) && w[..|w| - 1] == f;
    assert ts[1..][0] == Quoted(text) && ts[2..] == rest && ts[1..][1..] == rest;
  }

  function PrintAll(style: Style, level: nat, parts: seq<Query>): (printed: seq<seq<Token>>)
    requires forall i :: 0 <= i < |parts| ==> WellMade(parts[i])
    ensures |printed| == |parts| && forall i :: 0 <= i < |parts| ==> printed[i] == Print(style, level, parts[i])
  {
    seq(|parts|, i requires 0 <= i < |parts| => Print(style, level, parts[i]))
  }

  lemma {:induction false} PrintStarts(style: Style, level: nat, q: Query)
    requires WellMade(q)
    ensures Print(style, level, q) != [] && StartsClause(Print(style, level, q)[0])
    decreases q
  {
    match q
    case Both(parts) => PrintStarts(style, 2, parts[0]);
    case Either(parts) => PrintStarts(style, 1, parts[0]);
    case _ =>
  }

  /** Only the last token matters for a clash. */
  lemma ClashEnd(before: seq<Token>, ts: seq<Token>, rest: seq<Token>)
    requires ts != []
    ensures Clash(before + ts, rest) <==> Clash(ts, rest)
  {
  }

  lemma ExcludingReads(style: Style, q: Query, rest: seq<Token>)
    requires WellMade(q) && q.Excluding? && ReadsBack(style, 2, q.inner, rest)
    ensures ReadsBack(style, 2, q, rest)
  {
    var printed := Print(style, 2, q.inner);
    PrintStarts(style, 2, q.inner);
    ClashEnd([Not], printed, rest);
    assert ([Not] + printed + rest)[1..] == printed + rest;
  }

  /** Brackets make a loose query a tight one. */
  lemma EnclosedReads(style: Style, level: nat, q: Query, rest: seq<Token>)
    requires WellMade(q) && Print(style, level, q) == Enclosed(Print(style, 0, q)) && 1 <= level <= 2
    requires ReadsBack(style, 0, q, [RParen] + rest)
    ensures ReadNot(Print(style, level, q) + rest) == Ok(q, rest)
  {
    var body := Print(style, 0, q);
    var after := [RParen] + rest;
    assert Ends(0, body, after);
    EnclosedStep(Enclosed(body) + rest, body, after, q, rest);
  }

  lemma EnclosedStep(ts: seq<Token>, body: seq<Token>, after: seq<Token>, q: Query, rest: seq<Token>)
    requires ts == Enclosed(body) + rest && after == [RParen] + rest && ReadOr(body + after) == Ok(q, after)
    ensures ReadNot(ts) == Ok(q, rest)
  {
    assert ts[0] == LParen && ts[1..] == body + after;
    assert after[1..] == rest;
  }

  /******* Conjunctions *******/

  lemma {:induction false} AndedEnds(printed: seq<seq<Token>>, i: nat, rest: seq<Token>)
    requires 1 <= i <= |printed| && (forall k :: 0 <= k < |printed| ==> printed[k] != [])
    ensures !Clash(printed[i - 1] + AndedFrom(printed, i), rest) ==>
              !Clash(printed[i - 1], AndedFrom(printed, i) + rest)
              && (i < |printed| ==> !Clash(printed[i] + AndedFrom(printed, i + 1), rest))
  {
    if i == |printed| {
      assert printed[i - 1] + [] == printed[i - 1] && [] + rest == rest;
    } else {
      var tail := printed[i] + AndedFrom(printed, i + 1);
      assert printed[i - 1] + AndedFrom(printed, i) == (printed[i - 1] + [And]) + tail;
      ClashEnd(printed[i - 1] + [And], tail, rest);
    }
  }

  ghost predicate PartReads(level: nat, part: seq<Token>, q: Query, more: seq<Token>) {
    Ends(level, part, more) ==> Read(level, part + more) == Ok(q, more)
  }

  /** Each printed part, whatever follows it, reads back as its query. */
  ghost predicate PartsRead(level: nat, printed: seq<seq<Token>>, parts: seq<Query>) {
    && |printed| == |parts|
    && (forall k :: 0 <= k < |printed| ==> printed[k] != [])
    && forall k, more {:trigger PartReads(level, printed[k], parts[k], more)} ::
         0 <= k < |parts| ==> PartReads(level, printed[k], parts[k], more)
  }

  /** The conjuncts from i on are read one after another. */
  lemma {:induction false} AndTailReads(parts: seq<Query>, printed: seq<seq<Token>>, i: nat, rest: seq<Token>)
    requires PartsRead(2, printed, parts) && |parts| >= 2 && 1 <= i <= |parts|
    requires !Clash(printed[i - 1] + AndedFrom(printed, i), rest) && Peek(rest) != And
    ensures AndTail(AndedFrom(printed, i) + rest, parts[..i]) == Ok(Both(parts), rest)
    decreases |parts| - i
  {
    if i == |parts| {
      assert [] + rest == rest && parts[..i] == parts;
    } else {
      AndedEnds(printed, i, rest);
      AndedEnds(printed, i + 1, rest);
      var more := AndedFrom(printed, i + 1) + rest;
      assert PartReads(2, printed[i], parts[i], more);
      AndStep(AndedFrom(printed, i) + rest, printed[i], more, parts[..i], parts[i]);
      assert parts[..i] + [parts[i]] == parts[..i + 1];
      AndTailReads(parts, printed, i + 1, rest);
    }
  }

  lemma AndStep(ts: seq<Token>, part: seq<Token>, more: seq<Token>, before: seq<Query>, q: Query)
    requires ts == [And] + part + more && ReadNot(part + more) == Ok(q, more) && before != []
    ensures AndTail(ts, before) == AndTail(more, before + [q])
  {
    assert ts[1..] == part + more;
  }

  lemma BodyAnded(parts: seq<Query>, printed: seq<seq<Token>>, rest: seq<Token>)
    requires PartsRead(2, printed, parts) && |parts| >= 2
    requires Ends(1, printed[0] + AndedFrom(printed, 1), rest)
    ensures ReadAnd(printed[0] + AndedFrom(printed, 1) + rest) == Ok(Both(parts), rest)
  {
    AndedEnds(printed, 1, rest);
    var more := AndedFrom(printed, 1) + rest;
    assert printed[0] + AndedFrom(printed, 1) + rest == printed[0] + more;
    assert PartReads(2, printed[0], parts[0], more);
    assert parts[..1] == [parts[0]];
    AndTailReads(parts, printed, 1, rest);
  }

  lemma PrintedReads(style: Style, level: nat, parts: seq<Query>)
    requires forall k :: 0 <= k < |parts| ==> WellMade(parts[k])
    requires forall k, more :: 0 <= k < |parts| ==> ReadsBack(style, level, parts[k], more)
    ensures PartsRead(level, PrintAll(style, level, parts), parts)
  {
    var printed := PrintAll(style, level, parts);
    forall k | 0 <= k < |parts| ensures printed[k] != [] { PrintStarts(style, level, parts[k]); }
    forall k, more | 0 <= k < |parts| ensures PartReads(level, printed[k], parts[k], more) {
      assert ReadsBack(style, level, parts[k], more);
    }
  }

  lemma BothReads(style: Style, q: Query, rest: seq<Token>)
    requires WellMade(q) && q.Both?
    requires forall k, more :: 0 <= k < |q.parts| ==> ReadsBack(style, 2, q.parts[k], more)
    ensures ReadsBack(style, 1, q, rest)
  {
    var parts, printed := q.parts, PrintAll(style, 2, q.parts);
    assert printed == seq(|parts|, i requires 0 <= i < |parts| => Print(style, 2, parts[i]));
    PrintedReads(style, 2, parts);
    if Ends(1, Print(style, 1, q), rest) { BodyAnded(parts, printed, rest); }
  }

  /******* Disjunctions *******/

  lemma {:induction false} JoinedEnds(printed: seq<seq<Token>>, i: nat, style: nat -> bool, rest: seq<Token>)
    requires 1 <= i <= |printed| && (forall k :: 0 <= k < |printed| ==> printed[k] != [] && StartsClause(printed[k][0]))
    requires Peek(rest) != And
    ensures Peek(JoinedFrom(printed, i, style) + rest) != And
    ensures !Clash(printed[i - 1] + JoinedFrom(printed, i, style), rest) ==>
              !Clash(printed[i - 1], JoinedFrom(printed, i, style) + rest)
              && (i < |printed| ==> !Clash(printed[i] + JoinedFrom(printed, i + 1, style), rest))
  {
    if i == |printed| {
      assert printed[i - 1] + [] == printed[i - 1] && [] + rest == rest;
    } else {
      var sep := Separator(style(i), printed[i - 1], printed[i]);
      var tail := printed[i] + JoinedFrom(printed, i + 1, style);
      assert JoinedFrom(printed, i, style) == sep + tail;
      assert printed[i - 1] + JoinedFrom(printed, i, style) == (printed[i - 1] + sep) + tail;
      ClashEnd(printed[i - 1] + sep, tail, rest);
    }
  }

  /** A disjunct is read with or without the OR before it. */
  lemma OrStep(ts: seq<Token>, sep: seq<Token>, part: seq<Token>, more: seq<Token>, before: seq<Query>, q: Query)
    requires ts == sep + (part + more) && (sep == [] || sep == [Or]) && before != []
    requires part != [] && StartsClause(part[0]) && ReadAnd(part + more) == Ok(q, more)
    ensures OrTail(ts, before) == OrTail(more, before + [q])
  {
    if sep == [] {
      assert ts == part + more;
      assert Peek(ts) == part[0] != Or;
    } else {
      assert ts[1..] == part + more;
    }
  }

  lemma JoinedStep(sep: seq<Token>, part: seq<Token>, tail: seq<Token>, rest: seq<Token>)
    ensures sep + part + tail + rest == sep + (part + (tail + rest))
  {
  }

  lemma {:induction false} OrTailReads(parts: seq<Query>, printed: seq<seq<Token>>, i: nat, style: nat -> bool, rest: seq<Token>)
    requires PartsRead(1, printed, parts) && |parts| >= 2 && 1 <= i <= |parts|
    requires forall k :: 0 <= k < |printed| ==> StartsClause(printed[k][0])
    requires Ends(0, printed[i - 1] + JoinedFrom(printed, i, style), rest)
    ensures OrTail(JoinedFrom(printed, i, style) + rest, parts[..i]) == Ok(Either(parts), rest)
    decreases |parts| - i
  {
    if i == |parts| {
      assert [] + rest == rest && parts[..i] == parts;
    } else {
      JoinedEnds(printed, i, style, rest);
      OrTailNext(parts, printed, i, style, rest);
      OrTailReads(parts, printed, i + 1, style, rest);
    }
  }

  lemma OrTailNext(parts: seq<Query>, printed: seq<seq<Token>>, i: nat, style: nat -> bool, rest: seq<Token>)
    requires PartsRead(1, printed, parts) && 1 <= i < |parts|
    requires forall k :: 0 <= k < |printed| ==> StartsClause(printed[k][0])
    requires Ends(0, printed[i] + JoinedFrom(printed, i + 1, style), rest)
    ensures OrTail(JoinedFrom(printed, i, style) + rest, parts[..i])
         == OrTail(JoinedFrom(printed, i + 1, style) + rest, parts[..i + 1])
  {
    JoinedEnds(printed, i + 1, style, rest);
    var more := JoinedFrom(printed, i + 1, style) + rest;
    var sep := Separator(style(i), printed[i - 1], printed[i]);
    assert PartReads(1, printed[i], parts[i], more);
    JoinedStep(sep, printed[i], JoinedFrom(printed, i + 1, style), rest);
    OrStep(JoinedFrom(printed, i, style) + rest, sep, printed[i], more, parts[..i], parts[i]);
    assert parts[..i] + [parts[i]] == parts[..i + 1];
  }

  lemma BodyJoined(parts: seq<Query>, printed: seq<seq<Token>>, style: nat -> bool, rest: seq<Token>)
    requires PartsRead(1, printed, parts) && |parts| >= 2
    requires forall k :: 0 <= k < |printed| ==> StartsClause(printed[k][0])
    requires Ends(0, printed[0] + JoinedFrom(printed, 1, style), rest)
    ensures ReadOr(printed[0] + JoinedFrom(printed, 1, style) + rest) == Ok(Either(parts), rest)
  {
    JoinedEnds(printed, 1, style, rest);
    var more := JoinedFrom(printed, 1, style) + rest;
    assert printed[0] + JoinedFrom(printed, 1, style) + rest == printed[0] + more;
    assert PartReads(1, printed[0], parts[0], more);
    assert parts[..1] == [parts[0]];
    OrTailReads(parts, printed, 1, style, rest);
  }

  lemma EitherReads(style: Style, q: Query, rest: seq<Token>)
    requires WellMade(q) && q.Either?
    requires forall k, more :: 0 <= k < |q.parts| ==> ReadsBack(style, 1, q.parts[k], more)
    ensures ReadsBack(style, 0, q, rest)
  {
    var parts, printed := q.parts, PrintAll(style, 1, q.parts);
    assert printed == seq(|parts|, i requires 0 <= i < |parts| => Print(style, 1, parts[i]));
    PrintedReads(style, 1, parts);
    forall k | 0 <= k < |parts| ensures StartsClause(printed[k][0]) { PrintStarts(style, 1, parts[k]); }
    if Ends(0, Print(style, 0, q), rest) { BodyJoined(parts, printed, (i: nat) => style(q, i), rest); }
  }

  /******* The round trip *******/

  lemma TightReads(style: Style, level: nat, q: Query, rest: seq<Token>)
    requires WellMade(q) && 1 <= level <= 2 && Print(style, level, q) == Enclosed(Print(style, 0, q))
    requires ReadsBack(style, 0, q, [RParen] + rest)
    ensures ReadsBack(style, level, q, rest)
  {
    if Ends(level, Print(style, level, q), rest) {
      EnclosedReads(style, level, q, rest);
      if level == 1 { assert AndTail(rest, [q]) == Ok(q, rest); }
    }
  }

  lemma {:induction false} PrintReads(style: Style, level: nat, q: Query, rest: seq<Token>)
    requires WellMade(q) && level <= 2
    ensures ReadsBack(style, level, q, rest)
    decreases q, 2 - level
  {
    match q
    case Both(parts) =>
      forall k, more | 0 <= k < |parts| ensures ReadsBack(style, 2, parts[k], more) { PrintReads(style, 2, parts[k], more); }
      if level == 2 {
        BothReads(style, q, [RParen] + rest);
        Loosen(style, 0, q, [RParen] + rest);
        TightReads(style, 2, q, rest);
      } else {
        BothReads(style, q, rest);
        if level == 0 { Loosen(style, 0, q, rest); }
      }
    case Either(parts) =>
      forall k, more | 0 <= k < |parts| ensures ReadsBack(style, 1, parts[k], more) { PrintReads(style, 1, parts[k], more); }
      if level == 0 {
        EitherReads(style, q, rest);
      } else {
        EitherReads(style, q, [RParen] + rest);
        TightReads(style, level, q, rest);
      }
    case Excluding(inner) =>
      PrintReads(style, 2, inner, rest);
      ExcludingReads(style, q, rest);
      Loosened(style, level, q, rest);
    case _ =>
      if Ends(2, LeafTokens(q), rest) { LeafReads(q, rest); }
      Loosened(style, level, q, rest);
  }

  lemma Loosened(style: Style, level: nat, q: Query, rest: seq<Token>)
    requires WellMade(q) && level <= 2 && !q.Both? && !q.Either? && ReadsBack(style, 2, q, rest)
    ensures ReadsBack(style, level, q, rest)
  {
    if level <= 1 { Loosen(style, 1, q, rest); }
    if level == 0 { Loosen(style, 0, q, rest); }
  }

  /** Printing a query, with brackets where they are needed and OR or nothing between
      disjuncts as one likes, and parsing it gives the query back. */
  lemma ParsesBack(style: Style, q: Query)
    requires WellMade(q)
    ensures ParseTokens(Print(style, 0, q) + [End]) == Ok(q, [End])
  {
    PrintReads(style, 0, q, [End]);
  }

  /** A phrase right after a word that ends in a colon is that field's; here with
      nothing else around it. */
  lemma ColonTakesPhrase(w: string, text: string)
    requires EndsInColon(w) && w != "*:*"
    ensures ParseTokens([Word(w), Quoted(text), End]) == Ok(FieldPhrase(w[..|w| - 1], text), [End])
  {
    var f := w[..|w| - 1];
    assert w == f + ":";
    ParsesBack((q, i) => false, FieldPhrase(f, text));
    assert [Word(w), Quoted(text)] + [End] == [Word(w), Quoted(text), End];
  }

  /** With an OR between the two they are two queries. */
  lemma OrKeepsPhrase(w: string, text: string)
    requires EndsInColon(w) && w != "*:*"
    ensures ParseTokens([Word(w), Or, Quoted(text), End]) == Ok(Either([WordQuery(w), Phrase(text)]), [End])
  {
    var style: Style := (q, i) => false;
    var q := Either([WordQuery(w), Phrase(text)]);
    WordReads(w);
    var printed := PrintAll(style, 1, q.parts);
    assert printed == seq(2, i requires 0 <= i < 2 => Print(style, 1, q.parts[i]));
    assert printed == [[Word(w)], [Quoted(text)]];
    forall joins: nat -> bool ensures JoinedFrom(printed, 1, joins) == [Or, Quoted(text)] {
      assert JoinedFrom(printed, 2, joins) == [];
    }
    assert Print(style, 0, q) == [Word(w)] + [Or, Quoted(text)];
    ParsesBack(style, q);
    assert [Word(w)] + [Or, Quoted(text)] + [End] == [Word(w), Or, Quoted(text), End];
  }

  /** A word is printed for its query as it was read. */
  lemma WordReads(w: string)
    requires w != "*:*"
    ensures WellMade(WordQuery(w)) && LeafTokens(WordQuery(w)) == [Word(w)]
  {
    var i := Colon(w);
    if 0 < i < |w| - 1 { assert w == w[..i] + ":" + w[i + 1..]; }
  }

  /******* The tokenizer *******/

  /** Which characters count as white space. */
  type Spaces = char -> bool

  predicate Delimits(space: Spaces, c: char) {
    space(c) || c == '(' || c == ')' || c == '"'
  }

  /** How long a word goes on. */
  function WordLength(space: Spaces, s: string): (n: nat)
    ensures n <= |s|
  {
    if s == "" || Delimits(space, s[0]) then 0 else 1 + WordLength(space, s[1..])
  }

  /** How long a phrase goes on: up to a quote that no backslash escapes. */
  function PhraseLength(s: string): (n: nat)
    ensures n <= |s|
  {
    if s == "" || s[0] == '"' then 0
    else if s[0] == '\\' && |s| > 1 then 2 + PhraseLength(s[2..])
    else 1 + PhraseLength(s[1..])
  }

  function WordToken(w: string): Token {
    if w == "AND" then And else if w == "OR" then Or else if w == "NOT" then Not else Word(w)
  }

  function Tokens(space: Spaces, s: string): seq<Token>
    decreases |s|
  {
    if s == "" then [End]
    else if space(s[0]) then Tokens(space, s[1..])
    else if s[0] == '(' then [LParen] + Tokens(space, s[1..])
    else if s[0] == ')' then [RParen] + Tokens(space, s[1..])
    else if s[0] == '"' then
      var n := 1 + PhraseLength(s[1..]);
      [Quoted(s[1..n])] + Tokens(space, if n < |s| then s[n + 1..] else "")
    else
      var n := WordLength(space, s);
      [WordToken(s[..n])] + Tokens(space, s[n..])
  }

  /** The scanning loop. */
  method Tokenize(space: Spaces, input: string) returns (tokens: seq<Token>)
    ensures tokens == Tokens(space, input)
  {
    tokens := [];
    var i := 0;
    while i < |input|
      invariant 0 <= i <= |input|
      invariant Tokens(space, input) == tokens + Tokens(space, input[i..])
    {
      var c, token := input[i], End;
      ghost var s := input[i..];
      assert s[1..] == input[i + 1..];
      if space(c) {
        i := i + 1;
      } else {
        i, token := NextToken(space, input, i);
        tokens := tokens + [token];
      }
    }
    tokens := tokens + [End];
  }

  method NextToken(space: Spaces, input: string, start: nat) returns (i: nat, token: Token)
    requires start < |input| && !space(input[start])
    ensures start < i <= |input| && Tokens(space, input[start..]) == [token] + Tokens(space, input[i..])
  {
    ghost var s := input[start..];
    assert s[0] == input[start] && s[1..] == input[start + 1..];
    if input[start] == '(' { return start + 1, LParen; }
    if input[start] == ')' { return start + 1, RParen; }
    if input[start] == '"' {
      i, token := QuotedToken(space, input, start);
    } else {
      i := EndOfWord(space, input, start);
      SliceOfTail(input, start, 0, i - start);
      token := WordToken(input[start..i]);
    }
  }

  method QuotedToken(space: Spaces, input: string, start: nat) returns (i: nat, token: Token)
    requires start < |input| && input[start] == '"' && !space('"')
    ensures start < i <= |input| && Tokens(space, input[start..]) == [token] + Tokens(space, input[i..])
  {
    var end := EndOfPhrase(input, start + 1);
    token := Quoted(input[start + 1..end]);
    PhraseFirst(space, input, start, end, token);
    i := if end < |input| then end + 1 else end;
  }

  lemma PhraseFirst(space: Spaces, input: string, start: nat, i: nat, token: Token)
    requires start < |input| && input[start] == '"' && !space('"') && start < i <= |input|
    requires i - start - 1 == PhraseLength(input[start + 1..]) && token == Quoted(input[start + 1..i])
    ensures var rest := if i < |input| then i + 1 else i;
            Tokens(space, input[start..]) == [token] + Tokens(space, input[rest..])
  {
    var n := i - start;
    TailParts(input, start, n);
    SliceOfTail(input, start, 1, n);
    PhraseToken(space, input[start..], n, input[if i < |input| then i + 1 else i..]);
  }

  lemma TailParts(input: string, start: nat, n: nat)
    requires 0 < n && start + n <= |input|
    ensures input[start..][1..] == input[start + 1..]
    ensures input[if start + n < |input| then start + n + 1 else start + n..]
         == if n < |input[start..]| then input[start..][n + 1..] else ""
  {
  }

  lemma PhraseToken(space: Spaces, s: string, n: nat, rest: string)
    requires s != "" && s[0] == '"' && !space('"') && n == 1 + PhraseLength(s[1..])
    requires rest == if n < |s| then s[n + 1..] else ""
    ensures Tokens(space, s) == [Quoted(s[1..n])] + Tokens(space, rest)
  {
  }

  method EndOfWord(space: Spaces, input: string, start: nat) returns (i: nat)
    requires start < |input| && !Delimits(space, input[start])
    ensures start < i <= |input| && i - start == WordLength(space, input[start..])
    ensures input[start..][i - start..] == input[i..]
  {
    i := start;
    while i < |input| && !space(input[i]) && input[i] != '(' && input[i] != ')' && input[i] != '"'
      invariant start <= i <= |input|
      invariant WordLength(space, input[start..]) == i - start + WordLength(space, input[i..])
      invariant i == start ==> !Delimits(space, input[i])
    {
      assert input[i..][1..] == input[i + 1..];
      i := i + 1;
    }
  }

  lemma SliceOfTail(s: string, start: nat, a: nat, b: nat)
    requires start <= |s| && a <= b <= |s| - start
    ensures s[start..][a..b] == s[start + a..start + b]
  {
  }

  method EndOfPhrase(input: string, start: nat) returns (i: nat)
    requires start <= |input|
    ensures i == start + PhraseLength(input[start..])
  {
    i := start;
    while i < |input| && input[i] != '"'
      invariant start <= i <= |input|
      invariant start + PhraseLength(input[start..]) == i + PhraseLength(input[i..])
    {
      ghost var rest := input[i..];
      assert rest[1..] == input[i + 1..];
      if input[i] == '\\' && i + 1 < |input| {
        assert rest[2..] == input[i + 2..];
        i := i + 1;
      }
      i := i + 1;
    }
  }

  /******* Text and back *******/

  function Render(t: Token): string {
    match t
    case Word(w) => w
    case Quoted(p) => "\"" + p + "\""
    case And => "AND"
    case Or => "OR"
    case Not => "NOT"
    case LParen => "("
    case RParen => ")"
    case End => ""
  }

  /** The tokens with a blank between any two. */
  function Text(ts: seq<Token>): string {
    if ts == [] then "" else Render(ts[0]) + (if |ts| == 1 then "" else " " + Text(ts[1..]))
  }

  /** Backslashes in the phrase escape, and no quote ends it early. */
  predicate Closed(p: string) {
    p == "" || (p[0] != '"' && if p[0] == '\\' then |p| > 1 && Closed(p[2..]) else Closed(p[1..]))
  }

  predicate Plain(space: Spaces, w: string) {
    w != "" && forall i :: 0 <= i < |w| ==> !Delimits(space, w[i])
  }

  predicate Printable(space: Spaces, t: Token) {
    match t
    case Word(w) => Plain(space, w) && w != "AND" && w != "OR" && w != "NOT"
    case Quoted(p) => Closed(p)
    case End => false
    case _ => true
  }

  predicate Sensible(space: Spaces) {
    space(' ') && Plain(space, "AND") && Plain(space, "OR") && Plain(space, "NOT")
    && !space('(') && !space(')') && !space('"')
  }

  /** What may follow a rendered token: nothing, a blank, a bracket or a quote. */
  predicate Follows(after: string) {
    after == "" || after[0] == ' ' || after[0] == '(' || after[0] == ')' || after[0] == '"'
  }

  lemma {:induction false} WordStops(space: Spaces, w: string, after: string)
    requires space(' ') && Follows(after) && forall i :: 0 <= i < |w| ==> !Delimits(space, w[i])
    ensures WordLength(space, w + after) == |w|
  {
    var s := w + after;
    if w == "" {
      assert s == after;
    } else {
      assert s[1..] == w[1..] + after;
      WordStops(space, w[1..], after);
    }
  }

  lemma {:induction false} PhraseStops(p: string, rest: string)
    requires Closed(p)
    ensures PhraseLength(p + "\"" + rest) == |p|
  {
    var s := p + "\"" + rest;
    if p == "" {
      assert s[0] == '"';
    } else if p[0] == '\\' {
      assert s[2..] == p[2..] + "\"" + rest;
      PhraseStops(p[2..], rest);
    } else {
      assert s[1..] == p[1..] + "\"" + rest;
      PhraseStops(p[1..], rest);
    }
  }

  lemma WordBack(space: Spaces, w: string, after: string)
    requires space(' ') && Plain(space, w) && Follows(after)
    ensures Tokens(space, w + after) == [WordToken(w)] + Tokens(space, after)
  {
    var s := w + after;
    WordStops(space, w, after);
    assert s[0] == w[0] && s[..|w|] == w && s[|w|..] == after;
  }

  lemma PhraseBack(space: Spaces, p: string, after: string)
    requires Sensible(space) && Closed(p)
    ensures Tokens(space, "\"" + p + "\"" + after) == [Quoted(p)] + Tokens(space, after)
  {
    var s := "\"" + p + "\"" + after;
    assert s[1..] == p + "\"" + after;
    PhraseStops(p, after);
    assert s[1..1 + |p|] == p && s[1 + |p| + 1..] == after;
  }

  lemma BracketBack(space: Spaces, bracket: char, after: string)
    requires Sensible(space) && (bracket == '(' || bracket == ')')
    ensures Tokens(space, [bracket] + after) == [if bracket == '(' then LParen else RParen] + Tokens(space, after)
  {
    assert ([bracket] + after)[1..] == after;
  }

  lemma TokenBack(space: Spaces, t: Token, after: string)
    requires Sensible(space) && Printable(space, t) && Follows(after)
    ensures Tokens(space, Render(t) + after) == [t] + Tokens(space, after)
  {
    match t
    case Word(w) => WordBack(space, w, after);
    case Quoted(p) => PhraseBack(space, p, after);
    case And => WordBack(space, "AND", after);
    case Or => WordBack(space, "OR", after);
    case Not => WordBack(space, "NOT", after);
    case LParen => BracketBack(space, '(', after);
    case RParen => BracketBack(space, ')', after);
  }

  /** Writing tokens as text and tokenizing it gives them back, whatever follows that
      ends a word. */
  lemma {:induction false} TextBack(space: Spaces, ts: seq<Token>, after: string)
    requires Sensible(space) && Follows(after) && forall t :: t in ts ==> Printable(space, t)
    ensures Tokens(space, Text(ts) + after) == ts + Tokens(space, after)
  {
    if ts == [] {
      NothingBefore(Text(ts), after);
      NothingBefore(ts, Tokens(space, after));
    } else if |ts| == 1 {
      TokenBack(space, ts[0], after);
      assert ts == [ts[0]];
      assert Text(ts) == Render(ts[0]);
    } else {
      var rest := Text(ts[1..]) + after;
      TextBack(space, ts[1..], after);
      TokenBack(space, ts[0], " " + rest);
      BlankSkipped(space, rest);
      TextCons(ts, after);
      ConsJoin(ts, Tokens(space, after));
    }
  }

  lemma NothingBefore<T>(a: seq<T>, b: seq<T>)
    requires a == []
    ensures a + b == b
  {
  }

  lemma ConsJoin<T>(a: seq<T>, b: seq<T>)
    requires a != []
    ensures [a[0]] + (a[1..] + b) == a + b
  {
  }

  lemma BlankSkipped(space: Spaces, rest: string)
    requires space(' ')
    ensures Tokens(space, " " + rest) == Tokens(space, rest)
  {
    assert (" " + rest)[1..] == rest;
  }

  lemma TextCons(ts: seq<Token>, after: string)
    requires |ts| > 1
    ensures Text(ts) + after == Render(ts[0]) + (" " + (Text(ts[1..]) + after))
  {
  }

  lemma TokensBack(space: Spaces, ts: seq<Token>)
    requires Sensible(space) && forall t :: t in ts ==> Printable(space, t)
    ensures Tokens(space, Text(ts)) == ts + [End]
  {
    TextBack(space, ts, "");
    assert Text(ts) + "" == Text(ts);
  }

  /** Brackets need no blanks around them. */
  lemma TightBrackets(space: Spaces, ts: seq<Token>, after: string)
    requires Sensible(space) && forall t :: t in ts ==> Printable(space, t)
    ensures Tokens(space, "(" + Text(ts) + ")" + after) == [LParen] + ts + [RParen] + Tokens(space, after)
  {
    TextBack(space, ts, ")" + after);
    BracketBack(space, ')', after);
    BracketBack(space, '(', Text(ts) + (")" + after));
    Join4("(", Text(ts), ")", after);
    Join4([LParen], ts, [RParen], Tokens(space, after));
  }

  lemma Join4<T>(a: seq<T>, b: seq<T>, c: seq<T>, d: seq<T>)
    ensures a + b + c + d == a + (b + (c + d))
  {
  }

  /** From a query to text and back. */
  lemma SearchesBack(space: Spaces, style: Style, q: Query)
    requires Sensible(space) && WellMade(q) && forall t :: t in Print(style, 0, q) ==> Printable(space, t)
    ensures ParseTokens(Tokens(space, Text(Print(style, 0, q)))) == Ok(q, [End])
  {
    TokensBack(space, Print(style, 0, q));
    ParsesBack(style, q);
  }

  /** Without the white space at both ends. */
  function Trimmed(space: Spaces, s: string): (t: string)
    ensures t == "" <==> forall i :: 0 <= i < |s| ==> space(s[i])
    ensures t != "" ==> !space(t[0]) && !space(t[|t| - 1])
  {
    if s == "" then ""
    else if space(s[0]) then
      assert forall i :: 0 < i < |s| ==> s[i] == s[1..][i - 1];
      Trimmed(space, s[1..])
    else if space(s[|s| - 1]) then
      assert forall i :: 0 <= i < |s| - 1 ==> s[i] == s[..|s| - 1][i];
      Trimmed(space, s[..|s| - 1])
    else s
  }

  /** Trimming takes white space from both ends and nothing else. */
  lemma {:induction false} TrimmedParts(space: Spaces, s: string) returns (i: nat, j: nat)
    ensures BlankAround(space, s, i, j) && Trimmed(space, s) == s[i..j]
    decreases |s|
  {
    i, j := 0, |s|;
    if s != "" && space(s[0]) {
      i, j := TrimmedParts(space, s[1..]);
      BlankBefore(space, s, i, j);
      i, j := i + 1, j + 1;
    } else if s != "" && space(s[|s| - 1]) {
      i, j := TrimmedParts(space, s[..|s| - 1]);
      BlankAfter(space, s, i, j);
    }
  }

  ghost predicate BlankAround(space: Spaces, s: string, i: nat, j: nat) {
    && i <= j <= |s|
    && (forall k :: 0 <= k < i ==> space(s[k])) && (forall k :: j <= k < |s| ==> space(s[k]))
  }

  lemma BlankBefore(space: Spaces, s: string, i: nat, j: nat)
    requires s != "" && space(s[0]) && BlankAround(space, s[1..], i, j)
    ensures BlankAround(space, s, i + 1, j + 1) && s[1..][i..j] == s[i + 1..j + 1]
  {
    assert forall k :: 0 < k < |s| ==> s[k] == s[1..][k - 1];
  }

  lemma BlankAfter(space: Spaces, s: string, i: nat, j: nat)
    requires s != "" && space(s[|s| - 1]) && BlankAround(space, s[..|s| - 1], i, j)
    ensures BlankAround(space, s, i, j) && s[..|s| - 1][i..j] == s[i..j]
  {
    assert forall k :: 0 <= k < |s| - 1 ==> s[k] == s[..|s| - 1][k];
  }

  /** The whole of the search string, trimmed first; a blank one matches everything. */
  method ParseSearch(space: Spaces, input: string) returns (ok: bool, q: Query)
    ensures Trimmed(space, input) == "" ==> ok && q == MatchAll
    ensures Trimmed(space, input) != "" ==>
              var r := ParseTokens(Tokens(space, Trimmed(space, input)));
              ok == r.Ok? && (ok ==> q == r.q)
  {
    var trimmed := TrimSpace(space, input);
    if trimmed == "" { return true, MatchAll; }
    var tokens := Tokenize(space, trimmed);
    var p := new Parser(tokens);
    assert tokens[0..] == tokens;
    ok, q := p.ParseOr();
    ok := ok && p.PeekHere() == End;
  }

  method TrimSpace(space: Spaces, input: string) returns (t: string)
    ensures t == Trimmed(space, input)
  {
    t := input;
    while t != "" && (space(t[0]) || space(t[|t| - 1]))
      invariant Trimmed(space, t) == Trimmed(space, input)
      decreases |t|
    {
      t := if space(t[0]) then t[1..] else t[..|t| - 1];
    }
  }

  lemma RenderedEnds(space: Spaces, t: Token)
    requires Sensible(space) && Printable(space, t)
    ensures var r := Render(t); r != "" && !space(r[0]) && !space(r[|r| - 1])
  {
  }

  lemma {:induction false} TextEnds(space: Spaces, ts: seq<Token>)
    requires Sensible(space) && ts != [] && forall t :: t in ts ==> Printable(space, t)
    ensures var s := Text(ts); s != "" && !space(s[0]) && !space(s[|s| - 1])
  {
    RenderedEnds(space, ts[0]);
    if |ts| > 1 {
      TextEnds(space, ts[1..]);
      assert Text(ts)[|Text(ts)| - 1] == Text(ts[1..])[|Text(ts[1..])| - 1];
    }
  }

  /** Searching for the text of a query is searching for the query. */
  lemma SearchFindsQuery(space: Spaces, style: Style, q: Query)
    requires Sensible(space) && WellMade(q) && forall t :: t in Print(style, 0, q) ==> Printable(space, t)
    ensures var text := Text(Print(style, 0, q));
            Trimmed(space, text) == text != "" && ParseTokens(Tokens(space, Trimmed(space, text))) == Ok(q, [End])
  {
    PrintStarts(style, 0, q);
    TextEnds(space, Print(style, 0, q));
    SearchesBack(space, style, q);
  }
}
