/** Mango selectors: what a query matches, and the equality conditions read off it. */
module Selectors {
  import opened ByteStrings
  import opened Documents

  /** A match can fail, which ends the query. */
  datatype Outcome = Yes | No | Failed

  datatype GroupOp = And | Or | Not | Nor | Unsupported

  datatype FieldOp = Lt | Lte | Eq | Ne | Gte | Gt | Exists | Type | In | Nin | Size | Mod | Regex | All | Undefined

  datatype Selector =
    | Group(op: GroupOp, members: seq<Selector>)
    | FieldIs(field: Bytes, test: FieldOp, value: Json)

  /** The outside regular expression matcher; None if the pattern does not compile. */
  type Matcher = (Bytes, Bytes) -> Option<bool>

  function Of(b: bool): Outcome {
    if b then Yes else No
  }

  predicate Less(a: Json, b: Json) {
    (a.Num? && b.Num? && a.n < b.n) || (a.Str? && b.Str? && Compare(a.s, b.s) == -1)
  }

  function ItemsOf(j: Json): seq<Json> {
    if j.Arr? then j.items else []
  }

  /** The length of an array; -1 for anything else. */
  function ArrayLength(j: Json): int {
    if j.Arr? then |j.items| else -1
  }

  /** Integer remainder with the dividend's sign. */
  function Remainder(a: int, b: int): int
    requires b != 0
  {
    if a >= 0 then a % b else -((-a) % b)
  }

  function IntegerOf(j: Json): int {
    if j.Num? then j.n else if j == Bool(true) then 1 else 0
  }

  function TypeName(j: Json): Bytes {
    match j
    case Null => [110, 117, 108, 108]
    case Bool(_) => [98, 111, 111, 108, 101, 97, 110]
    case Num(_) => [110, 117, 109, 98, 101, 114]
    case Str(_) => [115, 116, 114, 105, 110, 103]
    case Arr(_) => [97, 114, 114, 97, 121]
    case Obj(_) => [111, 98, 106, 101, 99, 116]
  }

  predicate Among(xs: seq<Json>, ys: seq<Json>) {
    forall x :: x in xs ==> x in ys
  }

  /** One field test; v is the field's value. */
  function TestField(re: Matcher, op: FieldOp, v: Json, arg: Json): Outcome {
    match op
    case Lt => Of(Less(v, arg))
    case Lte => Of(v == arg || Less(v, arg))
    case Eq => Of(v == arg)
    case Ne => Of(v != arg)
    case Gte => Of(v == arg || Less(arg, v))
    case Gt => Of(Less(arg, v))
    case Exists => Of(v != Null)
    case Type => if arg.Str? then Of(TypeName(v) == arg.s) else Failed
    case In => Of(v in ItemsOf(arg))
    case Nin => Of(v !in ItemsOf(arg))
    case Size => if arg.Num? then Of(ArrayLength(v) == arg.n) else Failed
    case Mod =>
      if !v.Num? then No
      else if ArrayLength(arg) != 2 then Failed
      else if !arg.items[0].Num? && !arg.items[1].Num? then Failed
      else if IntegerOf(arg.items[0]) == 0 then Failed
      else Of(Remainder(v.n, IntegerOf(arg.items[0])) == IntegerOf(arg.items[1]))
    case Regex =>
      if !arg.Str? || !v.Str? || re(arg.s, v.s).None? then Failed else Of(re(arg.s, v.s).value)
    case All =>
      if ArrayLength(v) <= 0 || ArrayLength(arg) <= 0 then Failed
      else Of(Among(arg.items, v.items))
    case Undefined => Failed
  }

  /** The first member that does not hold decides. */
  function AllOf(results: seq<Outcome>): Outcome {
    if results == [] then Yes else if results[0] != Yes then results[0] else AllOf(results[1..])
  }

  /** The first member that holds, or fails, decides. */
  function AnyOf(results: seq<Outcome>): Outcome {
    if results == [] then No else if results[0] != No then results[0] else AnyOf(results[1..])
  }

  function Negated(r: Outcome): Outcome {
    match r
    case Yes => No
    case No => Yes
    case Failed => Failed
  }

  function Combined(op: GroupOp, results: seq<Outcome>): Outcome {
    if results == [] then No
    else match op
      case And => AllOf(results)
      case Or => AnyOf(results)
      case Not => Negated(results[0])
      case Nor => Negated(AnyOf(results))
      case Unsupported => Failed
  }

  function Match(re: Matcher, sel: Selector, doc: Document): Outcome {
    match sel
    case Group(op, members) =>
      Combined(op, seq(|members|, i requires 0 <= i < |members| => Match(re, members[i], doc)))
    case FieldIs(field, test, value) => TestField(re, test, Field(doc, field), value)
  }

  /******* Equality conditions *******/

  /** Member i is the last equality condition on a field. */
  ghost predicate LastCondition(members: seq<Selector>, f: Bytes, i: nat) {
    && i < |members| && OnField(members[i], f)
    && forall j :: i < j < |members| ==> !OnField(members[j], f)
  }

  ghost predicate OnField(member: Selector, f: Bytes) {
    member.FieldIs? && member.test == Eq && member.field == f
  }

  /** A field has a condition exactly if one of the members is one, and the last counts. */
  lemma {:induction false} ConditionsAre(members: seq<Selector>, f: Bytes) returns (i: nat)
    ensures f in EqConditions(members) ==> LastCondition(members, f, i) && EqConditions(members)[f] == members[i].value
    ensures f !in EqConditions(members) ==> forall j :: 0 <= j < |members| ==> !OnField(members[j], f)
    decreases |members|
  {
    i := 0;
    if members != [] {
      var last := |members| - 1;
      if OnField(members[last], f) {
        i := last;
      } else {
        i := ConditionsAre(members[..last], f);
        assert forall j :: 0 <= j < last ==> members[..last][j] == members[j];
      }
    }
  }

  /** The top-level equality members; a later one replaces an earlier one. */
  function EqConditions(members: seq<Selector>): (eq: map<Bytes, Json>)
  {
    if members == [] then map[]
    else
      var last := |members| - 1;
      var eq := EqConditions(members[..last]);
      if members[last].FieldIs? && members[last].test == Eq
      then eq[members[last].field := members[last].value] else eq
  }

  /** The loop over the members. */
  method ReadEqConditions(members: seq<Selector>) returns (eq: map<Bytes, Json>)
    ensures eq == EqConditions(members)
  {
    eq := map[];
    for i := 0 to |members|
      invariant eq == EqConditions(members[..i])
    {
      assert members[..i + 1][..i] == members[..i];
      if members[i].FieldIs? && members[i].test == Eq {
        eq := eq[members[i].field := members[i].value];
      }
    }
    assert members[..|members|] == members;
  }

  lemma {:induction false} AllYes(results: seq<Outcome>)
    ensures AllOf(results) == Yes <==> forall i :: 0 <= i < |results| ==> results[i] == Yes
  {
    if results != [] {
      AllYes(results[1..]);
      if AllOf(results) == Yes {
        forall i | 0 <= i < |results| ensures results[i] == Yes { if i > 0 { assert results[i] == results[1..][i - 1]; } }
      }
    }
  }

  lemma {:induction false} ConditionFrom(members: seq<Selector>, f: Bytes)
    requires f in EqConditions(members)
    ensures exists i :: 0 <= i < |members| && members[i] == FieldIs(f, Eq, EqConditions(members)[f])
  {
    var last := |members| - 1;
    if members[last].FieldIs? && members[last].test == Eq && members[last].field == f {
      assert members[last] == FieldIs(f, Eq, EqConditions(members)[f]);
    } else {
      ConditionFrom(members[..last], f);
      var i :| 0 <= i < last && members[..last][i] == FieldIs(f, Eq, EqConditions(members[..last])[f]);
      assert members[i] == FieldIs(f, Eq, EqConditions(members)[f]);
    }
  }

  /** A document that matches has the value of every equality condition. */
  lemma EqImplied(re: Matcher, members: seq<Selector>, doc: Document, f: Bytes)
    requires Match(re, Group(And, members), doc) == Yes && f in EqConditions(members)
    ensures Field(doc, f) == EqConditions(members)[f]
  {
    ConditionFrom(members, f);
    var i :| 0 <= i < |members| && members[i] == FieldIs(f, Eq, EqConditions(members)[f]);
    var results := seq(|members|, k requires 0 <= k < |members| => Match(re, members[k], doc));
    AllYes(results);
    assert results[i] == Yes;
  }

  /******* What a match looks at *******/

  predicate MetaField(name: Bytes) {
    name == ID_FIELD || name == REV_FIELD || name == DELETED_FIELD || name == CONFLICTS_FIELD
    || name == ATTACHMENTS_FIELD
  }

  /** No path of the selector starts at a member that reading fills in. */
  ghost predicate AvoidsMeta(sel: Selector) {
    match sel
    case Group(_, members) => forall i :: 0 <= i < |members| ==> AvoidsMeta(members[i])
    case FieldIs(field, _, _) => !MetaField(Split(field)[0])
  }

  ghost predicate SameBody(a: Document, b: Document) {
    forall name :: !MetaField(name) ==>
      (name in a.data <==> name in b.data) && (name in a.data ==> a.data[name] == b.data[name])
  }

  lemma SameField(a: Document, b: Document, path: Bytes)
    requires SameBody(a, b) && !MetaField(Split(path)[0])
    ensures Field(a, path) == Field(b, path)
  {
    var name := Split(path)[0];
    assert name in a.data <==> name in b.data;
  }

  lemma {:induction false} SameMatch(re: Matcher, sel: Selector, a: Document, b: Document)
    requires AvoidsMeta(sel) && SameBody(a, b)
    ensures Match(re, sel, a) == Match(re, sel, b)
  {
    match sel
    case Group(op, members) =>
      forall i | 0 <= i < |members| ensures Match(re, members[i], a) == Match(re, members[i], b) {
        SameMatch(re, members[i], a, b);
      }
      assert seq(|members|, i requires 0 <= i < |members| => Match(re, members[i], a))
          == seq(|members|, i requires 0 <= i < |members| => Match(re, members[i], b));
    case FieldIs(field, _, _) => SameField(a, b, field);
  }

  /******* What each test says *******/

  function Chosen(b: bool): Outcome {
    if b then Yes else No
  }

  /** Numbers compare as numbers: exactly one of $lt, $eq and $gt holds. */
  lemma NumbersCompare(re: Matcher, doc: Document, f: Bytes, v: int, arg: int)
    requires Field(doc, f) == Num(v)
    ensures Match(re, FieldIs(f, Lt, Num(arg)), doc) == Chosen(v < arg)
    ensures Match(re, FieldIs(f, Lte, Num(arg)), doc) == Chosen(v <= arg)
    ensures Match(re, FieldIs(f, Eq, Num(arg)), doc) == Chosen(v == arg)
    ensures Match(re, FieldIs(f, Ne, Num(arg)), doc) == Chosen(v != arg)
    ensures Match(re, FieldIs(f, Gte, Num(arg)), doc) == Chosen(v >= arg)
    ensures Match(re, FieldIs(f, Gt, Num(arg)), doc) == Chosen(v > arg)
  {
  }

  /** Strings compare by their bytes. */
  lemma StringsCompare(re: Matcher, doc: Document, f: Bytes, v: Bytes, arg: Bytes)
    requires Field(doc, f) == Str(v)
    ensures Match(re, FieldIs(f, Lt, Str(arg)), doc) == Chosen(Before(v, arg))
    ensures Match(re, FieldIs(f, Lte, Str(arg)), doc) == Chosen(AtMost(v, arg))
    ensures Match(re, FieldIs(f, Eq, Str(arg)), doc) == Chosen(v == arg)
    ensures Match(re, FieldIs(f, Ne, Str(arg)), doc) == Chosen(v != arg)
    ensures Match(re, FieldIs(f, Gte, Str(arg)), doc) == Chosen(AtMost(arg, v))
    ensures Match(re, FieldIs(f, Gt, Str(arg)), doc) == Chosen(Before(arg, v))
  {
    CompareSwap(v, arg);
    CompareUnit(v, arg);
    CompareUnit(arg, v);
  }

  lemma {:induction false} CompareUnit(a: Bytes, b: Bytes)
    ensures -1 <= Compare(a, b) <= 1
  {
    if a != [] && b != [] { CompareUnit(a[1..], b[1..]); }
  }

  ghost predicate SameKind(a: Json, b: Json) {
    (a.Num? && b.Num?) || (a.Str? && b.Str?)
  }

  /** Values of different types, and values other than numbers and strings, are never
      less or greater; they can only be equal. */
  lemma OthersNeverCompare(re: Matcher, doc: Document, f: Bytes, arg: Json)
    requires !SameKind(Field(doc, f), arg)
    ensures Match(re, FieldIs(f, Lt, arg), doc) == No == Match(re, FieldIs(f, Gt, arg), doc)
    ensures Match(re, FieldIs(f, Lte, arg), doc) == Chosen(Field(doc, f) == arg) == Match(re, FieldIs(f, Gte, arg), doc)
    ensures Match(re, FieldIs(f, Eq, arg), doc) == Chosen(Field(doc, f) == arg)
    ensures Match(re, FieldIs(f, Ne, arg), doc) == Chosen(Field(doc, f) != arg)
  {
  }

  /** Lists: $in holds exactly if the argument is an array with the value, $nin exactly
      if $in does not; neither ever fails. $size counts the items of an array,
      and -1 of anything else. */
  lemma ListTests(re: Matcher, doc: Document, f: Bytes, arg: Json, n: int)
    ensures var v := Field(doc, f);
            && Match(re, FieldIs(f, In, arg), doc) == Chosen(arg.Arr? && exists i :: 0 <= i < |arg.items| && arg.items[i] == v)
            && Match(re, FieldIs(f, Nin, arg), doc)
               == Chosen(!(arg.Arr? && exists i :: 0 <= i < |arg.items| && arg.items[i] == v))
            && Match(re, FieldIs(f, Size, Num(n)), doc) == Chosen(if v.Arr? then |v.items| == n else n == -1)
  {
    var v := Field(doc, f);
    if arg.Arr? && v in arg.items { var i :| 0 <= i < |arg.items| && arg.items[i] == v; }
  }

  /** $all wants each of its items among the value's. */
  lemma AllTest(re: Matcher, doc: Document, f: Bytes, xs: seq<Json>, ys: seq<Json>)
    requires Field(doc, f) == Arr(ys) && ys != [] && xs != []
    ensures Match(re, FieldIs(f, All, Arr(xs)), doc)
         == Chosen(forall i :: 0 <= i < |xs| ==> StandsIn(xs[i], ys))
  {
    EachAmong(xs, ys);
    AllOutcome(re, xs, ys);
  }

  lemma AllOutcome(re: Matcher, xs: seq<Json>, ys: seq<Json>)
    requires ys != [] && xs != []
    ensures TestField(re, All, Arr(ys), Arr(xs)) == Chosen(Among(xs, ys))
  {
  }

  /** An item stands at some place. */
  ghost predicate StandsIn(x: Json, ys: seq<Json>) {
    exists j :: 0 <= j < |ys| && ys[j] == x
  }

  lemma StandingIsIn(x: Json, ys: seq<Json>)
    ensures StandsIn(x, ys) <==> x in ys
  {
  }

  lemma EachAmong(xs: seq<Json>, ys: seq<Json>)
    ensures Among(xs, ys) <==> forall i :: 0 <= i < |xs| ==> StandsIn(xs[i], ys)
  {
    forall x ensures StandsIn(x, ys) <==> x in ys { StandingIsIn(x, ys); }
    assert forall i :: 0 <= i < |xs| ==> xs[i] in xs;
  }

  /** $exists asks whether there is a value, whatever its argument says: with false it
      says the opposite of what is meant, for every document. */
  lemma ExistsIgnoresArgument(re: Matcher, doc: Document, f: Bytes, arg: Json)
    ensures Match(re, FieldIs(f, Exists, arg), doc) == Chosen(Field(doc, f) != Null)
    ensures Match(re, FieldIs(f, Exists, Bool(false)), doc) != Chosen(Field(doc, f) == Null)
  {
  }

  /** $type names null, boolean, number, string, array and object. */
  lemma TypeTests(re: Matcher, doc: Document, f: Bytes, name: Bytes)
    ensures var v := Field(doc, f);
            Match(re, FieldIs(f, Type, Str(name)), doc)
            == Chosen(|| (v.Null? && name == [110, 117, 108, 108])
                      || (v.Bool? && name == [98, 111, 111, 108, 101, 97, 110])
                      || (v.Num? && name == [110, 117, 109, 98, 101, 114])
                      || (v.Str? && name == [115, 116, 114, 105, 110, 103])
                      || (v.Arr? && name == [97, 114, 114, 97, 121])
                      || (v.Obj? && name == [111, 98, 106, 101, 99, 116]))
  {
  }

  /** $mod takes the remainder of the division that rounds toward zero. */
  /** A string is matched with the pattern; anything else, or a pattern that does not
      compile, ends the query. */
  lemma RegexTests(re: Matcher, doc: Document, f: Bytes, arg: Json)
    ensures var v, r := Field(doc, f), Match(re, FieldIs(f, Regex, arg), doc);
            && (r == Failed <==> !(v.Str? && arg.Str? && re(arg.s, v.s).Some?))
            && (r != Failed ==> re(arg.s, v.s) == Some(r == Yes))
  {
  }

  lemma RemainderTruncates(a: int, b: int)
    requires b != 0
    ensures exists q :: a == q * b + Remainder(a, b)
    ensures var r, size := Remainder(a, b), if b < 0 then -b else b;
            -size < r < size && (a >= 0 ==> r >= 0) && (a <= 0 ==> r <= 0)
  {
    if a >= 0 {
      assert a == (a / b) * b + Remainder(a, b);
    } else {
      assert -a == ((-a) / b) * b + (-a) % b;
      assert a == (-((-a) / b)) * b + Remainder(a, b);
    }
  }

  lemma ModTests(re: Matcher, doc: Document, f: Bytes, v: int, d: int, r: int)
    requires Field(doc, f) == Num(v) && d != 0
    ensures Match(re, FieldIs(f, Mod, Arr([Num(d), Num(r)])), doc) == Chosen(Remainder(v, d) == r)
    ensures Match(re, FieldIs(f, Mod, Arr([Num(0), Num(r)])), doc) == Failed
  {
  }

  /** A result with nothing but the other one before it. */
  ghost predicate Decides(results: seq<Outcome>, i: int, r: Outcome, before: Outcome) {
    0 <= i < |results| && results[i] == r && forall j :: 0 <= j < i ==> results[j] == before
  }

  lemma {:induction false} AllDecides(results: seq<Outcome>, r: Outcome)
    requires r != Yes
    ensures AllOf(results) == r <==> exists i :: Decides(results, i, r, Yes)
  {
    if results != [] {
      AllDecides(results[1..], r);
      if i :| Decides(results, i, r, Yes) { if i > 0 { assert Decides(results[1..], i - 1, r, Yes); } }
      if results[0] == Yes && AllOf(results) == r {
        var i :| Decides(results[1..], i, r, Yes);
        assert Decides(results, i + 1, r, Yes);
      }
      if results[0] == r { assert Decides(results, 0, r, Yes); }
    }
  }

  lemma {:induction false} AnyDecides(results: seq<Outcome>, r: Outcome)
    requires r != No
    ensures AnyOf(results) == r <==> exists i :: Decides(results, i, r, No)
  {
    if results != [] {
      AnyDecides(results[1..], r);
      if i :| Decides(results, i, r, No) { if i > 0 { assert Decides(results[1..], i - 1, r, No); } }
      if results[0] == No && AnyOf(results) == r {
        var i :| Decides(results[1..], i, r, No);
        assert Decides(results, i + 1, r, No);
      }
      if results[0] == r { assert Decides(results, 0, r, No); }
    }
  }

  ghost function Results(re: Matcher, members: seq<Selector>, doc: Document): (r: seq<Outcome>)
    ensures |r| == |members| && forall i :: 0 <= i < |r| ==> r[i] == Match(re, members[i], doc)
  {
    seq(|members|, i requires 0 <= i < |members| => Match(re, members[i], doc))
  }

  /** Groups, from left to right: $and is decided by the first member that does not
      hold, $or by the first that holds or fails; $not and $nor turn the first member
      and $or round, failures aside. A group without members never holds. */
  lemma GroupTests(re: Matcher, members: seq<Selector>, doc: Document)
    requires members != []
    ensures var results := Results(re, members, doc);
            && (Match(re, Group(And, members), doc) == Yes <==> forall i :: 0 <= i < |results| ==> results[i] == Yes)
            && (Match(re, Group(And, members), doc) == Failed <==> exists i :: Decides(results, i, Failed, Yes))
            && (Match(re, Group(Or, members), doc) == Yes <==> exists i :: Decides(results, i, Yes, No))
            && (Match(re, Group(Or, members), doc) == Failed <==> exists i :: Decides(results, i, Failed, No))
            && (Match(re, Group(Nor, members), doc) == Yes <==> Match(re, Group(Or, members), doc) == No)
            && (Match(re, Group(Nor, members), doc) == No <==> Match(re, Group(Or, members), doc) == Yes)
            && (Match(re, Group(Not, members), doc) == Yes <==> results[0] == No)
            && (Match(re, Group(Not, members), doc) == No <==> results[0] == Yes)
    ensures forall op :: Match(re, Group(op, []), doc) == No
  {
    var results := Results(re, members, doc);
    AllYes(results);
    AllDecides(results, Failed);
    AnyDecides(results, Yes);
    AnyDecides(results, Failed);
    forall op ensures Match(re, Group(op, members), doc) == Combined(op, results) {}
  }
}
