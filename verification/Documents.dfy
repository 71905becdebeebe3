/** Documents as goydb holds them in memory, and the JSON values inside. */
module Documents {
  import opened ByteStrings
  import opened Revisions

  /** JSON with integer numbers. */
  datatype Json =
    | Null
    | Bool(b: bool)
    | Num(n: int)
    | Str(s: Bytes)
    | Arr(items: seq<Json>)
    | Obj(fields: map<Bytes, Json>)

  datatype Document = Document(
    id: Bytes,
    rev: Bytes,
    deleted: bool,
    localSeq: nat,
    history: seq<Bytes>,
    attachments: map<Bytes, Bytes>,  // file name to digest
    data: map<Bytes, Json>)

  const LOCAL_PREFIX: Bytes := [95, 108, 111, 99, 97, 108, 47]  // _local/
  const DESIGN_PREFIX: Bytes := [95, 100, 101, 115, 105, 103, 110, 47]  // _design/
  const ID_FIELD: Bytes := [95, 105, 100]  // _id
  const REV_FIELD: Bytes := [95, 114, 101, 118]  // _rev
  const DELETED_FIELD: Bytes := [95, 100, 101, 108, 101, 116, 101, 100]  // _deleted
  const CONFLICTS_FIELD: Bytes := [95, 99, 111, 110, 102, 108, 105, 99, 116, 115]  // _conflicts
  const ATTACHMENTS_FIELD: Bytes := [95, 97, 116, 116, 97, 99, 104, 109, 101, 110, 116, 115]  // _attachments
  const REVISIONS_FIELD: Bytes := [95, 114, 101, 118, 105, 115, 105, 111, 110, 115]  // _revisions
  const START_FIELD: Bytes := [115, 116, 97, 114, 116]  // start
  const IDS_FIELD: Bytes := [105, 100, 115]  // ids

  const HISTORY_CAP: nat := 1000

  predicate IsLocal(id: Bytes) {
    LOCAL_PREFIX <= id
  }

  predicate IsDesign(id: Bytes) {
    DESIGN_PREFIX <= id
  }

  /** What the storage layer takes for granted about an ID: it is not empty, its
      length fits the 2-byte trailers and it has no NUL. */
  predicate ValidId(id: Bytes) {
    id != [] && |id| < U16 && 0 !in id
  }

  /** The document's own revision, or the "_rev" member of its data. */
  function Revision(doc: Document): Option<Bytes> {
    if doc.rev != [] then Some(doc.rev)
    else if REV_FIELD in doc.data && doc.data[REV_FIELD].Str? then Some(doc.data[REV_FIELD].s)
    else None
  }

  predicate HasRevision(doc: Document, rev: Bytes) {
    doc.rev == rev || rev in doc.history
  }

  /** An update must name the revision it replaces. */
  predicate ValidUpdateRevision(stored: Document, update: Document) {
    Revision(stored).None? || Revision(update) == Revision(stored)
  }

  function Capped(history: seq<Bytes>): seq<Bytes> {
    if |history| > HISTORY_CAP then history[..HISTORY_CAP] else history
  }

  /** The next "0-N" revision of a local document. */
  function NextLocalRevision(doc: Document): Bytes {
    if doc.rev != [] && DASH in doc.rev && GenPart(doc.rev) == [48]
    then [48, DASH] + Itoa(Atoi(HashPart(doc.rev)) + 1)
    else [48, DASH, 49]
  }

  /** The member at a dotted path; anything missing reads as null. */
  function Field(doc: Document, path: Bytes): Json {
    Walk(Obj(doc.data), Split(path))
  }

  function Walk(j: Json, parts: seq<Bytes>): Json
    decreases parts
  {
    if parts == [] then j
    else if !j.Obj? || parts[0] == [] || parts[0] !in j.fields then Null
    else Walk(j.fields[parts[0]], parts[1..])
  }

  const DOT: byte := 46

  /** strings.Split(path, "."). */
  function Split(path: Bytes): (parts: seq<Bytes>)
    ensures parts != []
  {
    if path == [] then [[]]
    else
      var rest := Split(path[1..]);
      if path[0] == DOT then [[]] + rest
      else [[path[0]] + rest[0]] + rest[1..]
  }

  /** The member of an object; null if there is none, or no object. */
  function Member(j: Json, name: Bytes): Json {
    if j.Obj? && name in j.fields then j.fields[name] else Null
  }

  lemma {:induction false} SplitLast(path: Bytes, name: Bytes)
    requires DOT !in name
    ensures Split(path + [DOT] + name) == Split(path) + [name] && Split(name) == [name]
  {
    if path == [] {
      NoDot(name);
      assert ([] + [DOT] + name)[1..] == name && [] + [DOT] + name == [DOT] + name;
    } else {
      SplitLast(path[1..], name);
      assert (path + [DOT] + name)[1..] == path[1..] + [DOT] + name;
    }
  }

  lemma {:induction false} NoDot(name: Bytes)
    requires DOT !in name
    ensures Split(name) == [name]
  {
    if name != [] {
      NoDot(name[1..]);
      assert [name[0]] + name[1..] == name;
    }
  }

  lemma {:induction false} WalkLast(j: Json, parts: seq<Bytes>, name: Bytes)
    requires name != []
    ensures Walk(j, parts + [name]) == Member(Walk(j, parts), name)
    decreases parts
  {
    if parts == [] {
      assert [] + [name] == [name] && [name][1..] == [];
    } else if j.Obj? && parts[0] != [] && parts[0] in j.fields {
      assert (parts + [name])[1..] == parts[1..] + [name];
      WalkLast(j.fields[parts[0]], parts[1..], name);
    }
  }

  /** A path without a dot names a member of the document; one more step of a path
      names a member of what the path led to; an empty step leads nowhere. */
  lemma FieldFollowsPath(doc: Document, path: Bytes, name: Bytes)
    requires DOT !in name
    ensures Field(doc, name) == if name == [] then Null else Member(Obj(doc.data), name)
    ensures Field(doc, path + [DOT] + name) == if name == [] then Null else Member(Field(doc, path), name)
  {
    SplitLast(path, name);
    NoDot(name);
    if name == [] {
      EmptyStep(Obj(doc.data), Split(path));
      assert Walk(Obj(doc.data), [[]]) == Null;
    } else {
      WalkLast(Obj(doc.data), Split(path), name);
      WalkLast(Obj(doc.data), [], name);
      assert [] + [name] == [name];
    }
  }

  lemma {:induction false} EmptyStep(j: Json, parts: seq<Bytes>)
    ensures Walk(j, parts + [[]]) == Null
    decreases parts
  {
    if parts != [] && j.Obj? && parts[0] != [] && parts[0] in j.fields {
      assert (parts + [[]])[1..] == parts[1..] + [[]];
      EmptyStep(j.fields[parts[0]], parts[1..]);
    }
  }

  /** The revision a document names: its own, or, having none, that of its data. */
  lemma RevisionNamed(doc: Document, rev: Bytes)
    ensures Revision(doc) == Some(rev) <==>
            if doc.rev != [] then rev == doc.rev else REV_FIELD in doc.data && doc.data[REV_FIELD] == Str(rev)
  {
  }

  /******* The "_revisions" member that carries a history between peers *******/

  datatype RevisionsField = RevisionsField(ids: seq<Bytes>, start: int)

  function HashesOf(history: seq<Bytes>): (ids: seq<Bytes>)
    ensures |ids| == |history|
    ensures forall i :: 0 <= i < |ids| ==> ids[i] == HashPart(history[i])
  {
    seq(|history|, i requires 0 <= i < |history| => HashPart(history[i]))
  }

  /** What a peer sends for a document with a stored history. */
  function RevisionsOf(history: seq<Bytes>): RevisionsField
    requires history != []
  {
    RevisionsField(HashesOf(history), Gen(history[0]))
  }

  /** What the receiving side makes of it: generation start - i for the i-th hash. */
  function HistoryFrom(r: RevisionsField): (h: seq<Bytes>)
    ensures |h| == if |r.ids| > HISTORY_CAP then HISTORY_CAP else |r.ids|
    ensures forall i :: 0 <= i < |h| ==> h[i] == Format(r.start - i, r.ids[i])
  {
    Capped(seq(|r.ids|, i requires 0 <= i < |r.ids| => Format(r.start - i, r.ids[i])))
  }

  /** Generations fall by one at each step. */
  predicate Consecutive(history: seq<Bytes>) {
    forall i :: 0 <= i < |history| ==>
      WellFormed(history[i]) && Gen(history[i]) == Gen(history[0]) - i
  }

  lemma GenerationShows(gen: int, rev: Bytes)
    requires WellFormed(rev)
    ensures Format(gen, HashPart(rev)) == rev <==> gen == Gen(rev)
  {
    if gen >= 0 {
      FormatParse(gen, HashPart(rev));
    } else {
      assert Format(gen, HashPart(rev))[0] == DASH;
      assert Format(Gen(rev), HashPart(rev))[0] == Digits(Gen(rev))[0];
    }
  }

  /** A history survives the trip exactly when its generations fall one by one,
      which the history of a document with conflict branches need not do. */
  lemma HistoryRoundTrip(history: seq<Bytes>)
    requires 0 < |history| <= HISTORY_CAP
    requires forall i :: 0 <= i < |history| ==> WellFormed(history[i])
    ensures HistoryFrom(RevisionsOf(history)) == history <==> Consecutive(history)
  {
    ShownIs(history, HistoryFrom(RevisionsOf(history)));
  }

  lemma ShownIs(history: seq<Bytes>, h: seq<Bytes>)
    requires 0 < |history| && |h| == |history| && forall i :: 0 <= i < |history| ==> WellFormed(history[i])
    requires forall i :: 0 <= i < |h| ==> h[i] == Format(Gen(history[0]) - i, HashPart(history[i]))
    ensures h == history <==> Consecutive(history)
  {
    forall i | 0 <= i < |history| ensures h[i] == history[i] <==> Falls(history, i) {
      GenerationShows(Gen(history[0]) - i, history[i]);
    }
    FallingIsConsecutive(history);
    ItemByItem(h, history);
  }

  lemma FallingIsConsecutive(history: seq<Bytes>)
    requires forall i :: 0 <= i < |history| ==> WellFormed(history[i])
    ensures Consecutive(history) <==> forall i :: 0 <= i < |history| ==> Falls(history, i)
  {
    if Consecutive(history) {
      forall i | 0 <= i < |history| ensures Falls(history, i) {}
    }
    if forall i :: 0 <= i < |history| ==> Falls(history, i) {
      forall i | 0 <= i < |history| ensures Gen(history[i]) == Gen(history[0]) - i { assert Falls(history, i); }
    }
  }

  lemma ItemByItem<T>(a: seq<T>, b: seq<T>)
    requires |a| == |b|
    ensures a == b <==> forall i :: 0 <= i < |a| ==> a[i] == b[i]
  {
  }

  ghost predicate Falls(history: seq<Bytes>, i: nat)
    requires i < |history|
  {
    Gen(history[i]) == Gen(history[0]) - i
  }
}
