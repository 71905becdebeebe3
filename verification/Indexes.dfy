/** The secondary indices: the operations each one logs when a document's stored
    value goes away and when a new one arrives. */
module Indexes {
  import opened ByteStrings
  import opened Documents
  import opened Engine
  import opened SortedKeys

  /** One emitted view row, key and value already encoded. */
  datatype Row = Row(key: Bytes, value: Value)

  datatype Index =
    | ChangesIndex
    | DeletedIndex
    | ViewIndex(n: nat, mapFn: Document -> seq<Row>)
    | MangoIndex(n: nat, fields: seq<Bytes>, encode: Json -> Bytes)

  function BucketsOf(i: Index): set<BucketName> {
    match i
    case ChangesIndex => {Changes, ChangesInv}
    case DeletedIndex => {DeletedDocs}
    case ViewIndex(n, _) => {View(n), ViewInv(n)}
    case MangoIndex(n, _, _) => {Mango(n), MangoInv(n)}
  }

  function Entries(s: Store, b: BucketName): map<Bytes, Value> {
    if b in s then s[b].entries else map[]
  }

  /******* Changes *******/

  function ChangesDeleted(s: Store, id: Bytes): seq<Op> {
    var inv := Entries(s, ChangesInv);
    if id in inv && inv[id].Bin?
    then [Delete(ChangesInv, id), Delete(Changes, inv[id].bytes)]
    else []
  }

  function ChangesStored(id: Bytes): seq<Op> {
    [PutWithSequence(Changes, [], Bin(id), SeqIsKey),
     PutWithSequence(ChangesInv, id, Bin([]), SeqIsValue)]
  }

  /******* Deleted documents *******/

  /** The index key; a live document has none. */
  function DeletedKey(doc: Document): Bytes {
    if doc.deleted then doc.id else []
  }

  function DeletedStored(doc: Document): seq<Op> {
    if doc.deleted then [Put(DeletedDocs, doc.id, Bin([]))] else []
  }

  /******* Views *******/

  /** Whether an invalidation key belongs to this very ID: the prefix alone would
      also admit longer IDs. */
  predicate RecordOf(k: Bytes, id: Bytes) {
    id <= k && |k| >= 10 && FromBigEndian(k[|k| - 2..]) == |id|
  }

  function RecordKeys(inv: map<Bytes, Value>, id: Bytes): seq<Bytes> {
    Sorted(set k | k in inv && RecordOf(k, id))
  }

  function RemovalOps(n: nat, inv: map<Bytes, Value>, keys: seq<Bytes>): seq<Op>
    requires forall k :: k in keys ==> k in inv
  {
    if keys == [] then []
    else RowRemoval(n, keys[0], inv[keys[0]]) + RemovalOps(n, inv, keys[1..])
  }

  function RecordRemoval(n: nat, id: Bytes, k: Bytes, v: Value): seq<Op> {
    if RecordOf(k, id) then RowRemoval(n, k, v) else []
  }

  function RowRemoval(n: nat, record: Bytes, v: Value): seq<Op> {
    [Delete(View(n), if v.Bin? then v.bytes else []), Delete(ViewInv(n), record)]
  }

  function RemoveOldKeysOps(s: Store, n: nat, id: Bytes): seq<Op> {
    var inv := Entries(s, ViewInv(n));
    RemovalOps(n, inv, RecordKeys(inv, id))
  }

  /** The rows a stored document contributes. */
  function RowsFor(mapFn: Document -> seq<Row>, doc: Document): seq<Row> {
    if IsDesign(doc.id) || IsLocal(doc.id) || doc.deleted then [] else mapFn(doc)
  }

  function RowOps(n: nat, id: Bytes, rows: seq<Row>): seq<Op> {
    if rows == [] then []
    else
      [PutWithSequence(View(n), rows[0].key, rows[0].value, RowKey),
       PutWithReusedSequence(ViewInv(n), id, Bin(rows[0].key), RowRecord)] + RowOps(n, id, rows[1..])
  }

  function ViewReplaced(s: Store, n: nat, id: Bytes, rows: seq<Row>): seq<Op> {
    RemoveOldKeysOps(s, n, id) + RowOps(n, id, rows)
  }

  /******* Mango *******/

  /** Length-prefixed encodings; the 2-byte length truncates beyond 65535. */
  function Prefix(encode: Json -> Bytes, values: seq<Json>): Bytes {
    if values == [] then []
    else
      var e := encode(values[0]);
      U16Key(|e|) + e + Prefix(encode, values[1..])
  }

  function FieldValues(fields: seq<Bytes>, doc: Document): (vs: seq<Json>)
    ensures |vs| == |fields|
    ensures forall j :: 0 <= j < |vs| ==> vs[j] == Field(doc, fields[j])
  {
    seq(|fields|, j requires 0 <= j < |fields| => Field(doc, fields[j]))
  }

  function MangoKey(encode: Json -> Bytes, fields: seq<Bytes>, doc: Document): Bytes {
    Prefix(encode, FieldValues(fields, doc)) + doc.id
  }

  predicate MangoIndexable(doc: Document) {
    !doc.deleted && !IsDesign(doc.id) && !IsLocal(doc.id)
  }

  function MangoDeleted(s: Store, n: nat, id: Bytes): seq<Op> {
    var inv := Entries(s, MangoInv(n));
    (if id in inv && inv[id].Bin? && inv[id].bytes != []
     then [Delete(Mango(n), inv[id].bytes)] else [])
    + [Delete(MangoInv(n), id)]
  }

  function MangoAdded(n: nat, fields: seq<Bytes>, encode: Json -> Bytes, doc: Document): seq<Op> {
    if !MangoIndexable(doc) then []
    else
      var key := MangoKey(encode, fields, doc);
      [Put(Mango(n), key, Bin([])), Put(MangoInv(n), doc.id, Bin(key))]
  }

  /******* Any index *******/

  function DocumentDeleted(i: Index, s: Store, doc: Document): seq<Op> {
    match i
    case ChangesIndex => ChangesDeleted(s, doc.id)
    case DeletedIndex => [Delete(DeletedDocs, DeletedKey(doc))]
    case ViewIndex(n, _) => RemoveOldKeysOps(s, n, doc.id)
    case MangoIndex(n, _, _) => MangoDeleted(s, n, doc.id)
  }

  function DocumentStored(i: Index, s: Store, doc: Document): seq<Op> {
    match i
    case ChangesIndex => ChangesStored(doc.id)
    case DeletedIndex => DeletedStored(doc)
    case ViewIndex(n, mapFn) => ViewReplaced(s, n, doc.id, RowsFor(mapFn, doc))
    case MangoIndex(n, fields, encode) => MangoDeleted(s, n, doc.id) + MangoAdded(n, fields, encode, doc)
  }

  function AllDeleted(indices: seq<Index>, s: Store, doc: Document): seq<Op> {
    Concat(seq(|indices|, j requires 0 <= j < |indices| => DocumentDeleted(indices[j], s, doc)))
  }

  function AllStored(indices: seq<Index>, s: Store, doc: Document): seq<Op> {
    Concat(seq(|indices|, j requires 0 <= j < |indices| => DocumentStored(indices[j], s, doc)))
  }

  /** UpdateStored over several documents, as the rebuild calls it. */
  function UpdateStored(i: Index, s: Store, docs: seq<Document>): seq<Op> {
    Concat(seq(|docs|, d requires 0 <= d < |docs| => DocumentStored(i, s, docs[d])))
  }

  function Concat<T>(parts: seq<seq<T>>): seq<T> {
    if parts == [] then [] else parts[0] + Concat(parts[1..])
  }

  lemma {:induction false} ConcatAppend<T>(xs: seq<seq<T>>, ys: seq<seq<T>>)
    ensures Concat(xs + ys) == Concat(xs) + Concat(ys)
  {
    if xs == [] {
      assert xs + ys == ys;
    } else {
      assert (xs + ys)[1..] == xs[1..] + ys;
      ConcatAppend(xs[1..], ys);
    }
  }

  lemma ConcatSnoc<T>(parts: seq<seq<T>>, j: nat)
    requires j < |parts|
    ensures Concat(parts[..j + 1]) == Concat(parts[..j]) + parts[j]
  {
    ConcatAppend(parts[..j], [parts[j]]);
    assert parts[..j + 1] == parts[..j] + [parts[j]];
    assert Concat([parts[j]][1..]) == [];
  }

  lemma Assoc<T>(a: seq<T>, b: seq<T>, c: seq<T>)
    ensures (a + b) + c == a + (b + c)
  {
  }

  /******* The code that logs these operations *******/

  /** Logs the removal of a row and of its record, if the record is the ID's. */
  method RemoveRecord(tx: WriteTransaction, n: nat, id: Bytes, k: Bytes, v: Value)
    modifies tx`opLog
    ensures tx.opLog == old(tx.opLog) + RecordRemoval(n, id, k, v)
  {
    if id <= k && |k| >= 10 && FromBigEndian(k[|k| - 2..]) == |id| {
      tx.Append(Delete(View(n), if v.Bin? then v.bytes else []));
      tx.Append(Delete(ViewInv(n), k));
    }
  }

  /** Walks the cursor from the ID on while the prefix lasts. */
  method WalkRecords(tx: WriteTransaction, n: nat, id: Bytes, inv: map<Bytes, Value>, keys: seq<Bytes>)
    returns (c: nat)
    requires forall k :: k in keys ==> k in inv
    modifies tx`opLog
    ensures SeekIndex(keys, id) <= c <= |keys|
    ensures c < |keys| ==> !(id <= keys[c])
    ensures tx.opLog == old(tx.opLog) + RemovedSoFar(n, inv, keys, id, c)
  {
    c := SeekIndex(keys, id);
    RemovedFirst(n, inv, keys, id, c);
    ghost var start := tx.opLog;
    while c < |keys| && id <= keys[c]
      invariant SeekIndex(keys, id) <= c <= |keys|
      invariant tx.opLog == start + RemovedSoFar(n, inv, keys, id, c)
    {
      RemoveAt(tx, n, id, inv, keys, c, start);
      c := c + 1;
    }
  }

  method RemoveAt(tx: WriteTransaction, n: nat, id: Bytes, inv: map<Bytes, Value>, keys: seq<Bytes>, c: nat,
                  ghost start: seq<Op>)
    requires c < |keys| && (forall k :: k in keys ==> k in inv)
    requires tx.opLog == start + RemovedSoFar(n, inv, keys, id, c)
    modifies tx`opLog
    ensures tx.opLog == start + RemovedSoFar(n, inv, keys, id, c + 1)
  {
    RemovedNext(n, inv, keys, id, c);
    RemoveRecord(tx, n, id, keys[c], inv[keys[c]]);
  }

  /** Deletes every row of the ID, found through the invalidation bucket. */
  method RemoveOldKeys(tx: WriteTransaction, n: nat, id: Bytes)
    modifies tx`opLog
    ensures tx.opLog == old(tx.opLog) + RemoveOldKeysOps(tx.snapshot, n, id)
  {
    var inv := Entries(tx.snapshot, ViewInv(n));
    var c := WalkRecords(tx, n, id, inv, Sorted(inv.Keys));
    ScanFinds(n, inv, id, c);
  }

  lemma RemovedFirst(n: nat, inv: map<Bytes, Value>, keys: seq<Bytes>, id: Bytes, c: nat)
    requires c <= SeekIndex(keys, id) && forall k :: k in keys ==> k in inv
    ensures RemovedSoFar(n, inv, keys, id, c) == []
  {
    RecordsBeforeSeek(keys, id, c);
  }

  ghost function RemovedSoFar(n: nat, inv: map<Bytes, Value>, keys: seq<Bytes>, id: Bytes, c: nat): seq<Op>
    requires c <= |keys| && forall k :: k in keys ==> k in inv
  {
    RemovalOps(n, inv, RecordsAmong(keys, id, c))
  }

  lemma RemovedNext(n: nat, inv: map<Bytes, Value>, keys: seq<Bytes>, id: Bytes, c: nat)
    requires c < |keys| && forall k :: k in keys ==> k in inv
    ensures keys[c] in inv
    ensures RemovedSoFar(n, inv, keys, id, c + 1) == RemovedSoFar(n, inv, keys, id, c) +
      RecordRemoval(n, id, keys[c], inv[keys[c]])
  {
    var found := RecordsAmong(keys, id, c);
    assert keys[c] in keys;
    assert RecordsAmong(keys, id, c + 1) == found + (if RecordOf(keys[c], id) then [keys[c]] else []);
    if RecordOf(keys[c], id) {
      AppendRemoval(n, inv, found, keys[c]);
    } else {
      assert found + [] == found;
    }
  }

  lemma ScanFinds(n: nat, inv: map<Bytes, Value>, id: Bytes, c: nat)
    requires var keys := Sorted(inv.Keys);
             SeekIndex(keys, id) <= c <= |keys| && (c < |keys| ==> !(id <= keys[c]))
    ensures RecordsAmong(Sorted(inv.Keys), id, c) == RecordKeys(inv, id)
    ensures RemovedSoFar(n, inv, Sorted(inv.Keys), id, c) == RemovalOps(n, inv, RecordKeys(inv, id))
  {
    var keys := Sorted(inv.Keys);
    SortedAscending(inv.Keys);
    ScanComplete(keys, id, c);
    RecordsSorted(keys, id, c);
    SortedAscending(set k | k in inv && RecordOf(k, id));
    AscendingUnique(RecordsAmong(keys, id, c), RecordKeys(inv, id));
  }

  /** The ID's records among the first c keys, in order. */
  ghost function RecordsAmong(keys: seq<Bytes>, id: Bytes, c: nat): (r: seq<Bytes>)
    requires c <= |keys|
    ensures forall k :: k in r ==> k in keys
  {
    if c == 0 then []
    else RecordsAmong(keys, id, c - 1) + (if RecordOf(keys[c - 1], id) then [keys[c - 1]] else [])
  }

  lemma {:induction false} RecordsSorted(keys: seq<Bytes>, id: Bytes, c: nat)
    requires Ascending(keys) && c <= |keys|
    ensures Ascending(RecordsAmong(keys, id, c))
    ensures forall k :: k in RecordsAmong(keys, id, c) <==> k in keys[..c] && RecordOf(k, id)
  {
    if c > 0 {
      RecordsSorted(keys, id, c - 1);
      assert keys[..c] == keys[..c - 1] + [keys[c - 1]];
      AscendingSnoc(RecordsAmong(keys, id, c - 1), keys, c - 1);
    }
  }

  lemma {:induction false} RecordsBeforeSeek(keys: seq<Bytes>, id: Bytes, c: nat)
    requires c <= SeekIndex(keys, id)
    ensures RecordsAmong(keys, id, c) == []
  {
    if c > 0 {
      RecordsBeforeSeek(keys, id, c - 1);
      SeekLands(keys, id, c - 1);
      CompareSwap(keys[c - 1], id);
      if id <= keys[c - 1] { PrefixFirst(id, keys[c - 1]); }
    }
  }

  lemma AscendingSnoc(taken: seq<Bytes>, keys: seq<Bytes>, c: nat)
    requires Ascending(keys) && c < |keys| && Ascending(taken)
    requires forall k :: k in taken ==> k in keys[..c]
    ensures Ascending(taken + [keys[c]])
  {
    forall i | 0 <= i < |taken| ensures Before(taken[i], keys[c]) {
      assert taken[i] in taken;
    }
  }

  lemma {:induction false} AppendRemoval(n: nat, inv: map<Bytes, Value>, keys: seq<Bytes>, k: Bytes)
    requires forall o :: o in keys ==> o in inv
    requires k in inv
    ensures RemovalOps(n, inv, keys + [k]) ==
            RemovalOps(n, inv, keys) + RowRemoval(n, k, inv[k])
  {
    if keys != [] {
      assert (keys + [k])[1..] == keys[1..] + [k];
      AppendRemoval(n, inv, keys[1..], k);
    } else {
      assert keys + [k] == [k];
      assert RemovalOps(n, inv, [k][1..]) == [];
    }
  }

  /** Stopping at the first key without the prefix loses no key with it. */
  lemma ScanComplete(keys: seq<Bytes>, p: Bytes, c: nat)
    requires Ascending(keys) && SeekIndex(keys, p) <= c <= |keys|
    requires c < |keys| ==> !(p <= keys[c])
    ensures forall k :: k in keys && p <= k ==> k in keys[..c]
  {
    forall k | k in keys && p <= k ensures k in keys[..c] {
      var j :| 0 <= j < |keys| && keys[j] == k;
      if j >= c {
        PrefixFirst(p, k);
        SeekSplits(keys, p, c);
        CompareSwap(keys[c], p);
        CompareSwap(k, k);
        PrefixContiguous(p, keys[c], k);
      }
    }
  }

  method AddRows(tx: WriteTransaction, n: nat, id: Bytes, rows: seq<Row>)
    modifies tx`opLog
    ensures tx.opLog == old(tx.opLog) + RowOps(n, id, rows)
  {
    for j := 0 to |rows|
      invariant tx.opLog == old(tx.opLog) + RowOps(n, id, rows[..j])
    {
      SnocRow(n, id, rows, j);
      tx.Append(PutWithSequence(View(n), rows[j].key, rows[j].value, RowKey));
      tx.Append(PutWithReusedSequence(ViewInv(n), id, Bin(rows[j].key), RowRecord));
    }
    assert rows[..|rows|] == rows;
  }

  method ReplaceRows(tx: WriteTransaction, n: nat, id: Bytes, rows: seq<Row>)
    modifies tx`opLog
    ensures tx.opLog == old(tx.opLog) + ViewReplaced(tx.snapshot, n, id, rows)
  {
    RemoveOldKeys(tx, n, id);
    AddRows(tx, n, id, rows);
  }

  lemma {:induction false} SnocRow(n: nat, id: Bytes, rows: seq<Row>, j: nat)
    requires j < |rows|
    ensures RowOps(n, id, rows[..j + 1]) == RowOps(n, id, rows[..j])
      + [PutWithSequence(View(n), rows[j].key, rows[j].value, RowKey),
         PutWithReusedSequence(ViewInv(n), id, Bin(rows[j].key), RowRecord)]
  {
    RowOpsAppend(n, id, rows[..j], [rows[j]]);
    assert rows[..j + 1] == rows[..j] + [rows[j]];
    assert RowOps(n, id, [rows[j]][1..]) == [];
  }

  lemma {:induction false} RowOpsAppend(n: nat, id: Bytes, xs: seq<Row>, ys: seq<Row>)
    ensures RowOps(n, id, xs + ys) == RowOps(n, id, xs) + RowOps(n, id, ys)
  {
    if xs == [] {
      assert xs + ys == ys;
    } else {
      assert (xs + ys)[1..] == xs[1..] + ys;
      RowOpsAppend(n, id, xs[1..], ys);
    }
  }

  method BuildPrefix(encode: Json -> Bytes, values: seq<Json>) returns (buf: Bytes)
    ensures buf == Prefix(encode, values)
  {
    buf := [];
    for i := 0 to |values|
      invariant buf == Prefix(encode, values[..i])
    {
      var encoded := encode(values[i]);
      PrefixSnoc(encode, values, i);
      buf := buf + U16Key(|encoded|);
      buf := buf + encoded;
    }
    assert values[..|values|] == values;
  }

  lemma {:induction false} PrefixAppend(encode: Json -> Bytes, xs: seq<Json>, ys: seq<Json>)
    ensures Prefix(encode, xs + ys) == Prefix(encode, xs) + Prefix(encode, ys)
  {
    if xs == [] {
      assert xs + ys == ys;
    } else {
      assert (xs + ys)[1..] == xs[1..] + ys;
      PrefixAppend(encode, xs[1..], ys);
    }
  }

  lemma PrefixSnoc(encode: Json -> Bytes, values: seq<Json>, i: nat)
    requires i < |values|
    ensures var e := encode(values[i]);
            Prefix(encode, values[..i + 1]) == Prefix(encode, values[..i]) + U16Key(|e|) + e
  {
    PrefixAppend(encode, values[..i], [values[i]]);
    assert values[..i + 1] == values[..i] + [values[i]];
    assert Prefix(encode, [values[i]][1..]) == [];
  }

  method MangoRemove(tx: WriteTransaction, n: nat, id: Bytes)
    modifies tx`opLog
    ensures tx.opLog == old(tx.opLog) + MangoDeleted(tx.snapshot, n, id)
  {
    var oldKey := tx.Get(MangoInv(n), id);
    if oldKey.Some? && oldKey.value.Bin? && oldKey.value.bytes != [] {
      tx.Append(Delete(Mango(n), oldKey.value.bytes));
    }
    tx.Append(Delete(MangoInv(n), id));
  }

  method MangoStore(tx: WriteTransaction, n: nat, fields: seq<Bytes>, encode: Json -> Bytes, doc: Document)
    modifies tx`opLog
    ensures tx.opLog == old(tx.opLog) + DocumentStored(MangoIndex(n, fields, encode), tx.snapshot, doc)
  {
    MangoRemove(tx, n, doc.id);
    if !(doc.deleted || IsDesign(doc.id) || IsLocal(doc.id)) {
      var newKey := BuildPrefix(encode, FieldValues(fields, doc));
      newKey := newKey + doc.id;
      tx.Append(Put(Mango(n), newKey, Bin([])));
      tx.Append(Put(MangoInv(n), doc.id, Bin(newKey)));
    }
  }

  /** The unique index stops at the first document without a key, so on a list
      only the leading deleted documents are recorded. */
  method DeletedUpdateStored(tx: WriteTransaction, docs: seq<Document>) returns (taken: nat)
    modifies tx`opLog
    ensures taken <= |docs|
    ensures forall d :: 0 <= d < taken ==> docs[d].deleted
    ensures taken < |docs| ==> !docs[taken].deleted
    ensures tx.opLog == old(tx.opLog) + seq(taken, d requires 0 <= d < taken => Put(DeletedDocs, docs[d].id, Bin([])))
  {
    taken := 0;
    while taken < |docs|
      invariant taken <= |docs|
      invariant forall d :: 0 <= d < taken ==> docs[d].deleted
      invariant tx.opLog == old(tx.opLog) + seq(taken, d requires 0 <= d < taken => Put(DeletedDocs, docs[d].id, Bin([])))
    {
      if !docs[taken].deleted { return; }
      tx.Append(Put(DeletedDocs, docs[taken].id, Bin([])));
      taken := taken + 1;
    }
  }

  /** DocumentStored: the update for one document. */
  method Store1(tx: WriteTransaction, i: Index, doc: Document)
    modifies tx`opLog
    ensures tx.opLog == old(tx.opLog) + DocumentStored(i, tx.snapshot, doc)
  {
    match i {
      case ChangesIndex =>
        tx.Append(PutWithSequence(Changes, [], Bin(doc.id), SeqIsKey));
        tx.Append(PutWithSequence(ChangesInv, doc.id, Bin([]), SeqIsValue));
      case DeletedIndex =>
        if doc.deleted { tx.Append(Put(DeletedDocs, doc.id, Bin([]))); }
      case ViewIndex(n, mapFn) => ReplaceRows(tx, n, doc.id, RowsFor(mapFn, doc));
      case MangoIndex(n, fields, encode) => MangoStore(tx, n, fields, encode, doc);
    }
  }

  /** UpdateStored of the view, Mango and changes indices. */
  method StoreAll(tx: WriteTransaction, i: Index, docs: seq<Document>)
    modifies tx`opLog
    ensures tx.opLog == old(tx.opLog) + UpdateStored(i, tx.snapshot, docs)
  {
    ghost var start := tx.opLog;
    for d := 0 to |docs|
      invariant tx.opLog == start + UpdatedSoFar(i, tx.snapshot, docs, d)
    {
      UpdatedNext(i, tx.snapshot, docs, d);
      Assoc(start, UpdatedSoFar(i, tx.snapshot, docs, d), DocumentStored(i, tx.snapshot, docs[d]));
      Store1(tx, i, docs[d]);
    }
    assert docs[..|docs|] == docs;
  }

  ghost function UpdatedSoFar(i: Index, s: Store, docs: seq<Document>, d: nat): seq<Op>
    requires d <= |docs|
  {
    UpdateStored(i, s, docs[..d])
  }

  lemma UpdatedNext(i: Index, s: Store, docs: seq<Document>, d: nat)
    requires d < |docs|
    ensures UpdatedSoFar(i, s, docs, d + 1) == UpdatedSoFar(i, s, docs, d) + DocumentStored(i, s, docs[d])
  {
    var parts := seq(|docs|, e requires 0 <= e < |docs| => DocumentStored(i, s, docs[e]));
    ConcatSnoc(parts, d);
    assert parts[..d] == seq(d, e requires 0 <= e < d => DocumentStored(i, s, docs[..d][e]));
    assert parts[..d + 1] == seq(d + 1, e requires 0 <= e < d + 1 => DocumentStored(i, s, docs[..d + 1][e]));
  }

  method Delete1(tx: WriteTransaction, i: Index, doc: Document)
    modifies tx`opLog
    ensures tx.opLog == old(tx.opLog) + DocumentDeleted(i, tx.snapshot, doc)
  {
    match i {
      case ChangesIndex =>
        var key := tx.Get(ChangesInv, doc.id);
        if key.Some? && key.value.Bin? {
          tx.Append(Delete(ChangesInv, doc.id));
          tx.Append(Delete(Changes, key.value.bytes));
        }
      case DeletedIndex => tx.Append(Delete(DeletedDocs, DeletedKey(doc)));
      case ViewIndex(n, _) => RemoveOldKeys(tx, n, doc.id);
      case MangoIndex(n, _, _) =>
        MangoRemove(tx, n, doc.id);
    }
  }
}
