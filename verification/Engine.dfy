/** The bbolt engine: buckets, and write transactions that log their operations
    against a snapshot and replay them on commit. */
module Engine {
  import opened ByteStrings
  import opened Documents
  import opened SortedKeys

  /** A stored value: raw bytes, or a BSON-encoded document, kept decoded. */
  datatype Value = Bin(bytes: Bytes) | Doc(doc: Document)

  datatype BucketName =
    | Docs | Leaves | AttRefs
    | Changes | ChangesInv
    | DeletedDocs
    | View(n: nat) | ViewInv(n: nat)
    | Mango(n: nat) | MangoInv(n: nat)

  datatype Bucket = Bucket(entries: map<Bytes, Value>, counter: nat)

  type Store = map<BucketName, Bucket>

  /** The callbacks goydb hands to the sequenced puts. */
  datatype KeyFn =
    | SeqIsKey     // changes: sequence to document ID
    | SeqIsValue   // changes invalidation: document ID to sequence
    | RowKey       // view row: key, sequence, key length
    | RowRecord    // view invalidation: ID, sequence, ID length to the row's key

  function SeqSuffixed(key: Bytes, seqNo: nat): Bytes {
    key + U64Key(seqNo) + U16Key(|key|)
  }

  /** New key and value; None leaves the operand as it was given. */
  function Rewrite(fn: KeyFn, k: Bytes, v: Value, seqNo: nat): (Option<Bytes>, Option<Value>) {
    match fn
    case SeqIsKey => (Some(U64Key(seqNo)), None)
    case SeqIsValue => (None, Some(Bin(U64Key(seqNo))))
    case RowKey => (Some(SeqSuffixed(k, seqNo)), None)
    case RowRecord =>
      (Some(SeqSuffixed(k, seqNo)), Some(Bin(SeqSuffixed(if v.Bin? then v.bytes else [], seqNo))))
  }

  datatype Op =
    | EnsureBucket(bucket: BucketName)
    | DeleteBucket(bucket: BucketName)
    | Put(bucket: BucketName, key: Bytes, value: Value)
    | PutWithSequence(bucket: BucketName, key: Bytes, value: Value, fn: KeyFn)
    | PutWithReusedSequence(bucket: BucketName, key: Bytes, value: Value, fn: KeyFn)
    | Delete(bucket: BucketName, key: Bytes)

  /** The store during replay, the last sequence drawn, and whether an operation failed. */
  datatype Machine = Machine(store: Store, seqNo: nat, failed: bool)

  function PutInto(m: Machine, b: BucketName, k: Bytes, v: Value): Machine
    requires b in m.store
  {
    if k == [] then m.(failed := true)
    else m.(store := m.store[b := m.store[b].(entries := m.store[b].entries[k := v])])
  }

  /** bbolt's NextSequence: bumps the bucket's counter and returns it. */
  function Draw(m: Machine, b: BucketName): Machine
    requires b in m.store
  {
    var c := m.store[b].counter + 1;
    m.(store := m.store[b := m.store[b].(counter := c)], seqNo := c)
  }

  function PutSequenced(m: Machine, b: BucketName, k: Bytes, v: Value, fn: KeyFn): Machine
    requires b in m.store
  {
    var (nk, nv) := Rewrite(fn, k, v, m.seqNo);
    PutInto(m, b, if nk.Some? then nk.value else k, if nv.Some? then nv.value else v)
  }

  function Step(op: Op, m: Machine): Machine {
    if m.failed then m
    else match op
      case EnsureBucket(b) => if b in m.store then m else m.(store := m.store[b := Bucket(map[], 0)])
      case DeleteBucket(b) => if b in m.store then m.(store := m.store - {b}) else m.(failed := true)
      case Put(b, k, v) => if b in m.store then PutInto(m, b, k, v) else m.(failed := true)
      case PutWithSequence(b, k, v, fn) =>
        if b in m.store then PutSequenced(Draw(m, b), b, k, v, fn) else m.(failed := true)
      case PutWithReusedSequence(b, k, v, fn) =>
        if b in m.store then PutSequenced(m, b, k, v, fn) else m.(failed := true)
      case Delete(b, k) =>
        if b in m.store
        then m.(store := m.store[b := m.store[b].(entries := m.store[b].entries - {k})])
        else m
  }

  function Replay(ops: seq<Op>, m: Machine): Machine {
    if ops == [] then m else Replay(ops[1..], Step(ops[0], m))
  }

  /** What a log leaves of a store when no key is too long: a failed commit is rolled
      back. */
  function Committed(ops: seq<Op>, s: Store): Store {
    var m := Replay(ops, Machine(s, 0, false));
    if m.failed then s else m.store
  }

  /** bbolt refuses longer keys. */
  const MAX_KEY: nat := 32768

  /** The length of the key an operation writes, whatever sequence is drawn for it. */
  function KeyLength(op: Op): nat {
    match op
    case Put(_, k, _) => |k|
    case PutWithSequence(_, k, _, fn) => WrittenLength(fn, k)
    case PutWithReusedSequence(_, k, _, fn) => WrittenLength(fn, k)
    case _ => 0
  }

  function WrittenLength(fn: KeyFn, k: Bytes): nat {
    match fn
    case SeqIsKey => 8
    case SeqIsValue => |k|
    case _ => |k| + 10
  }

  predicate KeysFit(ops: seq<Op>) {
    forall op :: op in ops ==> KeyLength(op) <= MAX_KEY
  }

  /** Whether the commit succeeds, and what it leaves. */
  predicate Lands(ops: seq<Op>, s: Store) {
    KeysFit(ops) && !Replay(ops, Machine(s, 0, false)).failed
  }

  function Landed(ops: seq<Op>, s: Store): Store {
    if KeysFit(ops) then Committed(ops, s) else s
  }

  /** A write transaction: reads see the snapshot, writes go to the log. */
  class WriteTransaction {
    const snapshot: Store
    var seqNo: nat
    var opLog: seq<Op>

    constructor (s: Store)
      ensures snapshot == s && seqNo == 0 && opLog == []
    {
      snapshot := s;
      seqNo := 0;
      opLog := [];
    }

    method Append(op: Op)
      modifies this`opLog
      ensures opLog == old(opLog) + [op]
    {
      opLog := opLog + [op];
    }

    function Get(b: BucketName, k: Bytes): (v: Option<Value>)
      ensures v.Some? <==> b in snapshot && k in snapshot[b].entries
      ensures v.Some? ==> v.value == snapshot[b].entries[k]
    {
      if b in snapshot && k in snapshot[b].entries then Some(snapshot[b].entries[k]) else None
    }

    /** Replays the log against the store of the update transaction. */
    method Commit(s: Store) returns (ok: bool, result: Store)
      modifies this`seqNo
      ensures ok <==> KeysFit(opLog) && !Replay(opLog, Machine(s, old(seqNo), false)).failed
      ensures result == if ok then Replay(opLog, Machine(s, old(seqNo), false)).store else s
    {
      ghost var start := Machine(s, seqNo, false);
      result := s;
      var i := 0;
      while i < |opLog|
        invariant 0 <= i <= |opLog|
        invariant Replay(opLog, start) == Replay(opLog[i..], Machine(result, seqNo, false))
        invariant KeysFit(opLog[..i])
      {
        var op := opLog[i];
        assert opLog[i..][1..] == opLog[i + 1..];
        ghost var before := Machine(result, seqNo, false);
        ok := true;
        var b := op.bucket;
        if op.EnsureBucket? {
          if b !in result { result := result[b := Bucket(map[], 0)]; }
        } else if op.DeleteBucket? {
          if b in result { result := result - {b}; } else { ok := false; }
        } else if op.Delete? {
          if b in result { result := result[b := result[b].(entries := result[b].entries - {op.key})]; }
        } else if b !in result {
          ok := false;
        } else {
          var k, v := op.key, op.value;
          if !op.Put? {
            if op.PutWithSequence? {
              seqNo := result[b].counter + 1;
              result := result[b := result[b].(counter := seqNo)];
            }
            var (nk, nv) := Rewrite(op.fn, k, v, seqNo);
            if nk.Some? { k := nk.value; }
            if nv.Some? { v := nv.value; }
          }
          assert |k| == KeyLength(op);
          if k != [] && |k| <= MAX_KEY {
            result := result[b := result[b].(entries := result[b].entries[k := v])];
          } else { ok := false; }
        }
        assert Step(op, before).failed || KeyLength(op) > MAX_KEY <==> !ok;
        if !ok {
          assert op in opLog;
          if Step(op, before).failed { FailedStays(opLog[i + 1..], Step(op, before)); }
          result := s;
          return;
        }
        assert Step(op, before) == Machine(result, seqNo, false);
        assert opLog[..i + 1] == opLog[..i] + [op];
        i := i + 1;
      }
      assert opLog[..|opLog|] == opLog;
      ok := true;
    }
  }

  /******* Properties of replay *******/

  lemma {:induction false} FailedStays(ops: seq<Op>, m: Machine)
    requires m.failed
    ensures Replay(ops, m) == m
  {
    if ops != [] { FailedStays(ops[1..], m); }
  }

  lemma {:induction false} ReplayAppend(xs: seq<Op>, ys: seq<Op>, m: Machine)
    ensures Replay(xs + ys, m) == Replay(ys, Replay(xs, m))
  {
    if xs == [] {
      assert xs + ys == ys;
    } else {
      assert (xs + ys)[1..] == xs[1..] + ys;
      ReplayAppend(xs[1..], ys, Step(xs[0], m));
    }
  }

  lemma ReplayTwo(a: Op, b: Op, m: Machine)
    ensures Replay([a, b], m) == Step(b, Step(a, m))
  {
    var ops := [a, b];
    assert ops[1..] == [b];
    assert Replay([b], Step(a, m)) == Replay([b][1..], Step(b, Step(a, m)));
  }

  ghost predicate Untouched(ops: seq<Op>, b: BucketName) {
    forall op :: op in ops ==> op.bucket != b
  }

  /** A bucket no operation names is left alone. */
  lemma {:induction false} ReplayFrame(ops: seq<Op>, m: Machine, b: BucketName)
    requires Untouched(ops, b)
    ensures b in Replay(ops, m).store <==> b in m.store
    ensures b in m.store ==> Replay(ops, m).store[b] == m.store[b]
  {
    if ops != [] {
      assert ops[0] in ops;
      assert Untouched(ops[1..], b);
      ReplayFrame(ops[1..], Step(ops[0], m), b);
    }
  }

  /** Operations that cannot fail on a store holding the given buckets. */
  ghost predicate Safe(ops: seq<Op>, names: set<BucketName>) {
    forall op :: op in ops ==>
      && op.bucket in names
      && (op.Put? ==> op.key != [])
      && !op.EnsureBucket? && !op.DeleteBucket?
      && (op.PutWithSequence? || op.PutWithReusedSequence? ==> op.fn == SeqIsValue ==> op.key != [])
  }

  lemma {:induction false} ReplaySafe(ops: seq<Op>, m: Machine)
    requires Safe(ops, m.store.Keys) && !m.failed
    ensures !Replay(ops, m).failed
    ensures Replay(ops, m).store.Keys == m.store.Keys
  {
    if ops != [] {
      var op := ops[0];
      assert op in ops;
      var next := Step(op, m);
      assert next.store.Keys == m.store.Keys;
      assert Safe(ops[1..], next.store.Keys);
      ReplaySafe(ops[1..], next);
    }
  }

  /** Every reused sequence follows one drawn in the same log. */
  predicate DrawsFirst(ops: seq<Op>) {
    ops == [] || ops[0].PutWithSequence? || (!ops[0].PutWithReusedSequence? && DrawsFirst(ops[1..]))
  }

  /** Such a log does not depend on the sequence left over from earlier. */
  lemma {:induction false} LeftoverIrrelevant(ops: seq<Op>, m: Machine, other: nat)
    requires DrawsFirst(ops)
    ensures Replay(ops, m).store == Replay(ops, m.(seqNo := other)).store
    ensures Replay(ops, m).failed == Replay(ops, m.(seqNo := other)).failed
  {
    if ops != [] {
      var a, b := Step(ops[0], m), Step(ops[0], m.(seqNo := other));
      if a == b {
      } else {
        assert b == a.(seqNo := other);
        if m.failed || a.failed {
          FailedStays(ops[1..], a);
          FailedStays(ops[1..], b);
        } else {
          assert !ops[0].PutWithSequence?;
          LeftoverIrrelevant(ops[1..], a, other);
        }
      }
    }
  }

  lemma {:induction false} DrawsFirstAppend(xs: seq<Op>, ys: seq<Op>)
    requires DrawsFirst(xs) && DrawsFirst(ys)
    ensures DrawsFirst(xs + ys)
  {
    if xs == [] {
      assert xs + ys == ys;
    } else if !xs[0].PutWithSequence? {
      assert (xs + ys)[1..] == xs[1..] + ys;
      DrawsFirstAppend(xs[1..], ys);
    }
  }

  lemma SafeAppend(xs: seq<Op>, ys: seq<Op>, names: set<BucketName>)
    requires Safe(xs, names) && Safe(ys, names)
    ensures Safe(xs + ys, names)
  {
  }
}
