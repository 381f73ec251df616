// How much a run of calls can write: a bound the caller can compute from the
// calls alone, under which everything fits in memory.
module FlexMemory {
  import opened Bits
  import opened Bytes
  import opened Alignment
  import opened Ordering
  import opened Options
  import opened FlexWidth
  import opened FlexTypes
  import opened FlexReader
  import opened FlexSpec
  import opened FlexFields
  import opened FlexRuns
  import opened FlexRoundTrip
  import opened FlexTrees
  import opened FlexDecode

  // At most this many bytes are written by a call, plus one for its place on
  // the stack, when the stack holds values for `n` trees.
  function Cost(n: nat, op: Op): nat {
    match op
    case OIndirectInt(_) => 16
    case OIndirectUInt(_) => 16
    case OKey(s) => |s| + 2
    case OString(s) => |s| + 17
    case OBlob(s) => |s| + 16
    case OScalars(_, _, elems, _) => 8 * |elems| + 16
    case OVector(start, _, _) => if start <= n then 9 * (n - start) + 16 else 1
    case OMap(start) => if start <= n then 9 * (n - start) + 47 else 1
    case _ => 1
  }

  function RunCost(ts: seq<Tree>, ops: seq<Op>): nat
    decreases |ops|
  {
    if ops == [] then 0 else Cost(|ts|, ops[0]) + RunCost(TreeStep(ts, ops[0]), ops[1..])
  }

  // Almost 2^58 bytes, and as many values on the stack.
  const LIMIT: nat := MAX_SIZE / 8 - 8

  // ------------------------------------------------------------- single calls

  lemma AlignBound(buf: seq<byte>, bw: Width)
    ensures |buf| <= |AlignTo(buf, bw)| <= |buf| + 7
  {
    hide Padding;
  }

  lemma {:induction false} FieldsBound(buf: seq<byte>, vals: seq<Value>, bw: Width)
    ensures |buf| <= |WriteFields(buf, vals, bw)| <= |buf| + 8 * |vals|
  {
    hide ToLE, Wrap;
    if vals != [] {
      FieldsBound(buf, vals[..|vals| - 1], bw);
    }
  }

  lemma HeadBound(buf: seq<byte>, len: nat, fixed: bool, keys: Option<Value>, bw: Width)
    ensures |buf| <= |VectorHead(buf, len, fixed, keys, bw)| <= |buf| + (if keys.Some? then 31 else 15)
  {
    AlignBound(buf, bw);
    hide AlignTo, ToLE, Wrap;
  }

  lemma VectorBound(buf: seq<byte>, vals: seq<Value>, typed: bool, fixed: bool, keys: Option<Value>, bw: Width)
    requires TypedOk(vals, typed, fixed)
    ensures var (b, v) := CreateVector(buf, vals, typed, fixed, keys, bw);
      |buf| <= |b| <= |buf| + 9 * |vals| + (if keys.Some? then 31 else 15) && v.bits <= |b|
    ensures typed ==> |CreateVector(buf, vals, typed, fixed, keys, bw).0| <= |buf| + 8 * |vals| + (if keys.Some? then 31 else 15)
  {
    var head := VectorHead(buf, |vals|, fixed, keys, bw);
    HeadBound(buf, |vals|, fixed, keys, bw);
    FieldsBound(head, vals, bw);
    hide VectorHead, WriteFields, TypeBytes, VectorType;
  }

  lemma BlobBound(buf: seq<byte>, data: seq<byte>, trailing: seq<byte>, typ: nat)
    requires |data| < TWO_64
    ensures var (b, v) := CreateBlob(buf, data, trailing, typ);
      |buf| <= |b| <= |buf| + |data| + |trailing| + 15 && v.bits <= |b|
  {
    AlignBound(buf, WidthU(|data|));
    hide AlignTo, WidthU, ToLE;
  }

  // The new state is in bounds: what was placed still is, and so is the new value.
  ghost predicate Bounded(st: State, t: State, bytes: nat) {
    |t.buf| <= |st.buf| + bytes && |t.stack| <= |st.stack| + 1 && AllPlaced(t.stack, |t.buf|)
  }

  lemma FoldBounded(st: State, start: nat, buf: seq<byte>, v: Value, bytes: nat)
    requires AllPlaced(st.stack, |st.buf|) && |st.buf| <= |buf| <= |st.buf| + bytes && Placed(v, |buf|) && start <= |st.stack|
    ensures Bounded(st, st.(buf := buf, stack := st.stack[..start] + [v]), bytes)
  {
  }

  lemma StringBounded(st: State, s: seq<byte>)
    requires Roomy(st) && PoolsTerminated(st) && |s| < TWO_64 && PoolPlaced(st)
    ensures Bounded(st, String(st, s), |s| + 16)
  {
    BlobBound(st.buf, s, [0], STRING);
    var (buf, v) := CreateBlob(st.buf, s, [0], STRING);
    hide CreateBlob;
    BlobTerminated(st.buf, s, STRING);
    PoolsStayTerminated(st, buf);
    if st.shareStrings {
      FoundPlaced(st, buf, (v.bits, |s|));
    }
    hide FindString;
  }

  // Pooled offsets point into the buffer.
  predicate PoolPlaced(st: State) {
    && (forall i :: 0 <= i < |st.keyPool| ==> st.keyPool[i] <= |st.buf|)
    && (forall i :: 0 <= i < |st.stringPool| ==> st.stringPool[i].0 <= |st.buf|)
  }

  lemma TerminatedPlaced(st: State)
    requires PoolsTerminated(st)
    ensures PoolPlaced(st)
  {
  }

  lemma FoundPlaced(st: State, buf: seq<byte>, so: (nat, nat))
    requires PoolPlaced(st) && StringsTerminated(buf, st.stringPool) && Terminated(buf, so.0)
    ensures var f := FindString(buf, st.stringPool, so); f.Some? ==> f.value.0 <= |st.buf|
  {
    StringFromPool(buf, st.stringPool, so);
  }

  lemma {:induction false} StringFromPool(buf: seq<byte>, pool: seq<(nat, nat)>, so: (nat, nat))
    requires StringsTerminated(buf, pool) && Terminated(buf, so.0)
    ensures var f := FindString(buf, pool, so); f.Some? ==> exists i :: 0 <= i < |pool| && pool[i] == f.value
  {
    hide SameString, Terminated;
    if pool != [] && !SameString(buf, pool[0], so) {
      StringFromPool(buf, pool[1..], so);
      if FindString(buf, pool[1..], so).Some? {
        var i :| 0 <= i < |pool[1..]| && pool[1..][i] == FindString(buf, pool[1..], so).value;
        assert pool[i + 1] == pool[1..][i];
      }
    } else if pool != [] {
      assert pool[0] == FindString(buf, pool, so).value;
    }
  }

  lemma {:induction false} KeyFromPool(buf: seq<byte>, pool: seq<nat>, off: nat)
    requires KeysTerminated(buf, pool) && Terminated(buf, off)
    ensures var f := FindKey(buf, pool, off); f.Some? ==> exists i :: 0 <= i < |pool| && pool[i] == f.value
  {
    hide SameKey, Terminated;
    if pool != [] && !SameKey(buf, pool[0], off) {
      KeyFromPool(buf, pool[1..], off);
      if FindKey(buf, pool[1..], off).Some? {
        var i :| 0 <= i < |pool[1..]| && pool[1..][i] == FindKey(buf, pool[1..], off).value;
        assert pool[i + 1] == pool[1..][i];
      }
    } else if pool != [] {
      assert pool[0] == FindKey(buf, pool, off).value;
    }
  }

  lemma KeyBounded(st: State, s: seq<byte>)
    requires Roomy(st) && PoolsTerminated(st) && PoolPlaced(st)
    ensures Bounded(st, Key(st, s), |s| + 1)
  {
    var buf := st.buf + s + [0];
    EndsTerminated(st.buf, s);
    PoolsStayTerminated(st, buf);
    if st.shareKeys {
      KeyFromPool(buf, st.keyPool, |st.buf|);
    }
    hide FindKey, KeysTerminated, StringsTerminated;
  }

  lemma IndirectBounded(st: State, bits: nat, typ: nat, bw: Width)
    requires Roomy(st)
    ensures Bounded(st, PushIndirect(st, bits, typ, bw), 15)
  {
    AlignBound(st.buf, bw);
    hide AlignTo, ToLE;
  }

  lemma ScalarsBounded(st: State, elems: seq<nat>, typ: nat, bw: Width, fixed: bool)
    requires Roomy(st) && IsInline(typ) && IsTypedVectorElementType(typ) && (fixed ==> 2 <= |elems| <= 4)
    ensures Bounded(st, ScalarVector(st, elems, typ, bw, fixed), 8 * |elems| + 15)
  {
    var head := VectorHead(st.buf, |elems|, fixed, None, bw);
    HeadBound(st.buf, |elems|, fixed, None, bw);
    FieldsBound(head, ScalarValues(elems, typ, bw), bw);
    hide VectorHead, WriteFields, ToTypedVector;
  }

  lemma EndVectorBounded(st: State, start: nat, typed: bool, fixed: bool)
    requires Roomy(st) && start <= |st.stack| && TypedOk(st.stack[start..], typed, fixed)
    ensures Bounded(st, EndVector(st, start, typed, fixed), 9 * (|st.stack| - start) + 15)
  {
    var vals := st.stack[start..];
    var bw := VectorWidth(|st.buf|, vals, start, 1, st.force, None);
    hide CreateVector, VectorWidth;
    VectorBound(st.buf, vals, typed, fixed, None, bw);
    var (buf, vec) := CreateVector(st.buf, vals, typed, fixed, None, bw);
    FoldBounded(st, start, buf, vec, 9 * |vals| + 15);
  }

  lemma KeysBound(st: State, start: nat)
    requires Roomy(st) && start <= |st.stack| && KeysFirst(st.stack[start..])
    ensures |st.buf| <= |CreateKeys(st, start).0| <= |st.buf| + 4 * (|st.stack| - start) + 15
  {
    PairsPlaced(st, start);
    var ks := KeysOf(SortPairs(st.buf, Pairs(st.stack[start..])));
    var bw := VectorWidth(|st.buf|, ks, start, 2, st.force, None);
    hide CreateVector, VectorWidth, SortPairs, Pairs;
    VectorBound(st.buf, ks, true, false, None, bw);
  }

  lemma EndMapBounded(st: State, start: nat)
    requires Roomy(st) && start <= |st.stack| && KeysFirst(st.stack[start..]) && |CreateKeys(st, start).0| <= MAX_SIZE
    ensures Bounded(st, EndMap(st, start), 9 * (|st.stack| - start) + 46)
  {
    KeysBound(st, start);
    MapPlaced(st, start);
    var ps := SortPairs(st.buf, Pairs(st.stack[start..]));
    var (buf1, keys) := CreateKeys(st, start);
    var bw := VectorWidth(|buf1|, ValsOf(ps), start + 1, 2, st.force, Some(keys));
    hide CreateVector, VectorWidth, SortPairs, Pairs, CreateKeys;
    VectorBound(buf1, ValsOf(ps), false, false, Some(keys), bw);
    var (buf2, vec) := CreateVector(buf1, ValsOf(ps), false, false, Some(keys), bw);
    assert |ValsOf(ps)| == |ps|;
    FoldBounded(st, start, buf2, vec, 9 * (|st.stack| - start) + 46);
  }

  lemma StepBounded(st: State, op: Op)
    requires Roomy(st) && PoolsTerminated(st) && Legal(st, op)
    ensures Bounded(st, Step(st, op), Cost(|st.stack|, op) - 1)
  {
    TerminatedPlaced(st);
    hide PoolsTerminated, PoolPlaced, String, Key, Blob, PushIndirect, ScalarVector, EndVector, EndMap, CreateKeys, Bounded;
    match op
    case OIndirectInt(i) => IndirectBounded(st, Wrap(8, i), INDIRECT_INT, WidthI(i));
    case OIndirectUInt(u) => IndirectBounded(st, u, INDIRECT_UINT, WidthU(u));
    case OKey(s) => KeyBounded(st, s);
    case OString(s) => StringBounded(st, s);
    case OBlob(s) => BlobBounded(st, s);
    case OScalars(typ, bw, elems, fixed) => ScalarsBounded(st, Images(elems), typ, bw, fixed);
    case OVector(start, typed, fixed) => EndVectorBounded(st, start, typed, fixed);
    case OMap(start) => EndMapBounded(st, start);
    case _ => InlineBounded(st, op);
  }

  lemma BlobBounded(st: State, s: seq<byte>)
    requires Roomy(st) && |s| < TWO_64
    ensures Bounded(st, Blob(st, s), |s| + 15)
  {
    BlobBound(st.buf, s, [], BLOB);
    hide CreateBlob;
  }

  lemma InlineBounded(st: State, op: Op)
    requires Roomy(st) && PoolsTerminated(st) && Legal(st, op)
    requires op.ONull? || op.OBool? || op.OInt? || op.OUInt? || op.OForce?
    ensures Bounded(st, Step(st, op), 0)
  {
    hide PoolsTerminated;
  }

  // -------------------------------------------------------------------- runs

  lemma InvLengths(st: State, ts: seq<Tree>)
    requires Inv(st, ts)
    ensures |st.stack| == |ts| && PoolsTerminated(st) && Roomy(st)
  {
    hide Means, BytesAt;
  }

  // A call that fits has the memory it needs.
  lemma StepHasMemory(st: State, ts: seq<Tree>, op: Op)
    requires Inv(st, ts) && PoolsTerminated(st)
    requires |st.buf| + Cost(|ts|, op) <= LIMIT && |st.stack| + 1 <= LIMIT
    ensures Memory(st, op)
  {
    InvLengths(st, ts);
    hide Inv, PoolsTerminated, Step, Legal, CreateKeys;
    if op.OMap? && op.start <= |st.stack| && KeysFirst(st.stack[op.start..]) {
      KeysBound(st, op.start);
    }
    ArgumentsSmall(|ts|, op);
    if Legal(st, op) {
      StepBounded(st, op);
      RoomAfter(st, Step(st, op), Cost(|ts|, op) - 1);
    }
    hide Roomy, Bounded;
  }

  lemma ArgumentsSmall(n: nat, op: Op)
    requires Cost(n, op) <= LIMIT
    ensures op.OKey? || op.OString? ==> |op.chars| <= MAX_SIZE
    ensures op.OBlob? ==> |op.bytes| <= MAX_SIZE
    ensures op.OScalars? ==> |op.elems| <= MAX_SIZE
  {
  }

  lemma RoomAfter(st: State, t: State, bytes: nat)
    requires Bounded(st, t, bytes) && |st.buf| + bytes <= LIMIT && |st.stack| + 1 <= LIMIT
    ensures Roomy(t)
  {
    hide AllPlaced;
  }

  // A bound on the cost of the calls is all the memory a run needs.
  lemma {:induction false} RunFits(st: State, ts: seq<Tree>, ops: seq<Op>)
    requires Inv(st, ts) && ExpressibleRun(ts, ops, st.shareStrings)
    requires |st.buf| + RunCost(ts, ops) <= LIMIT && |st.stack| + RunCost(ts, ops) <= LIMIT
    ensures MemoryRun(st, ops)
    decreases |ops|
  {
    InvLengths(st, ts);
    hide Inv, Roomy, PoolsTerminated, Legal, Step, TreeStep, Expressible, Memory, Cost;
    if ops != [] {
      CostPositive(|ts|, ops[0]);
      StepHasMemory(st, ts, ops[0]);
      OneStep(st, ts, ops[0]);
      StepBounded(st, ops[0]);
      RunFits(Step(st, ops[0]), TreeStep(ts, ops[0]), ops[1..]);
    }
  }

  lemma CostPositive(n: nat, op: Op)
    ensures Cost(n, op) >= 1
  {
  }

  // The round trip with a premise on the calls alone.
  lemma BoundedRunRoundTrip(shareKeys: bool, shareStrings: bool, ops: seq<Op>, v: Tree, depth: nat)
    requires ExpressibleRun([], ops, shareStrings) && RunCost([], ops) <= LIMIT
    requires TreeRun([], ops) == [v] && Depth(v) <= depth
    ensures CanRun(Initial(shareKeys, shareStrings), ops)
    ensures var st := Run(Initial(shareKeys, shareStrings), ops);
      Roomy(st) && |st.stack| == 1 && DecodeRoot(Finish(st), depth) == Some(v)
  {
    InitialInv(shareKeys, shareStrings);
    hide Inv, ExpressibleRun, RunCost, TreeRun, Depth, CanRun, Run, Finish, DecodeRoot, MemoryRun;
    RunFits(Initial(shareKeys, shareStrings), [], ops);
    RunRoundTrip(shareKeys, shareStrings, ops, v, depth);
  }

  // ------------------------------------------------------------------- trees

  // What the calls that build a tree cost.
  function Weight(v: Tree): nat
    decreases v
  {
    match v
    case VIndirectInt(_) => 16
    case VIndirectUInt(_) => 16
    case VKey(s) => |s| + 2
    case VString(s) => |s| + 17
    case VBlob(s) => |s| + 16
    case VVector(es) => WeightAll(es) + 9 * |es| + 16
    case VTyped(_, es) => WeightAll(es) + 9 * |es| + 16
    case VMap(ks, vs) => WeightEntries(ks, vs) + 18 * |ks| + 47
    case _ => 1
  }

  function WeightAll(es: seq<Tree>): nat
    decreases es
  {
    if es == [] then 0 else Weight(es[0]) + WeightAll(es[1..])
  }

  function WeightEntries(ks: seq<seq<byte>>, vs: seq<Tree>): nat
    decreases vs
  {
    if ks == [] || vs == [] then 0 else |ks[0]| + 2 + Weight(vs[0]) + WeightEntries(ks[1..], vs[1..])
  }

  lemma {:induction false} CostConcat(ts: seq<Tree>, a: seq<Op>, b: seq<Op>)
    ensures RunCost(ts, a + b) == RunCost(ts, a) + RunCost(TreeRun(ts, a), b)
    decreases |a|
  {
    hide TreeStep, Cost;
    if a == [] {
      assert a + b == b;
    } else {
      assert (a + b)[1..] == a[1..] + b;
      CostConcat(TreeStep(ts, a[0]), a[1..], b);
    }
  }

  lemma CostOne(ts: seq<Tree>, op: Op)
    ensures RunCost(ts, [op]) == Cost(|ts|, op)
  {
    hide TreeStep, Cost;
    assert [op][1..] == [] && RunCost(TreeStep(ts, op), []) == 0;
  }

  // Calls that describe `es`, then one that folds them.
  lemma CostFold(ts: seq<Tree>, a: seq<Op>, es: seq<Tree>, op: Op, share: bool)
    requires Describes(ts, a, es, share)
    ensures RunCost(ts, a + [op]) == RunCost(ts, a) + Cost(|ts| + |es|, op)
  {
    hide RunCost, TreeRun, ExpressibleRun, Cost;
    CostConcat(ts, a, [op]);
    CostOne(ts + es, op);
  }

  lemma LeafCost(v: Tree, ts: seq<Tree>)
    requires !v.VVector? && !v.VTyped? && !v.VMap?
    ensures RunCost(ts, Build(v, |ts|)) == Weight(v)
  {
    hide RunCost;
    CostOne(ts, Build(v, |ts|)[0]);
    assert |Build(v, |ts|)| == 1 && Build(v, |ts|) == [Build(v, |ts|)[0]];
  }

  lemma VectorCost(ts: seq<Tree>, a: seq<Op>, es: seq<Tree>, typed: bool, fixed: bool, share: bool)
    requires Describes(ts, a, es, share)
    ensures RunCost(ts, a + [OVector(|ts|, typed, fixed)]) == RunCost(ts, a) + 9 * |es| + 16
  {
    hide RunCost, Describes;
    CostFold(ts, a, es, OVector(|ts|, typed, fixed), share);
  }

  lemma MapCost(ts: seq<Tree>, a: seq<Op>, es: seq<Tree>, share: bool)
    requires Describes(ts, a, es, share)
    ensures RunCost(ts, a + [OMap(|ts|)]) == RunCost(ts, a) + 9 * |es| + 47
  {
    hide RunCost, Describes;
    CostFold(ts, a, es, OMap(|ts|), share);
  }

  lemma EmptyTypedCost(t: nat, ts: seq<Tree>, share: bool)
    requires TypedWritable(t, []) && t != VECTOR_KEY
    ensures RunCost(ts, Build(VTyped(t, []), |ts|)) == Weight(VTyped(t, []))
  {
    CostOne(ts, OScalars(ToTypedVectorElementType(t), 0, [], false));
    hide RunCost;
  }

  lemma {:induction false} BuildCost(v: Tree, ts: seq<Tree>, share: bool)
    requires Writable(v, share)
    ensures RunCost(ts, Build(v, |ts|)) == Weight(v)
    decreases v
  {
    hide Describes, RunCost, TypedWritable, Normal, BuildAll, BuildEntries, WeightAll, WeightEntries, NormalAll, Interleave;
    match v
    case VVector(es) =>
      BuildAllCost(es, ts, share);
      BuildAllDescribes(es, ts, share);
      VectorCost(ts, BuildAll(es, |ts|), NormalAll(es), false, false, share);
    case VTyped(t, es) =>
      if es == [] && t != VECTOR_KEY {
        EmptyTypedCost(t, ts, share);
      } else {
        BuildAllCost(es, ts, share);
        BuildAllDescribes(es, ts, share);
        VectorCost(ts, BuildAll(es, |ts|), NormalAll(es), true, IsFixedTypedVector(t), share);
      }
    case VMap(ks, vs) =>
      BuildEntriesCost(ks, vs, ts, share);
      BuildEntriesDescribe(ks, vs, ts, share);
      MapCost(ts, BuildEntries(ks, vs, |ts|), Interleave(ks, NormalAll(vs)), share);
    case _ => LeafCost(v, ts);
  }

  lemma {:induction false} BuildAllCost(es: seq<Tree>, ts: seq<Tree>, share: bool)
    requires AllWritable(es, share)
    ensures RunCost(ts, BuildAll(es, |ts|)) == WeightAll(es)
    decreases es
  {
    if es != [] {
      hide Describes, Build, Normal, RunCost, Weight, Writable, NormalAll;
      var n := [Normal(es[0])];
      BuildCost(es[0], ts, share);
      BuildDescribes(es[0], ts, share);
      BuildAllCost(es[1..], ts + n, share);
      assert BuildAll(es, |ts|) == Build(es[0], |ts|) + BuildAll(es[1..], |ts + n|);
      assert WeightAll(es) == Weight(es[0]) + WeightAll(es[1..]);
      hide BuildAll, WeightAll, AllWritable;
      CostThen(ts, Build(es[0], |ts|), n, BuildAll(es[1..], |ts + n|), share);
    }
  }

  lemma CostThen(ts: seq<Tree>, a: seq<Op>, es: seq<Tree>, b: seq<Op>, share: bool)
    requires Describes(ts, a, es, share)
    ensures RunCost(ts, a + b) == RunCost(ts, a) + RunCost(ts + es, b)
  {
    hide RunCost, TreeRun, ExpressibleRun;
    CostConcat(ts, a, b);
  }

  lemma {:induction false} BuildEntriesCost(ks: seq<seq<byte>>, vs: seq<Tree>, ts: seq<Tree>, share: bool)
    requires |ks| == |vs| && AllWritable(vs, share) && forall i :: 0 <= i < |ks| ==> NulFree(ks[i])
    ensures RunCost(ts, BuildEntries(ks, vs, |ts|)) == WeightEntries(ks, vs)
    decreases vs
  {
    if ks != [] {
      hide Describes, Build, Normal, BuildEntries, RunCost, Weight;
      var k, n := [VKey(ks[0])], [Normal(vs[0])];
      DescribesOne(ts, OKey(ks[0]), VKey(ks[0]), share);
      BuildCost(vs[0], ts + k, share);
      BuildDescribes(vs[0], ts + k, share);
      BuildEntriesCost(ks[1..], vs[1..], ts + k + n, share);
      CostThen(ts + k, Build(vs[0], |ts + k|), n, BuildEntries(ks[1..], vs[1..], |ts + k + n|), share);
      CostThen(ts, [OKey(ks[0])], k, Build(vs[0], |ts + k|) + BuildEntries(ks[1..], vs[1..], |ts + k + n|), share);
      CostOne(ts, OKey(ks[0]));
      BuildEntriesStep(ks, vs, |ts|, |ts + k|, |ts + k + n|);
    }
  }

  // Every tree below the limit comes back from the buffer built for it, with
  // its maps in key order, whatever the sharing flags.
  lemma BoundedTreeRoundTrip(v: Tree, shareKeys: bool, shareStrings: bool, depth: nat)
    requires Writable(v, shareStrings) && Weight(v) <= LIMIT && Depth(Normal(v)) <= depth
    ensures CanRun(Initial(shareKeys, shareStrings), Build(v, 0))
    ensures var st := Run(Initial(shareKeys, shareStrings), Build(v, 0));
      Roomy(st) && |st.stack| == 1 && DecodeRoot(Finish(st), depth) == Some(Normal(v))
  {
    BuildCost(v, [], shareStrings);
    BuildDescribes(v, [], shareStrings);
    assert [] + [Normal(v)] == [Normal(v)];
    hide RunCost, CanRun, Run, TreeRun, ExpressibleRun, Build, Normal, Writable, Finish, DecodeRoot, Weight, Depth;
    BoundedRunRoundTrip(shareKeys, shareStrings, Build(v, 0), Normal(v), depth);
  }
}
