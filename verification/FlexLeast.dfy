// Widths are the least that serve: of scalars on the stack, and of vectors.
module FlexLeast {
  import opened Bits
  import opened Bytes
  import opened Options
  import opened FlexWidth
  import opened FlexTypes
  import opened FlexReader
  import opened FlexSpec
  import opened FlexFields
  import opened FlexVectors
  import opened FlexRuns
  import opened FlexInvariant
  import opened FlexPools
  import opened FlexRoundTrip

  // ------------------------------------------------------------------- offsets

  // An offset written in fields that wide, at that place, fits.
  predicate OffsetServes(u: nat, size: nat, i: nat, bw: Width)
    requires u <= size
  {
    Reach(u, size, i, bw) < Capacity(bw)
  }

  lemma {:induction false} OffsetIsLeast(u: nat, size: nat, i: nat, bw: Width)
    requires u <= size && Reach(u, size, i, 3) < TWO_64
    requires forall k: Width :: k < bw ==> !OffsetServes(u, size, i, k)
    ensures var w := OffsetWidth(u, size, i, bw);
      OffsetServes(u, size, i, w) && forall k: Width :: k < w ==> !OffsetServes(u, size, i, k)
    decreases 3 - bw
  {
    ReachGrows(u, size, i, i, bw, 3);
    WidthUIsLeast(Reach(u, size, i, bw));
    if bw > 0 {
      ReachGrows(u, size, i, i, bw - 1, bw);
      assert !OffsetServes(u, size, i, bw - 1);
    }
    hide Reach, WidthU;
    if OffsetServes(u, size, i, bw) {
      AtLeast(Reach(u, size, i, bw), bw);
    } else if bw < 3 {
      OffsetIsLeast(u, size, i, bw + 1);
    }
  }

  lemma AtLeast(r: nat, bw: Width)
    requires r < Capacity(bw) && (bw > 0 ==> r >= Capacity(bw - 1))
    ensures r < TWO_64 && WidthU(r) == bw
  {
    CapacityGrows(bw, 3);
    WidthUIsLeast(r);
    hide WidthU;
    if bw > 0 {
      CapacityGrows(WidthU(r), bw - 1);
    }
  }

  // A width serves a value at its place: that of a scalar at least, or one at
  // which, or below which, the offset fits.
  ghost predicate ElemServes(v: Value, size: nat, i: nat, bw: Width)
    requires Placed(v, size)
  {
    if IsInline(v.typ) then v.width <= bw else exists k: Width :: k <= bw && OffsetServes(v.bits, size, i, k)
  }

  lemma ElemIsLeast(v: Value, size: nat, i: nat)
    requires Placed(v, size) && size <= MAX_SIZE && i <= MAX_SIZE / 8
    ensures forall bw: Width :: ElemServes(v, size, i, bw) <==> ElemWidth(v, size, i) <= bw
  {
    if !IsInline(v.typ) {
      ReachBound(v.bits, size, i);
      OffsetIsLeast(v.bits, size, i, 0);
      hide OffsetWidth, OffsetServes, Reach;
    }
  }

  // ------------------------------------------------------------------- vectors

  // The width serves as the forced minimum, the length, the offset to the keys
  // and every element.
  ghost predicate Serves(size: nat, vals: seq<Value>, start: nat, step: nat, force: Width, keys: Option<Value>, bw: Width)
    requires (step == 1 || step == 2) && AllPlaced(vals, size) && (keys.Some? ==> Placed(keys.value, size))
  {
    && force <= bw && |vals| < Capacity(bw)
    && (keys.Some? ==> ElemServes(keys.value, size, 0, bw))
    && forall k :: 0 <= k < |vals| ==> ElemServes(vals[k], size, Slot(start, step, PrefixElems(keys), k), bw)
  }

  lemma {:induction false} WidestIsLeast(vals: seq<Value>, size: nat, start: nat, step: nat, prefix: nat, base: Width, bw: Width)
    requires (step == 1 || step == 2) && AllPlaced(vals, size)
    requires size <= MAX_SIZE && Slot(start, step, prefix, |vals|) <= MAX_SIZE / 8
    ensures WidestElem(vals, size, start, step, prefix, base) <= bw
       <==> base <= bw && forall k :: 0 <= k < |vals| ==> ElemServes(vals[k], size, Slot(start, step, prefix, k), bw)
  {
    hide ElemWidth, ElemServes;
    if vals != [] {
      var n := |vals| - 1;
      WidestIsLeast(vals[..n], size, start, step, prefix, base, bw);
      ElemIsLeast(vals[n], size, Slot(start, step, prefix, n));
      assert forall k :: 0 <= k < n ==> vals[..n][k] == vals[k];
    }
  }

  // The width of a vector is the least that serves.
  lemma VectorWidthIsLeast(size: nat, vals: seq<Value>, start: nat, step: nat, force: Width, keys: Option<Value>, bw: Width)
    requires (step == 1 || step == 2) && AllPlaced(vals, size) && (keys.Some? ==> Placed(keys.value, size))
    requires size <= MAX_SIZE && Slot(start, step, 3, |vals|) <= MAX_SIZE / 8
    ensures FlexSpec.VectorWidth(size, vals, start, step, force, keys) <= bw <==> Serves(size, vals, start, step, force, keys, bw)
  {
    WidthUIsLeast(|vals|);
    CapacityGrows(WidthU(|vals|), bw);
    hide ElemWidth, WidestElem, WidthU, ElemServes, Capacity;
    var base := MaxWidth(force, WidthU(|vals|));
    match keys
    case None => WidestIsLeast(vals, size, start, step, 1, base, bw);
    case Some(k) =>
      ElemIsLeast(k, size, 0);
      WidestIsLeast(vals, size, start, step, 3, MaxWidth(base, ElemWidth(k, size, 0)), bw);
  }

  // ------------------------------------------------- values on the stack

  // A number or a length that the width holds and no smaller one does.
  predicate LeastU(u: nat, bw: Width) {
    u < Capacity(bw) && (bw > 0 ==> u >= Capacity(bw - 1))
  }

  predicate LeastI(i: int, bw: Width) {
    IntFits(i, bw) && (bw > 0 ==> !IntFits(i, bw - 1))
  }

  // The width of a scalar, string or blob is the least for it.
  predicate Tight(val: Value, v: Tree) {
    match v
    case VNull => val.width == 0
    case VBool(_) => val.width == 0
    case VInt(i) => LeastI(i, val.width)
    case VUInt(u) => LeastU(u, val.width)
    case VIndirectInt(i) => LeastI(i, val.width)
    case VIndirectUInt(u) => LeastU(u, val.width)
    case VKey(_) => val.width == 0
    case VString(s) => LeastU(|s|, val.width)
    case VBlob(s) => LeastU(|s|, val.width)
    case _ => true
  }

  ghost predicate AllTight(stack: seq<Value>, ts: seq<Tree>) {
    |stack| == |ts| && forall i :: 0 <= i < |stack| ==> Tight(stack[i], ts[i])
  }

  lemma WidthUIsTight(u: nat)
    requires u < TWO_64
    ensures LeastU(u, WidthU(u))
  {
    WidthUIsLeast(u);
    hide WidthU;
  }

  lemma WidthIIsTight(i: int)
    requires Int64(i)
    ensures LeastI(i, WidthI(i))
  {
    WidthIIsLeast(i);
    hide WidthI;
  }

  lemma StringTight(st: State, ts: seq<Tree>, s: seq<byte>)
    requires PoolsTerminated(st) && |s| < TWO_64 && AllTight(st.stack, ts)
    ensures AllTight(String(st, s).stack, ts + [VString(s)])
  {
    WidthUIsTight(|s|);
    assert CreateBlob(st.buf, s, [0], STRING).1.width == WidthU(|s|);
    hide CreateBlob, FindString, LeastU, WidthU;
  }

  lemma BlobTight(st: State, ts: seq<Tree>, s: seq<byte>)
    requires |s| < TWO_64 && AllTight(st.stack, ts)
    ensures AllTight(Blob(st, s).stack, ts + [VBlob(s)])
  {
    WidthUIsTight(|s|);
    assert CreateBlob(st.buf, s, [], BLOB).1.width == WidthU(|s|);
    hide CreateBlob, LeastU, WidthU;
  }

  lemma KeyTight(st: State, ts: seq<Tree>, s: seq<byte>)
    requires PoolsTerminated(st) && AllTight(st.stack, ts)
    ensures AllTight(Key(st, s).stack, ts + [VKey(s)])
  {
    hide FindKey;
  }

  lemma FoldTight(stack: seq<Value>, ts: seq<Tree>, start: nat, val: Value, v: Tree)
    requires AllTight(stack, ts) && start <= |ts| && (v.VVector? || v.VTyped? || v.VMap?)
    ensures AllTight(stack[..start] + [val], ts[..start] + [v])
  {
    hide LeastU, LeastI;
  }

  lemma VectorTight(st: State, ts: seq<Tree>, start: nat, typed: bool, fixed: bool)
    requires Roomy(st) && start <= |st.stack| && TypedOk(st.stack[start..], typed, fixed) && AllTight(st.stack, ts)
    requires Expressible(ts, OVector(start, typed, fixed), st.shareStrings)
    ensures AllTight(EndVector(st, start, typed, fixed).stack, TreeStep(ts, OVector(start, typed, fixed)))
  {
    hide CreateVector, FlexSpec.VectorWidth, Tight, TypedOk;
    var val := EndVector(st, start, typed, fixed).stack[start];
    FoldTight(st.stack, ts, start, val, TreeStep(ts, OVector(start, typed, fixed))[start]);
  }

  lemma MapTight(st: State, ts: seq<Tree>, start: nat)
    requires Roomy(st) && start <= |st.stack| && KeysFirst(st.stack[start..]) && |CreateKeys(st, start).0| <= MAX_SIZE
    requires AllTight(st.stack, ts) && KeysFirstTrees(ts[start..])
    ensures AllTight(EndMap(st, start).stack, TreeStep(ts, OMap(start)))
  {
    hide CreateVector, FlexSpec.VectorWidth, Tight, CreateKeys, SortPairs, SortEntries;
    var val := EndMap(st, start).stack[start];
    FoldTight(st.stack, ts, start, val, TreeStep(ts, OMap(start))[start]);
  }

  lemma ScalarsTight(st: State, ts: seq<Tree>, typ: nat, bw: Width, elems: seq<int>, fixed: bool)
    requires IsInline(typ) && IsTypedVectorElementType(typ) && (fixed ==> 2 <= |elems| <= 4) && AllTight(st.stack, ts)
    ensures AllTight(ScalarVector(st, Images(elems), typ, bw, fixed).stack, TreeStep(ts, OScalars(typ, bw, elems, fixed)))
  {
    hide WriteFields, VectorHead, ScalarTrees, Images, ToTypedVector;
    var t := ToTypedVector(typ, if fixed then |elems| else 0);
    FoldTight(st.stack, ts, |ts|, Value(|VectorHead(st.buf, |elems|, fixed, None, bw)|, t, bw), VTyped(t, ScalarTrees(typ, elems)));
    assert st.stack[..|ts|] == st.stack && ts[..|ts|] == ts;
  }

  lemma PlainTight(st: State, ts: seq<Tree>, op: Op)
    requires op.ONull? || op.OBool? || op.OInt? || op.OUInt? || op.OIndirectInt? || op.OIndirectUInt? || op.OForce?
    requires Inv(st, ts) && CanStep(st, ts, op) && AllTight(st.stack, ts)
    ensures AllTight(Step(st, op).stack, TreeStep(ts, op))
  {
    hide AllMean, KeyPoolOk, StringPoolOk, LeastU, LeastI, WidthI, WidthU, Wrap;
    match op
    case OInt(i) => WidthIIsTight(i);
    case OUInt(u) => WidthUIsTight(u);
    case OIndirectInt(i) => WidthIIsTight(i);
    case OIndirectUInt(u) => WidthUIsTight(u);
    case _ =>
  }

  lemma TextTight(st: State, ts: seq<Tree>, op: Op)
    requires op.OKey? || op.OString? || op.OBlob?
    requires Inv(st, ts) && CanStep(st, ts, op) && AllTight(st.stack, ts)
    ensures AllTight(Step(st, op).stack, TreeStep(ts, op))
  {
    InvPools(st, ts);
    hide AllMean, KeyPoolOk, StringPoolOk, PoolsTerminated, AllTight, String, Key, Blob;
    match op
    case OKey(s) => KeyTight(st, ts, s);
    case OString(s) => StringTight(st, ts, s);
    case OBlob(s) => BlobTight(st, ts, s);
  }

  lemma ObjectTight(st: State, ts: seq<Tree>, op: Op)
    requires op.OVector? || op.OMap? || op.OScalars?
    requires Inv(st, ts) && CanStep(st, ts, op) && AllTight(st.stack, ts)
    ensures AllTight(Step(st, op).stack, TreeStep(ts, op))
  {
    hide AllMean, KeyPoolOk, StringPoolOk, AllTight, EndVector, EndMap, ScalarVector, TypedOk, KeysFirst, CreateKeys, Decodable;
    match op
    case OVector(start, typed, fixed) => VectorTight(st, ts, start, typed, fixed);
    case OMap(start) => MapTight(st, ts, start);
    case OScalars(typ, bw, elems, fixed) => ScalarsTight(st, ts, typ, bw, elems, fixed);
  }

  // What a step leaves on top of the stack is tight.
  lemma StepTight(st: State, ts: seq<Tree>, op: Op)
    requires Inv(st, ts) && CanStep(st, ts, op) && AllTight(st.stack, ts)
    ensures AllTight(Step(st, op).stack, TreeStep(ts, op))
  {
    hide Inv, CanStep, Step, TreeStep, AllTight;
    match op
    case OKey(_) => TextTight(st, ts, op);
    case OString(_) => TextTight(st, ts, op);
    case OBlob(_) => TextTight(st, ts, op);
    case OVector(_, _, _) => ObjectTight(st, ts, op);
    case OMap(_) => ObjectTight(st, ts, op);
    case OScalars(_, _, _, _) => ObjectTight(st, ts, op);
    case _ => PlainTight(st, ts, op);
  }

  // After any run, scalars, strings and blobs on the stack have their least width.
  lemma {:induction false} RunTight(st: State, ts: seq<Tree>, ops: seq<Op>)
    requires Inv(st, ts) && ExpressibleRun(ts, ops, st.shareStrings) && MemoryRun(st, ops) && AllTight(st.stack, ts)
    ensures CanRun(st, ops) && AllTight(Run(st, ops).stack, TreeRun(ts, ops))
    decreases |ops|
  {
    RunKeeps(st, ts, ops);
    if ops != [] {
      StepIsLegal(st, ts, ops[0]);
      OneStep(st, ts, ops[0]);
      StepTight(st, ts, ops[0]);
      hide Inv, Legal, Step, TreeStep, Expressible, Memory, Roomy, PoolsTerminated, AllTight;
      RunTight(Step(st, ops[0]), TreeStep(ts, ops[0]), ops[1..]);
    }
  }

  // A scalar that a width holds is no wider on the stack.
  lemma TightServes(val: Value, v: Tree, bw: Width)
    requires Tight(val, v)
    ensures match v
      case VNull => val.width <= bw
      case VBool(_) => val.width <= bw
      case VInt(i) => val.width <= bw <==> IntFits(i, bw)
      case VUInt(u) => val.width <= bw <==> u < Capacity(bw)
      case VString(s) => val.width <= bw <==> |s| < Capacity(bw)
      case VBlob(s) => val.width <= bw <==> |s| < Capacity(bw)
      case _ => true
  {
    CapacityGrows(val.width, bw);
    if val.width > 0 {
      CapacityGrows(bw, val.width - 1);
    }
  }

  predicate IsScalar(v: Tree) {
    v.VNull? || v.VBool? || v.VInt? || v.VUInt?
  }

  predicate ScalarHeld(v: Tree, bw: Width) {
    (v.VInt? ==> IntFits(v.i, bw)) && (v.VUInt? ==> v.u < Capacity(bw))
  }

  // A vector of scalars takes the least width that is no smaller than the forced
  // one and holds the length and every element.
  lemma ScalarsTakeLeast(st: State, ts: seq<Tree>, start: nat, typed: bool, fixed: bool, bw: Width)
    requires Inv(st, ts) && AllTight(st.stack, ts) && CanStep(st, ts, OVector(start, typed, fixed))
    requires forall k :: start <= k < |ts| ==> IsScalar(ts[k])
    ensures var t := Step(st, OVector(start, typed, fixed));
      && |t.stack| == start + 1
      && (t.stack[start].width <= bw <==>
            st.force <= bw && |ts| - start < Capacity(bw) && forall k :: start <= k < |ts| ==> ScalarHeld(ts[k], bw))
  {
    hide KeyPoolOk, StringPoolOk, Tight, Capacity, CreateVector, FlexSpec.VectorWidth, Expressible;
    var vals, es := st.stack[start..], ts[start..];
    SliceMeans(st.buf, st.stack, ts, start);
    VectorWidthIsLeast(|st.buf|, vals, start, 1, st.force, None, bw);
    ScalarsServe(st.buf, vals, es, |st.buf|, start, bw);
    hide AllMean, Means;
    assert (forall k :: start <= k < |ts| ==> ScalarHeld(ts[k], bw)) <==> forall k :: 0 <= k < |es| ==> ScalarHeld(es[k], bw) by {
      assert forall k :: start <= k < |ts| ==> ts[k] == es[k - start];
    }
    WidthOfCreated(st.buf, vals, typed, fixed, FlexSpec.VectorWidth(|st.buf|, vals, start, 1, st.force, None));
  }

  lemma WidthOfCreated(buf: seq<byte>, vals: seq<Value>, typed: bool, fixed: bool, bw: Width)
    requires TypedOk(vals, typed, fixed)
    ensures CreateVector(buf, vals, typed, fixed, None, bw).1.width == bw
  {
    hide VectorHead, WriteFields, TypeBytes, VectorType;
  }

  lemma ScalarsServe(buf: seq<byte>, vals: seq<Value>, es: seq<Tree>, size: nat, start: nat, bw: Width)
    requires AllMean(buf, vals, es) && AllTight(vals, es) && AllPlaced(vals, size) && forall k :: 0 <= k < |es| ==> IsScalar(es[k])
    ensures (forall k :: 0 <= k < |vals| ==> ElemServes(vals[k], size, Slot(start, 1, PrefixElems(None), k), bw))
       <==> forall k :: 0 <= k < |es| ==> ScalarHeld(es[k], bw)
  {
    forall k | 0 <= k < |vals|
      ensures ElemServes(vals[k], size, Slot(start, 1, PrefixElems(None), k), bw) <==> ScalarHeld(es[k], bw)
    {
      MeansType(buf, vals[k], es[k]);
      TightServes(vals[k], es[k], bw);
    }
    hide Means, Tight, ElemServes, ScalarHeld;
  }
}
