// Every legal step of the FlexBuffers builder implements its step on trees.
module FlexInvariant {
  import opened Bits
  import opened Bytes
  import opened Ordering
  import opened Options
  import opened FlexWidth
  import opened FlexTypes
  import opened FlexReader
  import opened FlexSpec
  import opened FlexFields
  import opened FlexVectors
  import opened FlexObjects
  import opened FlexRuns

  // ------------------------------------------------- appending keeps the rest

  lemma KeyPoolStable(a: seq<byte>, b: seq<byte>, pool: seq<nat>)
    requires KeyPoolOk(a, pool) && a <= b
    ensures KeyPoolOk(b, pool)
  {
    forall i | 0 <= i < |pool| ensures Terminated(b, pool[i]) && CString(b, pool[i]) == CString(a, pool[i]) {
      KeyStable(a, b, pool[i]);
    }
  }

  lemma PooledStringStable(a: seq<byte>, b: seq<byte>, so: (nat, nat))
    requires PooledString(a, so) && a <= b
    ensures PooledString(b, so) && CString(b, so.0) == CString(a, so.0)
  {
    KeyStable(a, b, so.0);
    BytesStable(a, b, so.0, ByteWidth(WidthU(so.1)), CString(a, so.0));
  }

  lemma StringPoolStable(a: seq<byte>, b: seq<byte>, pool: seq<(nat, nat)>)
    requires StringPoolOk(a, pool) && a <= b
    ensures StringPoolOk(b, pool)
  {
    forall i | 0 <= i < |pool| ensures PooledString(b, pool[i]) && CString(b, pool[i].0) == CString(a, pool[i].0) {
      PooledStringStable(a, b, pool[i]);
    }
  }

  lemma PlacedStable(vals: seq<Value>, es: seq<Tree>, buf: seq<byte>)
    requires AllMean(buf, vals, es)
    ensures AllPlaced(vals, |buf|)
  {
    hide Means;
    forall i | 0 <= i < |vals| ensures Placed(vals[i], |buf|) {
      MeansTypes(buf, vals[i], es[i]);
    }
  }

  // The top of the stack from `start` on is replaced by one value.
  function Replace(st: State, start: nat, buf: seq<byte>, val: Value): State
    requires start <= |st.stack|
  {
    st.(buf := buf, stack := st.stack[..start] + [val])
  }

  lemma ReplaceKeeps(st: State, ts: seq<Tree>, start: nat, buf: seq<byte>, val: Value, v: Tree)
    requires Inv(st, ts) && start <= |st.stack| && st.buf <= buf && Means(buf, val, v)
    requires |buf| <= MAX_SIZE && start + 9 <= MAX_SIZE / 8
    ensures Inv(Replace(st, start, buf, val), ts[..start] + [v])
  {
    AllMeanStable(st.buf, buf, st.stack, ts);
    KeyPoolStable(st.buf, buf, st.keyPool);
    StringPoolStable(st.buf, buf, st.stringPool);
    hide Means, KeyPoolOk, StringPoolOk;
    var stack, trees := st.stack[..start] + [val], ts[..start] + [v];
    assert AllMean(buf, stack, trees);
    PlacedStable(stack, trees, buf);
  }

  lemma PushKeeps(st: State, ts: seq<Tree>, buf: seq<byte>, val: Value, v: Tree)
    requires Inv(st, ts) && st.buf <= buf && Means(buf, val, v)
    requires |buf| <= MAX_SIZE && |st.stack| + 9 <= MAX_SIZE / 8
    ensures Inv(Push(st.(buf := buf), val), ts + [v])
  {
    ReplaceKeeps(st, ts, |ts|, buf, val, v);
    assert st.stack[..|ts|] == st.stack && ts[..|ts|] == ts;
  }

  // ------------------------------------------------------------------ scalars

  lemma InlineKeeps(st: State, ts: seq<Tree>, val: Value, v: Tree)
    requires Inv(st, ts) && Means(st.buf, val, v) && |st.stack| + 9 <= MAX_SIZE / 8
    ensures Inv(Push(st, val), ts + [v])
  {
    PushKeeps(st, ts, st.buf, val, v);
  }

  lemma IndirectKeeps(st: State, ts: seq<Tree>, bits: nat, typ: nat, bw: Width, v: Tree)
    requires Inv(st, ts) && Roomy(PushIndirect(st, bits, typ, bw))
    requires v.VIndirectInt? || v.VIndirectUInt?
    requires v.VIndirectInt? ==> typ == INDIRECT_INT && IntFits(v.i, bw) && bits == Wrap(8, v.i)
    requires v.VIndirectUInt? ==> typ == INDIRECT_UINT && bits == v.u < Capacity(bw)
    ensures Inv(PushIndirect(st, bits, typ, bw), ts + [v])
  {
    var buf := AlignTo(st.buf, bw);
    IndirectShows(st.buf, bits, typ, bw, v);
    hide Inv, Means;
    PushKeeps(st, ts, WriteScalar(buf, bits, bw), Value(|buf|, typ, bw), v);
  }

  lemma ScalarStepKeeps(st: State, ts: seq<Tree>, op: Op)
    requires op.ONull? || op.OBool? || op.OInt? || op.OUInt? || op.OIndirectInt? || op.OIndirectUInt? || op.OForce?
    requires Inv(st, ts) && CanStep(st, ts, op)
    ensures Inv(Step(st, op), TreeStep(ts, op))
  {
    match op
    case ONull => InlineKeeps(st, ts, Value(0, NULL_TYPE, 0), VNull);
    case OBool(b) => InlineKeeps(st, ts, Value(if b then 1 else 0, BOOL, 0), VBool(b));
    case OInt(i) =>
      WidthIIsLeast(i);
      hide WidthI, Wrap;
      InlineKeeps(st, ts, Value(Wrap(8, i), INT, WidthI(i)), VInt(i));
    case OUInt(u) =>
      WidthUIsLeast(u);
      hide WidthU;
      InlineKeeps(st, ts, Value(u, UINT, WidthU(u)), VUInt(u));
    case OIndirectInt(i) =>
      WidthIIsLeast(i);
      hide WidthI, Wrap, PushIndirect, Inv;
      IndirectKeeps(st, ts, Wrap(8, i), INDIRECT_INT, WidthI(i), VIndirectInt(i));
    case OIndirectUInt(u) =>
      WidthUIsLeast(u);
      hide WidthU, PushIndirect, Inv;
      IndirectKeeps(st, ts, u, INDIRECT_UINT, WidthU(u), VIndirectUInt(u));
    case OForce(_) =>
  }

  // ------------------------------------------------------------------ vectors

  lemma SliceMeans(buf: seq<byte>, vals: seq<Value>, es: seq<Tree>, start: nat)
    requires AllMean(buf, vals, es) && start <= |vals|
    ensures AllMean(buf, vals[start..], es[start..])
    ensures AllPlaced(vals[start..], |buf|)
  {
    hide Means;
    PlacedStable(vals, es, buf);
  }

  lemma MeansType(buf: seq<byte>, val: Value, v: Tree)
    requires Means(buf, val, v)
    ensures val.typ == TypeOf(v)
    ensures TypeOf(v) == KEY ==> v.VKey?
  {
  }

  lemma VectorFits(size: nat, vals: seq<Value>, start: nat, step: nat, force: Width, keys: Option<Value>, fixed: bool, bw: Width)
    requires (step == 1 || step == 2) && AllPlaced(vals, size) && (keys.Some? ==> Placed(keys.value, size))
    requires size <= MAX_SIZE && Slot(start, step, 3, |vals|) <= MAX_SIZE / 8
    requires bw == VectorWidth(size, vals, start, step, force, keys)
    ensures |vals| < Capacity(bw) && AllFit(vals, FieldLoc(size, Prefix(fixed, keys), bw), bw)
    ensures keys.Some? ==> Fits(keys.value, FieldPos(FieldLoc(size, 0, bw), 0, bw), bw)
  {
    HeadWidthSuffices(size, vals, start, step, force, keys, bw);
    hide Fits, FieldPos, FieldLoc, VectorWidth, Slot;
    forall k | 0 <= k < |vals|
      ensures Fits(vals[k], FieldPos(FieldLoc(size, Prefix(fixed, keys), bw), k, bw), bw)
    {
      ElementWidthSuffices(size, vals, start, step, force, keys, fixed, k, bw);
    }
  }

  lemma CreateExtends(buf: seq<byte>, vals: seq<Value>, typed: bool, fixed: bool, keys: Option<Value>, bw: Width)
    requires TypedOk(vals, typed, fixed)
    ensures buf <= CreateVector(buf, vals, typed, fixed, keys, bw).0
  {
    HeadLength(buf, |vals|, fixed, keys, bw);
    hide VectorHead, FieldLoc;
    BodyExtends(VectorHead(buf, |vals|, fixed, keys, bw), vals, typed, bw);
  }

  lemma UntypedStepKeeps(st: State, ts: seq<Tree>, start: nat)
    requires Inv(st, ts) && CanStep(st, ts, OVector(start, false, false))
    ensures Inv(Step(st, OVector(start, false, false)), TreeStep(ts, OVector(start, false, false)))
  {
    hide Means, VectorWidth, CreateVector, KeyPoolOk, StringPoolOk;
    var vals := st.stack[start..];
    SliceMeans(st.buf, st.stack, ts, start);
    UntypedStepFrom(st, ts, start, vals, ts[start..], VectorWidth(|st.buf|, vals, start, 1, st.force, None));
  }

  lemma UntypedStepFrom(st: State, ts: seq<Tree>, start: nat, vals: seq<Value>, es: seq<Tree>, bw: Width)
    requires Inv(st, ts) && start <= |st.stack| && start + 9 <= MAX_SIZE / 8
    requires AllMean(st.buf, vals, es) && AllPlaced(vals, |st.buf|) && Slot(start, 1, 3, |vals|) <= MAX_SIZE / 8
    requires bw == VectorWidth(|st.buf|, vals, start, 1, st.force, None)
    requires |CreateVector(st.buf, vals, false, false, None, bw).0| <= MAX_SIZE
    ensures var (b, v) := CreateVector(st.buf, vals, false, false, None, bw);
      Inv(Replace(st, start, b, v), ts[..start] + [VVector(es)])
  {
    hide Means, AllMean, VectorWidth, KeyPoolOk, StringPoolOk, CreateVector, FieldLoc, AllFit;
    VectorFits(|st.buf|, vals, start, 1, st.force, None, false, bw);
    CreateExtends(st.buf, vals, false, false, None, bw);
    VectorShows(st.buf, st.buf, vals, es, bw);
    var (b, v) := CreateVector(st.buf, vals, false, false, None, bw);
    ReplaceKeeps(st, ts, start, b, v, VVector(es));
  }

  lemma TypedElementsFrom(buf: seq<byte>, vals: seq<Value>, es: seq<Tree>, fixed: bool)
    requires AllMean(buf, vals, es)
    requires forall i :: 0 <= i < |es| ==> Decodable(TypeOf(es[i]), fixed) && TypeOf(es[i]) == TypeOf(es[0])
    ensures TypedElements(vals, es, ElementType(vals))
    ensures ElementType(vals) == if es == [] then KEY else TypeOf(es[0])
    ensures es != [] ==> Decodable(ElementType(vals), fixed)
  {
    forall i | 0 <= i < |vals| ensures vals[i].typ == TypeOf(es[i]) && (TypeOf(es[i]) == KEY ==> es[i].VKey?) {
      MeansType(buf, vals[i], es[i]);
    }
    hide Means;
  }

  lemma TypedStepKeeps(st: State, ts: seq<Tree>, start: nat, fixed: bool)
    requires Inv(st, ts) && CanStep(st, ts, OVector(start, true, fixed))
    ensures Inv(Step(st, OVector(start, true, fixed)), TreeStep(ts, OVector(start, true, fixed)))
  {
    var vals, es := st.stack[start..], ts[start..];
    SliceMeans(st.buf, st.stack, ts, start);
    TypedElementsFrom(st.buf, vals, es, fixed);
    var bw := VectorWidth(|st.buf|, vals, start, 1, st.force, None);
    VectorFits(|st.buf|, vals, start, 1, st.force, None, fixed, bw);
    CreateExtends(st.buf, vals, true, fixed, None, bw);
    hide Inv, AllMean, AllFit, FieldLoc, VectorWidth, Means, TypedElements;
    TypedVectorShows(st.buf, st.buf, vals, es, fixed, bw);
    hide CreateVector;
    var (b, v) := CreateVector(st.buf, vals, true, fixed, None, bw);
    ReplaceKeeps(st, ts, start, b, v, VTyped(v.typ, es));
  }

  // -------------------------------------------------------- vectors of scalars

  lemma ScalarMeans(buf: seq<byte>, typ: nat, bw: Width, i: int)
    requires (typ == INT || typ == UINT || typ == BOOL) && ScalarIn(typ, bw, i)
    ensures Means(buf, Value(Wrap(8, i), typ, bw), ScalarTree(typ, i))
    ensures TypeOf(ScalarTree(typ, i)) == typ
  {
    if typ != INT {
      CapacityBound(bw);
      RangeAt();
      DivModUnique(i, TWO_64, 0, i);
    }
  }

  lemma ScalarVectorKeeps(st: State, ts: seq<Tree>, typ: nat, bw: Width, elems: seq<int>, fixed: bool)
    requires Inv(st, ts) && CanStep(st, ts, OScalars(typ, bw, elems, fixed))
    ensures Inv(Step(st, OScalars(typ, bw, elems, fixed)), TreeStep(ts, OScalars(typ, bw, elems, fixed)))
  {
    var op := OScalars(typ, bw, elems, fixed);
    var vals, es := ScalarValues(Images(elems), typ, bw), ScalarTrees(typ, elems);
    var t := ToTypedVector(typ, if fixed then |elems| else 0);
    var head := VectorHead(st.buf, |elems|, fixed, None, bw);
    var val := Value(|head|, t, bw);
    hide Wrap, VectorHead, WidthU;
    assert Step(st, op) == Push(st.(buf := WriteFields(head, vals, bw)), val);
    assert |vals| < Capacity(bw) by {
      WidthUIsLeast(|elems|);
      CapacityGrows(WidthU(|elems|), bw);
    }
    ScalarVectorShows(st.buf, typ, bw, elems, fixed);
    hide Means, Inv, ToTypedVector;
    PushKeeps(st, ts, WriteFields(head, vals, bw), val, VTyped(t, es));
  }

  lemma ScalarsMean(buf: seq<byte>, head: nat, typ: nat, bw: Width, elems: seq<int>)
    requires (typ == INT || typ == UINT || typ == BOOL) && forall i :: 0 <= i < |elems| ==> ScalarIn(typ, bw, elems[i])
    ensures var vals, es := ScalarValues(Images(elems), typ, bw), ScalarTrees(typ, elems);
      AllMean(buf, vals, es) && TypedElements(vals, es, typ) && AllFit(vals, head, bw)
  {
    var vals, es := ScalarValues(Images(elems), typ, bw), ScalarTrees(typ, elems);
    hide Wrap, ScalarIn, ScalarTree;
    forall i | 0 <= i < |vals|
      ensures Means(buf, vals[i], es[i]) && vals[i].typ == typ && vals[i].width == bw
    {
      ScalarMeans(buf, typ, bw, elems[i]);
    }
    hide Means, FieldPos;
  }

  lemma VectorsAreObjects(typ: nat, n: nat)
    requires IsTypedVectorElementType(typ) && (n == 0 || 2 <= n <= 4) && (n != 0 ==> typ <= FLOAT)
    ensures !IsInline(ToTypedVector(typ, n))
  {
  }

  lemma ScalarVectorShows(buf: seq<byte>, typ: nat, bw: Width, elems: seq<int>, fixed: bool)
    requires Decodable(typ, fixed) && typ != KEY && |elems| < Capacity(bw) && (fixed ==> 2 <= |elems| <= 4)
    requires forall i :: 0 <= i < |elems| ==> ScalarIn(typ, bw, elems[i])
    ensures var head := VectorHead(buf, |elems|, fixed, None, bw);
            var b := WriteFields(head, ScalarValues(Images(elems), typ, bw), bw);
            var t := ToTypedVector(typ, if fixed then |elems| else 0);
      buf <= b && Means(b, Value(|head|, t, bw), VTyped(t, ScalarTrees(typ, elems)))
  {
    var vals, es := ScalarValues(Images(elems), typ, bw), ScalarTrees(typ, elems);
    var head := VectorHead(buf, |elems|, fixed, None, bw);
    var t := ToTypedVector(typ, if fixed then |elems| else 0);
    hide Means, Wrap, VectorHead, AllMean, AllFit, TypedElements, TypedShape, ToTypedVector, ObjShows, WriteFields, ScalarValues,
      Images, ScalarTrees, ScalarIn, Capacity;
    ScalarsMean(buf, |head|, typ, bw, elems);
    HeadLength(buf, |elems|, fixed, None, bw);
    TypedHeadReads(buf, |elems|, typ, fixed, bw);
    TypedBodyShows(buf, head, vals, es, t, typ, bw);
    BodyExtends(head, vals, true, bw);
    VectorsAreObjects(typ, if fixed then |elems| else 0);
    ObjectMeans(WriteFields(head, vals, bw), |head|, t, bw, VTyped(t, es));
  }
}
