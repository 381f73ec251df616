// The fields of finished vectors and maps: their width, alignment and number.  A
// forced minimum width reaches every element, so that a number can be replaced
// in place by any other that the width holds.
module FlexForce {
  import opened Bits
  import opened Bytes
  import opened Alignment
  import opened Ordering
  import opened Sorting
  import opened Options
  import opened FlexWidth
  import opened FlexTypes
  import opened FlexReader
  import opened FlexSpec
  import opened FlexFields
  import opened FlexVectors
  import opened FlexObjects
  import opened FlexRuns
  import opened FlexRoundTrip
  import opened FlexLookup
  import opened FlexMutate
  import opened FlexLeast
  import Sharing = FlexSharing

  // ------------------------------------------------------- width and alignment

  // Where an object starts, its fields are aligned.
  predicate AlignedObject(v: Value) {
    Aligned(v.bits, ByteWidth(v.width))
  }

  lemma FieldsAligned(size: nat, prefix: nat, bw: Width)
    ensures Aligned(FieldLoc(size, prefix, bw), ByteWidth(bw))
  {
    var n := size + Padding(size, ByteWidth(bw));
    hide Padding;
    if bw == 1 {
      DivModUnique(n + 2 * prefix, 2, n / 2 + prefix, 0);
    } else if bw == 2 {
      DivModUnique(n + 4 * prefix, 4, n / 4 + prefix, 0);
    } else if bw == 3 {
      DivModUnique(n + 8 * prefix, 8, n / 8 + prefix, 0);
    }
  }

  // Strings, blobs and indirect numbers start at a multiple of their width, behind
  // the length and the least padding.
  lemma TextAligned(buf: seq<byte>, data: seq<byte>, trailing: seq<byte>, typ: nat)
    requires |data| < TWO_64
    ensures var (b, v) := CreateBlob(buf, data, trailing, typ);
      AlignedObject(v) && |b| < |buf| + 2 * ByteWidth(v.width) + |data| + |trailing|
  {
    var bw := WidthU(|data|);
    FieldsAligned(|buf|, 1, bw);
    hide WidthU, ToLE, Padding, Aligned;
  }

  lemma IndirectAligned(st: State, bits: nat, typ: nat, bw: Width)
    ensures AlignedObject(PushIndirect(st, bits, typ, bw).stack[|st.stack|])
  {
    FieldsAligned(|st.buf|, 0, bw);
    hide ToLE, Padding, Aligned;
  }

  lemma CreatedAligned(buf: seq<byte>, vals: seq<Value>, typed: bool, fixed: bool, keys: Option<Value>, bw: Width)
    requires TypedOk(vals, typed, fixed)
    ensures var v := CreateVector(buf, vals, typed, fixed, keys, bw).1; v.width == bw && AlignedObject(v)
  {
    HeadLength(buf, |vals|, fixed, keys, bw);
    FieldsAligned(|buf|, Prefix(fixed, keys), bw);
    hide VectorHead, WriteFields, TypeBytes, VectorType, FieldLoc, Aligned;
  }

  lemma VectorForced(st: State, start: nat, typed: bool, fixed: bool)
    requires Roomy(st) && start <= |st.stack| && TypedOk(st.stack[start..], typed, fixed)
    ensures var t := EndVector(st, start, typed, fixed);
      |t.stack| == start + 1 && t.stack[start].width >= st.force && AlignedObject(t.stack[start])
  {
    var vals := st.stack[start..];
    var bw := FlexSpec.VectorWidth(|st.buf|, vals, start, 1, st.force, None);
    VectorWidthCovers(|st.buf|, vals, start, 1, st.force, None, 0);
    CreatedAligned(st.buf, vals, typed, fixed, None, bw);
    hide CreateVector, FlexSpec.VectorWidth, TypedOk, AlignedObject;
  }

  lemma MapForced(st: State, start: nat)
    requires Roomy(st) && start <= |st.stack| && KeysFirst(st.stack[start..]) && |CreateKeys(st, start).0| <= MAX_SIZE
    ensures var t := EndMap(st, start);
      |t.stack| == start + 1 && t.stack[start].width >= st.force && AlignedObject(t.stack[start])
    ensures CreateKeys(st, start).1.width >= st.force && AlignedObject(CreateKeys(st, start).1)
  {
    MapPlaced(st, start);
    KeysForced(st, start);
    hide CreateKeys, SortPairs;
    var vals, keys, buf := ValsOf(SortPairs(st.buf, Pairs(st.stack[start..]))), CreateKeys(st, start).1, CreateKeys(st, start).0;
    var bw := FlexSpec.VectorWidth(|buf|, vals, start + 1, 2, st.force, Some(keys));
    VectorWidthCovers(|buf|, vals, start + 1, 2, st.force, Some(keys), 0);
    CreatedAligned(buf, vals, false, false, Some(keys), bw);
    hide CreateVector, FlexSpec.VectorWidth, AlignedObject, ValsOf, Pairs;
  }

  lemma KeysForced(st: State, start: nat)
    requires Roomy(st) && start <= |st.stack| && KeysFirst(st.stack[start..])
    ensures CreateKeys(st, start).1.width >= st.force && AlignedObject(CreateKeys(st, start).1)
  {
    PairsPlaced(st, start);
    hide SortPairs;
    var ks := KeysOf(SortPairs(st.buf, Pairs(st.stack[start..])));
    var bw := FlexSpec.VectorWidth(|st.buf|, ks, start, 2, st.force, None);
    VectorWidthCovers(|st.buf|, ks, start, 2, st.force, None, 0);
    CreatedAligned(st.buf, ks, true, false, None, bw);
    hide CreateVector, FlexSpec.VectorWidth, TypedOk, AlignedObject, KeysOf, Pairs;
  }

  // A vector, and each of the two vectors of a map, takes the least width that
  // serves, each element at the index it has on the stack.
  lemma VectorTakesLeast(st: State, start: nat, typed: bool, fixed: bool, bw: Width)
    requires Roomy(st) && start <= |st.stack| && TypedOk(st.stack[start..], typed, fixed)
    ensures var t := EndVector(st, start, typed, fixed);
      && |t.stack| == start + 1
      && (t.stack[start].width <= bw <==> Serves(|st.buf|, st.stack[start..], start, 1, st.force, None, bw))
  {
    var vals := st.stack[start..];
    VectorWidthIsLeast(|st.buf|, vals, start, 1, st.force, None, bw);
    CreatedAligned(st.buf, vals, typed, fixed, None, FlexSpec.VectorWidth(|st.buf|, vals, start, 1, st.force, None));
    hide CreateVector, FlexSpec.VectorWidth, TypedOk, AlignedObject, Serves;
  }

  lemma MapTakesLeast(st: State, start: nat, bw: Width)
    requires Roomy(st) && start <= |st.stack| && KeysFirst(st.stack[start..]) && |CreateKeys(st, start).0| <= MAX_SIZE
    ensures var ps := SortPairs(st.buf, Pairs(st.stack[start..])); var (buf, keys) := CreateKeys(st, start); var t := EndMap(st, start);
      && |t.stack| == start + 1
      && (MapPlaced(st, start); t.stack[start].width <= bw <==>
            Serves(|buf|, ValsOf(ps), start + 1, 2, st.force, Some(keys), bw))
      && (PairsPlaced(st, start); keys.width <= bw <==> Serves(|st.buf|, KeysOf(ps), start, 2, st.force, None, bw))
  {
    MapPlaced(st, start);
    PairsPlaced(st, start);
    KeysTakeLeast(st, start, bw);
    hide CreateKeys, SortPairs;
    var vals, keys, buf := ValsOf(SortPairs(st.buf, Pairs(st.stack[start..]))), CreateKeys(st, start).1, CreateKeys(st, start).0;
    VectorWidthIsLeast(|buf|, vals, start + 1, 2, st.force, Some(keys), bw);
    CreatedAligned(buf, vals, false, false, Some(keys), FlexSpec.VectorWidth(|buf|, vals, start + 1, 2, st.force, Some(keys)));
    hide CreateVector, FlexSpec.VectorWidth, AlignedObject, ValsOf, KeysOf, Pairs, Serves, Placed;
  }

  lemma KeysTakeLeast(st: State, start: nat, bw: Width)
    requires Roomy(st) && start <= |st.stack| && KeysFirst(st.stack[start..])
    ensures var ps := SortPairs(st.buf, Pairs(st.stack[start..]));
      (PairsPlaced(st, start); CreateKeys(st, start).1.width <= bw <==> Serves(|st.buf|, KeysOf(ps), start, 2, st.force, None, bw))
  {
    PairsPlaced(st, start);
    hide SortPairs;
    var ks := KeysOf(SortPairs(st.buf, Pairs(st.stack[start..])));
    VectorWidthIsLeast(|st.buf|, ks, start, 2, st.force, None, bw);
    CreatedAligned(st.buf, ks, true, false, None, FlexSpec.VectorWidth(|st.buf|, ks, start, 2, st.force, None));
    hide CreateVector, FlexSpec.VectorWidth, TypedOk, AlignedObject, KeysOf, Pairs, Serves;
  }

  // A vector of C++ scalars keeps the width of their type.
  lemma ScalarsKeepWidth(st: State, elems: seq<nat>, typ: nat, bw: Width, fixed: bool)
    requires IsInline(typ) && IsTypedVectorElementType(typ) && (fixed ==> 2 <= |elems| <= 4)
    ensures var t := ScalarVector(st, elems, typ, bw, fixed);
      |t.stack| == |st.stack| + 1 && t.stack[|st.stack|].width == bw && AlignedObject(t.stack[|st.stack|])
  {
    HeadLength(st.buf, |elems|, fixed, None, bw);
    FieldsAligned(|st.buf|, Prefix(fixed, None), bw);
    hide VectorHead, WriteFields, FieldLoc, Aligned;
  }

  // The forced width is the one set last.
  function ForcedBy(ops: seq<Op>, force: Width): Width {
    if ops == [] then force
    else ForcedBy(ops[1..], match ops[0] case OForce(bw) => bw case _ => force)
  }

  lemma StepForce(st: State, op: Op)
    requires Roomy(st) && PoolsTerminated(st) && Legal(st, op)
    ensures Step(st, op).force == match op case OForce(bw) => bw case _ => st.force
  {
    hide CreateVector, CreateBlob, FlexSpec.VectorWidth, FindKey, FindString, CreateKeys;
  }

  lemma {:induction false} RunForce(st: State, ops: seq<Op>)
    requires CanRun(st, ops)
    ensures Run(st, ops).force == ForcedBy(ops, st.force)
    decreases |ops|
  {
    if ops != [] {
      StepForce(st, ops[0]);
      hide Legal, Step;
      RunForce(Step(st, ops[0]), ops[1..]);
    }
  }

  // ---------------------------------------------------------------- references

  // The elements of a vector, or the values of a map.
  function Elements(v: Tree): seq<Tree>
    requires v.VVector? || v.VTyped? || v.VMap?
  {
    match v
    case VVector(es) => es
    case VTyped(_, es) => es
    case VMap(_, vs) => vs
    case _ => []
  }

  // The reference to element `k`, as `operator[]` gives it.
  function ElementRef(buf: seq<byte>, val: Value, v: Tree, k: nat): Option<Ref> {
    var p, w := val.bits, ByteWidth(val.width);
    if v.VTyped? then
      var shape :- TypedShape(buf, val.typ, p, w);
      Some(TypedElement(p, w, shape.0, k))
    else VectorAt(buf, p, w, k)
  }

  lemma ElementRefIs(buf: seq<byte>, val: Value, v: Tree, k: nat)
    requires Means(buf, val, v) && (v.VVector? || v.VTyped? || v.VMap?) && k < |Elements(v)|
    ensures var r := ElementRef(buf, val, v, k);
      && r.Some? && r.value.parentWidth == ByteWidth(val.width)
      && r.value.pos == val.bits + k * ByteWidth(val.width)
      && RefShows(buf, r.value, Elements(v)[k])
  {
    hide Size, RefShows, KeysShow, UnpackType, UnpackWidth, TypedShape;
    if v.VTyped? {
      assert TypedShow(buf, val.bits, ByteWidth(val.width), TypedShape(buf, val.typ, val.bits, ByteWidth(val.width)).value.0, v.elems);
    } else {
      assert ElemsShow(buf, val.bits, ByteWidth(val.width), Elements(v));
    }
  }

  lemma ElementAligned(p: nat, k: nat, bw: Width)
    requires Aligned(p, ByteWidth(bw))
    ensures Aligned(p + k * ByteWidth(bw), ByteWidth(bw))
  {
    if bw == 1 {
      DivModUnique(p + k * 2, 2, p / 2 + k, 0);
    } else if bw == 2 {
      DivModUnique(p + k * 4, 4, p / 4 + k, 0);
    } else if bw == 3 {
      DivModUnique(p + k * 8, 8, p / 8 + k, 0);
    }
  }

  // Past the end there is null.
  lemma BeyondIsNull(buf: seq<byte>, val: Value, v: Tree, k: nat)
    requires Means(buf, val, v) && (v.VVector? || v.VMap?) && k >= |Elements(v)|
    ensures ElementRef(buf, val, v, k) == Some(NULL_REF)
  {
    hide Size, RefShows, KeysShow, ElemsShow;
  }

  // The type byte of a scalar in a vector has the width of its field, that of an
  // object the width of the object.
  lemma TypeByteWidth(head: seq<byte>, vals: seq<Value>, bw: Width, k: nat)
    requires k < |vals| && vals[k].typ < 64 && (IsInline(vals[k].typ) ==> vals[k].width <= bw)
    ensures var r := Element(Body(head, vals, false, bw), |head|, ByteWidth(bw), |vals|, k);
      r.Some? && r.value.byteWidth == ByteWidth(if IsInline(vals[k].typ) then bw else vals[k].width)
  {
    hide Body, Element;
    var r := FlexObjects.ElementRef(head, vals, bw, k);
  }

  // A vector takes its fields, for a fixed one no size among them, the types if it
  // is untyped, and the least padding.
  lemma VectorIsTight(buf: seq<byte>, vals: seq<Value>, typed: bool, fixed: bool, keys: Option<Value>, bw: Width)
    requires TypedOk(vals, typed, fixed)
    ensures |CreateVector(buf, vals, typed, fixed, keys, bw).0|
          < |buf| + (1 + ((if keys.Some? then 2 else 0) + (if fixed then 0 else 1) + |vals|)) * ByteWidth(bw) + (if typed then 0 else |vals|)
  {
    var head := VectorHead(buf, |vals|, fixed, keys, bw);
    HeadLength(buf, |vals|, fixed, keys, bw);
    WriteFieldsAt(head, vals, bw);
    FieldPosInVector(|buf|, Prefix(fixed, keys), |vals|, bw);
    FieldsEnd(|buf|, Prefix(fixed, keys) + |vals|, bw);
    CreateParts(buf, vals, typed, fixed, keys, bw);
    hide CreateVector, VectorHead, WriteFields, VectorType, FieldAt, FieldLoc, FieldPos, ByteWidth, TypedOk;
    assert |Body(head, vals, typed, bw)| == FieldLoc(|buf|, Prefix(fixed, keys) + |vals|, bw) + if typed then 0 else |vals|;
  }

  lemma FieldsEnd(size: nat, n: nat, bw: Width)
    ensures FieldLoc(size, n, bw) < size + (1 + n) * ByteWidth(bw)
  {
    var p := Padding(size, ByteWidth(bw));
    hide Padding;
    if bw == 0 {
    } else if bw == 1 {
      assert (1 + n) * 2 == 2 + 2 * n;
    } else if bw == 2 {
      assert (1 + n) * 4 == 4 + 4 * n;
    } else {
      assert (1 + n) * 8 == 8 + 8 * n;
    }
  }

  lemma NumberTarget(buf: seq<byte>, r: Ref, field: Width, j: int)
    requires RefShows(buf, r, VInt(j)) && r.parentWidth == ByteWidth(field)
    ensures r.typ == INT && Target(buf, r, r.pos, field)
  {
  }

  // A number in a field at least that wide can be replaced by any number that
  // the width holds.
  lemma WideEnough(buf: seq<byte>, r: Ref, field: Width, force: Width, j: int, i: int, behind: seq<byte>)
    requires RefShows(buf, r, VInt(j)) && r.parentWidth == ByteWidth(field) && force <= field && IntFits(i, force)
    ensures r.typ == INT && Target(buf, r, r.pos, field) && Int64(i)
    ensures var m := MutateInt(buf, INT, r.pos, field, i, behind); m.Some? && RefShows(m.value, r, VInt(i))
  {
    NumberTarget(buf, r, field, j);
    CapacityGrows(force, field);
    CapacityGrows(field, 3);
    assert Int64(i) && IntFits(i, field);
    WrapSigns(i);
    hide RefShows, MutateInt, Target, Wrap, Signed;
    MutateIntIsExact(buf, r, r.pos, field, i, behind);
  }

  // ----------------------------------------------------------- runs that end one

  predicate Ends(op: Op) {
    op.OVector? || op.OMap?
  }

  lemma EndedMeans(st: State, ts: seq<Tree>, op: Op)
    requires Inv(st, ts) && CanStep(st, ts, op) && Ends(op)
    ensures var t := Step(st, op);
      && |t.stack| == op.start + 1 == |TreeStep(ts, op)|
      && var val, v := t.stack[op.start], TreeStep(ts, op)[op.start];
      && (v.VVector? || v.VTyped? || v.VMap?)
      && Means(t.buf, val, v) && val.width >= st.force && AlignedObject(val)
  {
    StepKeeps(st, ts, op);
    EndedForced(st, ts, op);
    TreeEnds(st, ts, op);
    hide Inv, CanStep, Step, TreeStep, Means, AlignedObject;
    MeansTop(Step(st, op), TreeStep(ts, op), op.start);
  }

  lemma EndedForced(st: State, ts: seq<Tree>, op: Op)
    requires Inv(st, ts) && CanStep(st, ts, op) && Ends(op)
    ensures var t := Step(st, op);
      |t.stack| == op.start + 1 && t.stack[op.start].width >= st.force && AlignedObject(t.stack[op.start])
  {
    hide AllMean, KeyPoolOk, StringPoolOk, EndVector, EndMap, TypedOk, KeysFirst, CreateKeys, AlignedObject, Expressible;
    match op
    case OVector(start, typed, fixed) => VectorForced(st, start, typed, fixed);
    case OMap(start) => MapForced(st, start);
  }

  lemma TreeEnds(st: State, ts: seq<Tree>, op: Op)
    requires Expressible(ts, op, st.shareStrings) && Ends(op)
    ensures var us := TreeStep(ts, op);
      |us| == op.start + 1 && (us[op.start].VVector? || us[op.start].VTyped? || us[op.start].VMap?)
  {
    hide SortEntries;
  }

  lemma MeansTop(st: State, ts: seq<Tree>, i: nat)
    requires Inv(st, ts) && i < |ts|
    ensures |st.stack| == |ts| && Means(st.buf, st.stack[i], ts[i])
  {
  }

  lemma FinishAppends(st: State)
    requires Roomy(st) && |st.stack| == 1
    ensures st.buf <= Finish(st)
  {
    hide ToLE, Padding, ElemWidth;
  }

  // A vector or map is ended while a width is forced; whatever is done to the
  // builder afterwards, in the finished buffer each of its elements lies in an
  // aligned field at least that wide, and a number among them can be replaced
  // in place by any number that the forced width holds.
  lemma ForcedElements(st: State, ts: seq<Tree>, op: Op, ops: seq<Op>, k: nat)
    requires Inv(st, ts) && CanStep(st, ts, op) && Ends(op) && CanRun(Step(st, op), ops)
    requires var x := Run(Step(st, op), ops); Roomy(x) && |x.stack| == 1
    requires op.start < |TreeStep(ts, op)|
    requires var v := TreeStep(ts, op)[op.start]; (v.VVector? || v.VTyped? || v.VMap?) ==> k < |Elements(v)|
    ensures |Step(st, op).stack| == op.start + 1
    ensures var e := Finish(Run(Step(st, op), ops));
      var val, v := Step(st, op).stack[op.start], TreeStep(ts, op)[op.start];
      && (v.VVector? || v.VTyped? || v.VMap?)
      && var r := ElementRef(e, val, v, k);
      && r.Some? && r.value.parentWidth >= ByteWidth(st.force)
      && r.value.parentWidth == ByteWidth(val.width) && Aligned(r.value.pos, ByteWidth(val.width))
      && RefShows(e, r.value, Elements(v)[k])
      && (Elements(v)[k].VInt? ==> forall i, behind :: IntFits(i, st.force) ==> Replaces(e, r.value, val.width, i, behind))
  {
    EndedMeans(st, ts, op);
    var t, x := Step(st, op), Run(Step(st, op), ops);
    var val, v := t.stack[op.start], TreeStep(ts, op)[op.start];
    Sharing.RunGrows(t, ops);
    FinishAppends(x);
    hide Inv, CanStep, Step, TreeStep, CanRun, Run, Finish, Roomy, Means, RefShows, ElementRef, Aligned, Replaces;
    FieldsForced(t.buf, Finish(x), val, v, st.force, k);
  }

  lemma FieldsForced(buf: seq<byte>, e: seq<byte>, val: Value, v: Tree, force: Width, k: nat)
    requires buf <= e && Means(buf, val, v) && (v.VVector? || v.VTyped? || v.VMap?) && k < |Elements(v)|
    requires val.width >= force && AlignedObject(val)
    ensures var r := ElementRef(e, val, v, k);
      && r.Some? && r.value.parentWidth >= ByteWidth(force)
      && r.value.parentWidth == ByteWidth(val.width) && Aligned(r.value.pos, ByteWidth(val.width))
      && RefShows(e, r.value, Elements(v)[k])
      && (Elements(v)[k].VInt? ==> forall i, behind :: IntFits(i, force) ==> Replaces(e, r.value, val.width, i, behind))
  {
    MeansStable(buf, e, val, v);
    ElementRefIs(e, val, v, k);
    ElementAligned(val.bits, k, val.width);
    hide Means, RefShows, ElementRef, Aligned, MutateInt, Target;
    var r := ElementRef(e, val, v, k).value;
    if Elements(v)[k].VInt? {
      forall i, behind | IntFits(i, force) ensures Replaces(e, r, val.width, i, behind) {
        WideEnough(e, r, val.width, force, Elements(v)[k].i, i, behind);
      }
    }
  }

  // `MutateInt` succeeds and the field then shows the new number.
  ghost predicate Replaces(buf: seq<byte>, r: Ref, field: Width, i: int, behind: seq<byte>) {
    && r.pos + ByteWidth(field) <= |buf| && Int64(i)
    && var m := MutateInt(buf, r.typ, r.pos, field, i, behind);
    && m.Some? && RefShows(m.value, r, VInt(i))
  }

  // ------------------------------------------------------------ a map at the root

  lemma RootLeads(st: State, v: Tree)
    requires Inv(st, [v]) && |st.stack| == 1 && v.VMap?
    ensures var r := GetRoot(Finish(st));
      && r.Some? && r.value.typ == MAP && r.value.byteWidth == ByteWidth(st.stack[0].width)
      && Indirect(Finish(st), r.value.pos, r.value.parentWidth) == Some(st.stack[0].bits)
  {
    var val := st.stack[0];
    var bw := ElemWidth(val, |st.buf|, 0);
    var aligned := AlignTo(st.buf, bw);
    var body := WriteAny(aligned, val, bw);
    var packed := StoredPackedType(val, 0);
    MeansTop(st, [v], 0);
    MeansTypes(st.buf, val, v);
    assert val.typ == MAP;
    RootFits(val, |st.buf|, bw);
    hide Inv, Means, FieldLoc, FieldPos, Fits, ElemWidth, FieldAt, PackedType, UnpackType, UnpackWidth;
    PackRoundTrip(StoredWidth(val, 0), val.typ);
    AlignedStart(st.buf, bw);
    WriteAnyAt(aligned, val, bw);
    RootReads(body, packed, bw, |aligned|);
    hide AlignTo, WriteAny, GetRoot, PackedType, StoredPackedType;
    FieldStable(body, Finish(st), |aligned|, val, bw);
    hide Finish;
    OffsetField(Finish(st), |aligned|, val, bw);
  }

  // The root field is as narrow as its value allows.
  lemma RootIsLeast(st: State) returns (w: Width)
    requires Roomy(st) && |st.stack| == 1 && st.stack[0].typ < 64
    ensures var r := GetRoot(Finish(st)); r.Some? && r.value.parentWidth == ByteWidth(w)
    ensures forall bw: Width :: w <= bw <==> ElemServes(st.stack[0], |st.buf|, 0, bw)
  {
    var val := st.stack[0];
    w := ElemWidth(val, |st.buf|, 0);
    ElemIsLeast(val, |st.buf|, 0);
    var aligned := AlignTo(st.buf, w);
    hide ElemWidth, ElemServes, PackedType, UnpackType, UnpackWidth, AlignTo, FieldAt;
    PackRoundTrip(StoredWidth(val, 0), val.typ);
    WriteAnyAt(aligned, val, w);
    RootReads(WriteAny(aligned, val, w), StoredPackedType(val, 0), w, |aligned|);
  }

  lemma OffsetField(buf: seq<byte>, pos: nat, val: Value, bw: Width)
    requires FieldAt(buf, pos, val, bw) && Fits(val, pos, bw) && !IsInline(val.typ)
    ensures Indirect(buf, pos, ByteWidth(bw)) == Some(val.bits)
  {
    hide ScalarAt, Indirect, Wrap, Capacity, ByteWidth;
    OffsetReads(buf, pos, val.bits, bw);
  }

  lemma LookupWidth(buf: seq<byte>, p: nat, w: nat, key: seq<byte>)
    requires Terminated(key, 0) && Lookup(buf, p, w, key).Some? && Lookup(buf, p, w, key) != Some(NULL_REF)
    ensures Lookup(buf, p, w, key).value.parentWidth == w
  {
  }

  // The key is found in a map that lies at the root.
  lemma RootFinds(t: State, es: seq<Entry>, key: seq<byte>, j: int)
    requires Inv(t, [MapTree(SortEntries(es))]) && |t.stack| == 1 && Roomy(t)
    requires DistinctKeys(EntryKey(), es) && NulFree(key) && Entry(key, VInt(j)) in es
    ensures Terminated(key + [0], 0)
    ensures var e, r := Finish(t), RootLookup(Finish(t), key + [0]);
      r.Some? && RefShows(e, r.value, VInt(j)) && r.value.parentWidth == ByteWidth(t.stack[0].width)
  {
    var v, val, e := MapTree(SortEntries(es)), t.stack[0], Finish(t);
    RootLeads(t, v);
    MeansTop(t, [v], 0);
    FinishAppends(t);
    hide Inv, Finish, Roomy, GetRoot, Indirect, SortEntries, NulFree, Terminated, Lookup, Means, ObjShows, RefShows, DistinctKeys;
    MeansStable(t.buf, e, val, v);
    MapShown(e, val, v);
    LookupAgrees(e, val.bits, ByteWidth(val.width), es, key);
    NotNull(e, Lookup(e, val.bits, ByteWidth(val.width), key + [0]).value, j);
    LookupWidth(e, val.bits, ByteWidth(val.width), key + [0]);
  }

  lemma MapShown(buf: seq<byte>, val: Value, v: Tree)
    requires Means(buf, val, v) && v.VMap?
    ensures ObjShows(buf, MAP, val.bits, ByteWidth(val.width), v)
  {
    hide ElemsShow, KeysShow, Size;
  }

  lemma NotNull(buf: seq<byte>, r: Ref, j: int)
    requires RefShows(buf, r, VInt(j))
    ensures r != NULL_REF
  {
  }

  // A map at the root, ended while a width is forced: in the finished buffer
  // `root[key]` is the value added under the key, and if that is a number it can
  // be replaced in place by any number that the forced width holds.
  lemma ForcedMap(st: State, ts: seq<Tree>, key: seq<byte>, j: int, i: int, behind: seq<byte>)
    requires Inv(st, ts) && CanStep(st, ts, OMap(0)) && KeysFirstTrees(ts) && NulFree(key) && Entry(key, VInt(j)) in Entries(ts)
    requires IntFits(i, st.force)
    ensures var t := Step(st, OMap(0)); Roomy(t) && |t.stack| == 1 && Terminated(key + [0], 0)
    ensures var e, field := Finish(Step(st, OMap(0))), Step(st, OMap(0)).stack[0].width;
      var r := RootLookup(e, key + [0]);
      r.Some? && RefShows(e, r.value, VInt(j)) && r.value.parentWidth == ByteWidth(field) >= ByteWidth(st.force)
      && Replaces(e, r.value, field, i, behind)
  {
    var t := Step(st, OMap(0));
    EndedMeans(st, ts, OMap(0));
    StepKeeps(st, ts, OMap(0));
    MapEntries(st, ts);
    hide Inv, CanStep, Step, TreeStep, Means, Finish, RootLookup, RefShows, Target, MutateInt, SortEntries, DistinctKeys, Terminated,
      NulFree, AlignedObject, Roomy;
    RootFinds(t, Entries(ts), key, j);
    WideEnough(Finish(t), RootLookup(Finish(t), key + [0]).value, t.stack[0].width, st.force, j, i, behind);
  }

  lemma MapEntries(st: State, ts: seq<Tree>)
    requires Inv(st, ts) && CanStep(st, ts, OMap(0)) && KeysFirstTrees(ts)
    ensures DistinctKeys(EntryKey(), Entries(ts)) && Roomy(Step(st, OMap(0)))
    ensures TreeStep(ts, OMap(0)) == [MapTree(SortEntries(Entries(ts)))]
  {
    assert ts[0..] == ts && ts[..0] == [];
    hide Step, Legal, SortEntries;
  }
}
