// Each object the FlexBuffers builder appends shows the tree it was made from.
module FlexObjects {
  import opened Bits
  import opened Bytes
  import opened Alignment
  import opened Ordering
  import opened Options
  import opened FlexWidth
  import opened FlexTypes
  import opened FlexReader
  import opened FlexSpec
  import opened FlexFields
  import opened FlexVectors

  // -------------------------------------------------------------------- heads

  lemma ScalarIsAt(buf: seq<byte>, bits: nat, bw: Width)
    ensures ScalarAt(WriteScalar(buf, bits, bw), |buf|, bits, bw)
    ensures |WriteScalar(buf, bits, bw)| == |buf| + ByteWidth(bw) && buf <= WriteScalar(buf, bits, bw)
  {
    hide ToLE;
  }

  // The size is found just before the object.
  lemma SizeReads(buf: seq<byte>, len: nat, bw: Width)
    requires len < Capacity(bw)
    ensures var h := WriteScalar(buf, len, bw); Size(h, |h|, ByteWidth(bw)) == Some(len)
  {
    ScalarIsAt(buf, len, bw);
    ScalarReads(WriteScalar(buf, len, bw), |buf|, len, bw);
  }

  lemma SizeStable(a: seq<byte>, b: seq<byte>, p: nat, w: nat)
    requires a <= b && Size(a, p, w).Some?
    ensures Size(b, p, w) == Size(a, p, w)
  {
    ReadStable(a, b, p - w, w);
  }

  lemma WidthByte(bw: Width)
    ensures Shl(1, bw) == ByteWidth(bw)
  {
    assert Shl(1, 0) == 1 && Shl(1, 1) == 2 && Shl(1, 2) == 4 && Shl(1, 3) == 8;
  }

  // The three fields before a map: offset to its keys, their width, its size.
  lemma KeysRead(buf: seq<byte>, keys: Value, len: nat, bw: Width)
    requires !IsInline(keys.typ) && Fits(keys, |buf|, bw)
    ensures var h := WriteScalar(WriteMapPrefix(buf, Some(keys), bw), len, bw);
      Keys(h, |h|, ByteWidth(bw)) == Some((keys.bits, ByteWidth(keys.width)))
  {
    var n := ByteWidth(bw);
    var a := WriteOffset(buf, keys.bits, bw);
    var b := WriteScalar(a, Shl(1, keys.width), bw);
    var h := WriteScalar(b, len, bw);
    hide ToLE, Wrap, Shl;
    ScalarIsAt(buf, Wrap(8, |buf| - keys.bits), bw);
    OffsetReads(a, |buf|, keys.bits, bw);
    WidthByte(keys.width);
    ScalarIsAt(a, Shl(1, keys.width), bw);
    ScalarReads(b, |a|, ByteWidth(keys.width), bw);
    ReadStable(a, h, |buf|, n);
    ReadStable(b, h, |a|, n);
    hide ReadUInt64, Indirect;
    assert |h| - 3 * n == |buf| && |h| - 2 * n == |a|;
  }

  // ------------------------------------------------------------------ elements

  // Writing all fields, and for an untyped vector their types.
  function Body(head: seq<byte>, vals: seq<Value>, typed: bool, bw: Width): seq<byte> {
    if typed then WriteFields(head, vals, bw) else WriteFields(head, vals, bw) + TypeBytes(vals, bw)
  }

  predicate AllFit(vals: seq<Value>, head: nat, bw: Width) {
    forall k :: 0 <= k < |vals| ==> Fits(vals[k], FieldPos(head, k, bw), bw)
  }

  lemma FieldInBody(head: seq<byte>, vals: seq<Value>, typed: bool, bw: Width, k: nat)
    requires k < |vals|
    ensures FieldAt(Body(head, vals, typed, bw), FieldPos(|head|, k, bw), vals[k], bw)
    ensures head <= Body(head, vals, typed, bw)
  {
    WriteFieldsAt(head, vals, bw);
    hide FieldAt, FieldPos, WriteFields;
    FieldStable(WriteFields(head, vals, bw), Body(head, vals, typed, bw), FieldPos(|head|, k, bw), vals[k], bw);
  }

  lemma TypeInBody(head: seq<byte>, vals: seq<Value>, bw: Width, k: nat)
    requires k < |vals|
    ensures var at := ElementPos(|head|, ByteWidth(bw), |vals|);
      at + k < |Body(head, vals, false, bw)| && Body(head, vals, false, bw)[at + k] == StoredPackedType(vals[k], bw)
  {
    WriteFieldsAt(head, vals, bw);
    TypeBytesAt(vals, bw, k);
    FieldPosIs(|head|, |vals|, bw);
    hide FieldAt, FieldPos, WriteFields, TypeBytes, ElementPos, StoredPackedType;
  }

  // The reference an element gives: its place, and what its type byte packs.
  lemma ElementRef(head: seq<byte>, vals: seq<Value>, bw: Width, k: nat) returns (r: Ref)
    requires k < |vals| && vals[k].typ < 64
    ensures Element(Body(head, vals, false, bw), |head|, ByteWidth(bw), |vals|, k) == Some(r)
    ensures r == Ref(FieldPos(|head|, k, bw), ByteWidth(bw), ByteWidth(StoredWidth(vals[k], bw)), vals[k].typ)
  {
    TypeInBody(head, vals, bw, k);
    PackRoundTrip(StoredWidth(vals[k], bw), vals[k].typ);
    FieldPosIs(|head|, k, bw);
    hide Body, FieldPos, ElementPos, PackedType, UnpackWidth, UnpackType, StoredWidth;
    r := Ref(FieldPos(|head|, k, bw), ByteWidth(bw), ByteWidth(StoredWidth(vals[k], bw)), vals[k].typ);
  }

  lemma ElementShows(old_: seq<byte>, head: seq<byte>, vals: seq<Value>, v: Tree, bw: Width, k: nat)
    requires k < |vals| && old_ <= head && Means(old_, vals[k], v) && Fits(vals[k], FieldPos(|head|, k, bw), bw)
    ensures var r := Element(Body(head, vals, false, bw), |head|, ByteWidth(bw), |vals|, k);
      r.Some? && RefShows(Body(head, vals, false, bw), r.value, v)
  {
    hide Body, Means, Fits, FieldAt, FieldPos, RefShows, Element, IsInline;
    MeansTypes(old_, vals[k], v);
    FieldInBody(head, vals, false, bw, k);
    var r := ElementRef(head, vals, bw, k);
    FieldShows(old_, Body(head, vals, false, bw), vals[k], v, bw, r);
  }

  lemma TypedElementShows(old_: seq<byte>, head: seq<byte>, vals: seq<Value>, v: Tree, bw: Width, k: nat)
    requires k < |vals| && old_ <= head && Means(old_, vals[k], v) && Fits(vals[k], FieldPos(|head|, k, bw), bw)
    requires IsInline(vals[k].typ) || v.VKey?
    ensures RefShows(Body(head, vals, true, bw), TypedElement(|head|, ByteWidth(bw), vals[k].typ, k), v)
  {
    FieldInBody(head, vals, true, bw, k);
    FieldPosIs(|head|, k, bw);
    hide Body, Means, Fits, FieldAt, FieldPos, ElementPos, RefShows;
    FieldShows(old_, Body(head, vals, true, bw), vals[k], v, bw, TypedElement(|head|, ByteWidth(bw), vals[k].typ, k));
  }

  lemma ElementsShow(old_: seq<byte>, head: seq<byte>, vals: seq<Value>, es: seq<Tree>, bw: Width)
    requires old_ <= head && AllMean(old_, vals, es) && AllFit(vals, |head|, bw)
    ensures ElemsShow(Body(head, vals, false, bw), |head|, ByteWidth(bw), es)
  {
    hide Means, Fits, FieldPos, Body, Element, RefShows;
    forall k | 0 <= k < |es|
      ensures var r := Element(Body(head, vals, false, bw), |head|, ByteWidth(bw), |es|, k);
        r.Some? && RefShows(Body(head, vals, false, bw), r.value, es[k])
    {
      ElementShows(old_, head, vals, es[k], bw, k);
    }
  }

  // Elements a typed vector can be read back with: numbers, booleans and keys.
  predicate TypedElements(vals: seq<Value>, es: seq<Tree>, t: nat) {
    |vals| == |es| && forall k :: 0 <= k < |vals| ==> vals[k].typ == t && (IsInline(t) || es[k].VKey?)
  }

  lemma TypedElementsShow(old_: seq<byte>, head: seq<byte>, vals: seq<Value>, es: seq<Tree>, t: nat, bw: Width)
    requires old_ <= head && AllMean(old_, vals, es) && AllFit(vals, |head|, bw) && TypedElements(vals, es, t)
    ensures TypedShow(Body(head, vals, true, bw), |head|, ByteWidth(bw), t, es)
  {
    hide Means, Fits, FieldPos, Body, RefShows;
    forall k | 0 <= k < |es|
      ensures RefShows(Body(head, vals, true, bw), TypedElement(|head|, ByteWidth(bw), t, k), es[k])
    {
      TypedElementShows(old_, head, vals, es[k], bw, k);
    }
  }

  // ------------------------------------------------------------------ vectors

  lemma BodyExtends(head: seq<byte>, vals: seq<Value>, typed: bool, bw: Width)
    ensures head <= Body(head, vals, typed, bw)
  {
    FieldsExtend(head, vals, bw);
  }

  lemma BodyShows(old_: seq<byte>, head: seq<byte>, vals: seq<Value>, es: seq<Tree>, bw: Width)
    requires old_ <= head && AllMean(old_, vals, es) && AllFit(vals, |head|, bw)
    requires Size(head, |head|, ByteWidth(bw)) == Some(|vals|)
    ensures ObjShows(Body(head, vals, false, bw), VECTOR, |head|, ByteWidth(bw), VVector(es))
    ensures |head| <= |Body(head, vals, false, bw)|
  {
    hide Fits, FieldPos, Body, Means, Size, RefShows, Element;
    ElementsShow(old_, head, vals, es, bw);
    BodyExtends(head, vals, false, bw);
    SizeStable(head, Body(head, vals, false, bw), |head|, ByteWidth(bw));
  }

  lemma TypedBodyShows(old_: seq<byte>, head: seq<byte>, vals: seq<Value>, es: seq<Tree>, typ: nat, t: nat, bw: Width)
    requires old_ <= head && AllMean(old_, vals, es) && AllFit(vals, |head|, bw) && TypedElements(vals, es, t)
    requires TypedShape(head, typ, |head|, ByteWidth(bw)) == Some((t, |vals|))
    ensures ObjShows(Body(head, vals, true, bw), typ, |head|, ByteWidth(bw), VTyped(typ, es))
    ensures |head| <= |Body(head, vals, true, bw)|
  {
    hide Fits, FieldPos, Body, Means, TypedShape, RefShows, TypedElement;
    TypedElementsShow(old_, head, vals, es, t, bw);
    BodyExtends(head, vals, true, bw);
    ShapeStable(head, Body(head, vals, true, bw), typ, |head|, ByteWidth(bw));
  }

  lemma VectorShows(old_: seq<byte>, buf: seq<byte>, vals: seq<Value>, es: seq<Tree>, bw: Width)
    requires old_ <= buf && AllMean(old_, vals, es) && |vals| < Capacity(bw)
    requires AllFit(vals, FieldLoc(|buf|, 1, bw), bw)
    ensures var (b, v) := CreateVector(buf, vals, false, false, None, bw); Means(b, v, VVector(es))
  {
    var head := VectorHead(buf, |vals|, false, None, bw);
    HeadLength(buf, |vals|, false, None, bw);
    SizeReads(AlignTo(buf, bw), |vals|, bw);
    hide AllMean, AllFit, FieldLoc, WriteScalar, AlignTo, Size, ObjShows, Body, Means, CreateVector;
    BodyShows(old_, head, vals, es, bw);
    ObjectMeans(Body(head, vals, false, bw), |head|, VECTOR, bw, VVector(es));
    CreateParts(buf, vals, false, false, None, bw);
  }

  lemma TypedHeadReads(buf: seq<byte>, len: nat, t: nat, fixed: bool, bw: Width)
    requires len < Capacity(bw) && IsTypedVectorElementType(t) && t != STRING && (fixed ==> 2 <= len <= 4 && t <= FLOAT)
    ensures var head := VectorHead(buf, len, fixed, None, bw);
      TypedShape(head, ToTypedVector(t, if fixed then len else 0), |head|, ByteWidth(bw)) == Some((t, len))
  {
    SizeReads(AlignTo(buf, bw), len, bw);
    TypedVectorTypes(t, if fixed then len else 0);
    hide WriteScalar, AlignTo, Size, ToTypedVector, ToFixedTypedVectorElementType, ToTypedVectorElementType;
  }

  // The parts of a created vector: its bytes and the value that stands for it.
  lemma CreateParts(buf: seq<byte>, vals: seq<Value>, typed: bool, fixed: bool, keys: Option<Value>, bw: Width)
    requires TypedOk(vals, typed, fixed)
    ensures var head := VectorHead(buf, |vals|, fixed, keys, bw);
      CreateVector(buf, vals, typed, fixed, keys, bw)
      == (Body(head, vals, typed, bw), Value(|head|, VectorType(vals, typed, fixed, keys), bw))
  {
    hide VectorHead, WriteFields, TypeBytes, VectorType;
  }

  // A value stands for what its object shows.
  lemma ObjectMeans(b: seq<byte>, p: nat, typ: nat, bw: Width, v: Tree)
    requires v.VVector? || v.VTyped? || v.VMap?
    requires !IsInline(typ) && p <= |b| && ObjShows(b, typ, p, ByteWidth(bw), v)
    ensures Means(b, Value(p, typ, bw), v)
  {
    hide ObjShows;
  }

  lemma TypedVectorType(vals: seq<Value>, fixed: bool)
    requires TypedOk(vals, true, fixed) && (fixed ==> ElementType(vals) <= FLOAT)
    ensures !IsInline(VectorType(vals, true, fixed, None))
    ensures VectorType(vals, true, fixed, None) == ToTypedVector(ElementType(vals), if fixed then |vals| else 0)
    ensures IsTypedVectorElementType(ElementType(vals)) && (fixed ==> 2 <= |vals| <= 4)
  {
  }

  lemma TypedVectorShows(old_: seq<byte>, buf: seq<byte>, vals: seq<Value>, es: seq<Tree>, fixed: bool, bw: Width)
    requires old_ <= buf && AllMean(old_, vals, es) && |vals| < Capacity(bw)
    requires AllFit(vals, FieldLoc(|buf|, Prefix(fixed, None), bw), bw)
    requires TypedOk(vals, true, fixed) && TypedElements(vals, es, ElementType(vals))
    requires ElementType(vals) != STRING && (fixed ==> ElementType(vals) <= FLOAT)
    ensures var (b, v) := CreateVector(buf, vals, true, fixed, None, bw); Means(b, v, VTyped(v.typ, es))
  {
    hide AllMean, AllFit, FieldLoc, TypedShape, TypedElements, ObjShows, TypedOk, VectorHead, Body, ElementType, VectorType,
      ToTypedVector, Means, CreateVector, IsTypedVectorElementType, IsInline, Capacity, Prefix;
    var head := VectorHead(buf, |vals|, fixed, None, bw);
    var t, typ := ElementType(vals), VectorType(vals, true, fixed, None);
    TypedVectorType(vals, fixed);
    HeadLength(buf, |vals|, fixed, None, bw);
    TypedHeadReads(buf, |vals|, t, fixed, bw);
    TypedBodyShows(old_, head, vals, es, typ, t, bw);
    ObjectMeans(Body(head, vals, true, bw), |head|, typ, bw, VTyped(typ, es));
    CreateParts(buf, vals, true, fixed, None, bw);
  }

  // --------------------------------------------------------------------- maps

  function KeyTrees(ks: seq<seq<byte>>): seq<Tree> {
    seq(|ks|, i requires 0 <= i < |ks| => VKey(ks[i]))
  }

  lemma KeyRefFrom(buf: seq<byte>, p: nat, w: nat, i: nat, s: seq<byte>)
    requires RefShows(buf, TypedElement(p, w, KEY, i), VKey(s))
    ensures KeyRefShows(buf, p, w, i, s)
  {
  }

  // A typed vector of keys serves as the keys of a map.
  lemma KeysShowFrom(buf: seq<byte>, p: nat, w: nat, k: nat, kw: nat, ks: seq<seq<byte>>)
    requires Keys(buf, p, w) == Some((k, kw))
    requires ObjShows(buf, VECTOR_KEY, k, kw, VTyped(VECTOR_KEY, KeyTrees(ks)))
    ensures KeysShow(buf, p, w, ks)
  {
    assert TypedShow(buf, k, kw, KEY, KeyTrees(ks)) && Size(buf, k, kw) == Some(|ks|);
    hide Keys, Size, RefShows, KeyRefShows;
    forall i | 0 <= i < |ks| ensures KeyRefShows(buf, k, kw, i, ks[i]) {
      assert RefShows(buf, TypedElement(k, kw, KEY, i), KeyTrees(ks)[i]);
      KeyRefFrom(buf, k, kw, i, ks[i]);
    }
  }

  lemma MapBodyShows(old_: seq<byte>, head: seq<byte>, vals: seq<Value>, vs: seq<Tree>, keys: Value, ks: seq<seq<byte>>, bw: Width)
    requires old_ <= head && AllMean(old_, vals, vs) && AllFit(vals, |head|, bw) && |ks| == |vs|
    requires Size(head, |head|, ByteWidth(bw)) == Some(|vals|)
    requires Keys(head, |head|, ByteWidth(bw)) == Some((keys.bits, ByteWidth(keys.width)))
    requires Means(old_, keys, VTyped(VECTOR_KEY, KeyTrees(ks)))
    ensures ObjShows(Body(head, vals, false, bw), MAP, |head|, ByteWidth(bw), VMap(ks, vs))
    ensures |head| <= |Body(head, vals, false, bw)|
  {
    hide Fits, FieldPos, Body, Size, RefShows, Element, Keys, KeysShow;
    var full := Body(head, vals, false, bw);
    BodyShows(old_, head, vals, vs, bw);
    BodyExtends(head, vals, false, bw);
    KeysStable(head, full, |head|, ByteWidth(bw));
    ObjStable(old_, full, VECTOR_KEY, keys.bits, ByteWidth(keys.width), VTyped(VECTOR_KEY, KeyTrees(ks)));
    KeysShowFrom(full, |head|, ByteWidth(bw), keys.bits, ByteWidth(keys.width), ks);
  }

  lemma AlignedStart(buf: seq<byte>, bw: Width)
    ensures |AlignTo(buf, bw)| == FieldPos(FieldLoc(|buf|, 0, bw), 0, bw)
  {
    hide Padding;
  }

  lemma MapShows(buf: seq<byte>, vals: seq<Value>, vs: seq<Tree>, keys: Value, ks: seq<seq<byte>>, bw: Width)
    requires AllMean(buf, vals, vs) && |vals| < Capacity(bw) && |ks| == |vs|
    requires AllFit(vals, FieldLoc(|buf|, 3, bw), bw)
    requires Means(buf, keys, VTyped(VECTOR_KEY, KeyTrees(ks))) && Fits(keys, FieldPos(FieldLoc(|buf|, 0, bw), 0, bw), bw)
    ensures var (b, v) := CreateVector(buf, vals, false, false, Some(keys), bw); Means(b, v, VMap(ks, vs))
  {
    var aligned := AlignTo(buf, bw);
    var head := VectorHead(buf, |vals|, false, Some(keys), bw);
    HeadLength(buf, |vals|, false, Some(keys), bw);
    AlignedStart(buf, bw);
    MeansTypes(buf, keys, VTyped(VECTOR_KEY, KeyTrees(ks)));
    hide AllMean, AllFit, FieldLoc, FieldPos, AlignTo, Size, ObjShows, Fits, Keys, WriteScalar, WriteMapPrefix;
    KeysRead(aligned, keys, |vals|, bw);
    SizeReads(WriteMapPrefix(aligned, Some(keys), bw), |vals|, bw);
    hide Means, Body, CreateVector;
    MapBodyShows(buf, head, vals, vs, keys, ks, bw);
    ObjectMeans(Body(head, vals, false, bw), |head|, MAP, bw, VMap(ks, vs));
    CreateParts(buf, vals, false, false, Some(keys), bw);
  }

  // ---------------------------------------------------------- strings, blobs

  lemma BlobReads(head: seq<byte>, data: seq<byte>, trailing: seq<byte>, w: nat)
    requires Size(head, |head|, w) == Some(|data|)
    ensures BytesAt(head + data + trailing, |head|, w, data)
  {
    SizeStable(head, head + data + trailing, |head|, w);
    hide Size;
  }

  lemma BytesMean(buf: seq<byte>, p: nat, typ: nat, bw: Width, data: seq<byte>)
    requires p <= |buf| && (typ == STRING || typ == BLOB) && BytesAt(buf, p, ByteWidth(bw), data)
    ensures Means(buf, Value(p, typ, bw), if typ == STRING then VString(data) else VBlob(data))
  {
  }

  lemma BlobShows(buf: seq<byte>, data: seq<byte>, trailing: seq<byte>, typ: nat)
    requires |data| < TWO_64 && (typ == STRING || typ == BLOB)
    ensures var (b, v) := CreateBlob(buf, data, trailing, typ);
      && buf <= b && Means(b, v, if typ == STRING then VString(data) else VBlob(data))
      && v.bits >= |buf| && v.bits + |data| + |trailing| == |b|
  {
    hide WriteScalar, Size, Padding, BytesAt, Means;
    var bw := WidthU(|data|);
    var aligned := AlignTo(buf, bw);
    var head := WriteScalar(aligned, |data|, bw);
    WidthUIsLeast(|data|);
    hide WidthU;
    SizeReads(aligned, |data|, bw);
    ScalarIsAt(aligned, |data|, bw);
    BlobReads(head, data, trailing, ByteWidth(bw));
    BytesMean(head + data + trailing, |head|, typ, bw, data);
  }

  lemma KeyShows(buf: seq<byte>, s: seq<byte>)
    requires NulFree(s)
    ensures Means(buf + s + [0], Value(|buf|, KEY, 0), VKey(s))
  {
    var b := buf + s + [0];
    assert b[|buf|..|buf| + |s|] == s && b[|buf| + |s|] == 0;
    CStringReads(b, |buf|, s);
  }

  // ---------------------------------------------------- scalars out of line

  lemma IndirectShows(buf: seq<byte>, bits: nat, typ: nat, bw: Width, v: Tree)
    requires v.VIndirectInt? || v.VIndirectUInt?
    requires v.VIndirectInt? ==> typ == INDIRECT_INT && IntFits(v.i, bw) && bits == Wrap(8, v.i)
    requires v.VIndirectUInt? ==> typ == INDIRECT_UINT && bits == v.u < Capacity(bw)
    ensures var a := AlignTo(buf, bw);
      Means(WriteScalar(a, bits, bw), Value(|a|, typ, bw), v)
  {
    var a := AlignTo(buf, bw);
    ScalarIsAt(a, bits, bw);
    hide AlignTo, WriteScalar, Wrap, ReadUInt64, ReadInt64, ScalarAt;
    if v.VIndirectInt? {
      IntReads(WriteScalar(a, bits, bw), |a|, v.i, bw);
    } else {
      ScalarReads(WriteScalar(a, bits, bw), |a|, bits, bw);
    }
  }
}
