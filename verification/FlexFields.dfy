// Fields written by the FlexBuffers builder read back as what was meant.
module FlexFields {
  import opened Bits
  import opened Bytes
  import opened Options
  import opened FlexWidth
  import opened FlexTypes
  import opened FlexReader
  import opened FlexSpec

  // A stack value stands for a tree: a scalar for itself at its own width, an
  // offset for what is stored there.
  predicate Means(buf: seq<byte>, val: Value, v: Tree) {
    match v
    case VNull => val.typ == NULL_TYPE
    case VBool(b) => val.typ == BOOL && val.bits == if b then 1 else 0
    case VInt(i) => val.typ == INT && Int64(i) && val.bits == Wrap(8, i) && IntFits(i, val.width)
    case VUInt(u) => val.typ == UINT && val.bits == u < Capacity(val.width)
    case _ => !IsInline(val.typ) && val.bits <= |buf| && ObjShows(buf, val.typ, val.bits, ByteWidth(val.width), v)
  }

  lemma MeansStable(a: seq<byte>, b: seq<byte>, val: Value, v: Tree)
    requires a <= b && Means(a, val, v)
    ensures Means(b, val, v)
  {
    hide ObjShows;
    match v
    case VNull =>
    case VBool(_) =>
    case VInt(_) =>
    case VUInt(_) =>
    case _ => ObjStable(a, b, val.typ, val.bits, ByteWidth(val.width), v);
  }

  lemma MeansTypes(buf: seq<byte>, val: Value, v: Tree)
    requires Means(buf, val, v)
    ensures val.typ < 64
    ensures Placed(val, |buf|)
  {
  }

  // ------------------------------------------------------------ one field

  predicate ScalarAt(buf: seq<byte>, pos: nat, bits: nat, bw: Width) {
    pos + ByteWidth(bw) <= |buf| && buf[pos..pos + ByteWidth(bw)] == ToLE(ByteWidth(bw), bits)
  }

  // What a field holds: the scalar, or how far back the object lies.
  predicate FieldAt(buf: seq<byte>, pos: nat, val: Value, bw: Width) {
    ScalarAt(buf, pos, if IsInline(val.typ) then val.bits else Wrap(8, pos - val.bits), bw)
  }

  predicate Fits(val: Value, pos: nat, bw: Width) {
    if IsInline(val.typ) then val.width <= bw
    else val.bits <= pos && pos - val.bits < Capacity(bw)
  }

  lemma CapacityBound(bw: Width)
    ensures Capacity(bw) <= TWO_64 && Capacity(bw) == Range(ByteWidth(bw)) && ScalarBytes(ByteWidth(bw)) == ByteWidth(bw)
  {
    CapacityIsRange(bw);
  }

  lemma ScalarReads(buf: seq<byte>, pos: nat, bits: nat, bw: Width)
    requires ScalarAt(buf, pos, bits, bw) && bits < Capacity(bw)
    ensures ReadUInt64(buf, pos, ByteWidth(bw)) == Some(bits)
  {
    CapacityBound(bw);
    LEFits(ByteWidth(bw), bits);
  }

  lemma WrapTwice(i: int, bw: Width)
    requires IntFits(i, bw)
    ensures Wrap(8, i) % Range(ByteWidth(bw)) == Wrap(ByteWidth(bw), i)
  {
    RangeAt();
    assert Wrap(8, i) % Range(ByteWidth(bw)) == Wrap(ByteWidth(bw), i) by {
      hide Range;
      if bw == 0 {
      } else if bw == 1 {
      } else if bw == 2 {
      } else {
      }
    }
  }

  lemma IntReads(buf: seq<byte>, pos: nat, i: int, bw: Width)
    requires ScalarAt(buf, pos, Wrap(8, i), bw) && IntFits(i, bw)
    ensures ReadInt64(buf, pos, ByteWidth(bw)) == Some(i)
  {
    var n := ByteWidth(bw);
    CapacityBound(bw);
    LETruncates(n, Wrap(8, i));
    WrapTwice(i, bw);
    SignedInverse(n, i);
  }

  lemma OffsetReads(buf: seq<byte>, pos: nat, u: nat, bw: Width)
    requires u <= pos && pos - u < Capacity(bw) && ScalarAt(buf, pos, Wrap(8, pos - u), bw)
    ensures Indirect(buf, pos, ByteWidth(bw)) == Some(u)
  {
    CapacityBound(bw);
    RangeAt();
    var d := pos - u;
    DivModUnique(d, TWO_64, 0, d);
    ScalarReads(buf, pos, d, bw);
  }

  // A scalar keeps its value at every width that is at least its own.
  lemma WiderInt(i: int, a: Width, b: Width)
    requires IntFits(i, a) && a <= b
    ensures IntFits(i, b)
  {
    CapacityGrows(a, b);
  }

  // The field shows the tree its value stands for.
  lemma FieldShows(old_: seq<byte>, buf: seq<byte>, val: Value, v: Tree, bw: Width, r: Ref)
    requires old_ <= buf && Means(old_, val, v)
    requires FieldAt(buf, r.pos, val, bw) && Fits(val, r.pos, bw)
    requires r.parentWidth == ByteWidth(bw) && r.typ == val.typ
    requires IsInline(val.typ) || v.VKey? || r.byteWidth == ByteWidth(val.width)
    ensures RefShows(buf, r, v)
  {
    hide Wrap, ReadUInt64, ReadInt64, ScalarAt;
    match v
    case VNull =>
    case VBool(_) => ScalarReads(buf, r.pos, val.bits, bw);
    case VInt(i) =>
      WiderInt(i, val.width, bw);
      IntReads(buf, r.pos, i, bw);
    case VUInt(u) =>
      CapacityGrows(val.width, bw);
      ScalarReads(buf, r.pos, u, bw);
    case VKey(_) =>
      OffsetReads(buf, r.pos, val.bits, bw);
      ObjStable(old_, buf, val.typ, val.bits, ByteWidth(val.width), v);
    case _ =>
      OffsetReads(buf, r.pos, val.bits, bw);
      hide ObjShows;
      ObjStable(old_, buf, val.typ, val.bits, ByteWidth(val.width), v);
  }

  // ------------------------------------------------------------ many fields

  function FieldPos(head: nat, k: nat, bw: Width): nat {
    head + Stride(k, bw)
  }

  lemma FieldPosIs(head: nat, k: nat, bw: Width)
    ensures ElementPos(head, ByteWidth(bw), k) == FieldPos(head, k, bw)
  {
  }

  lemma FieldStable(a: seq<byte>, b: seq<byte>, pos: nat, val: Value, bw: Width)
    requires a <= b && FieldAt(a, pos, val, bw)
    ensures FieldAt(b, pos, val, bw)
  {
    assert a[pos..pos + ByteWidth(bw)] == b[pos..pos + ByteWidth(bw)];
  }

  lemma WriteAnyAt(buf: seq<byte>, val: Value, bw: Width)
    ensures FieldAt(WriteAny(buf, val, bw), |buf|, val, bw)
    ensures buf <= WriteAny(buf, val, bw) && |WriteAny(buf, val, bw)| == |buf| + ByteWidth(bw)
  {
    hide Wrap, ToLE;
  }

  lemma {:induction false} WriteFieldsAt(head: seq<byte>, vals: seq<Value>, bw: Width)
    ensures head <= WriteFields(head, vals, bw)
    ensures |WriteFields(head, vals, bw)| == FieldPos(|head|, |vals|, bw)
    ensures forall k :: 0 <= k < |vals| ==> FieldAt(WriteFields(head, vals, bw), FieldPos(|head|, k, bw), vals[k], bw)
  {
    hide FieldAt;
    if vals != [] {
      var n := |vals| - 1;
      var before := WriteFields(head, vals[..n], bw);
      var after := WriteFields(head, vals, bw);
      WriteFieldsAt(head, vals[..n], bw);
      WriteAnyAt(before, vals[n], bw);
      forall k | 0 <= k < |vals| ensures FieldAt(after, FieldPos(|head|, k, bw), vals[k], bw) {
        if k < n {
          assert vals[..n][k] == vals[k];
          FieldStable(before, after, FieldPos(|head|, k, bw), vals[k], bw);
        }
      }
    }
  }

  lemma {:induction false} TypeBytesAt(vals: seq<Value>, bw: Width, k: nat)
    requires k < |vals|
    ensures TypeBytes(vals, bw)[k] == StoredPackedType(vals[k], bw)
  {
    if k < |vals| - 1 {
      TypeBytesAt(vals[..|vals| - 1], bw, k);
    }
  }
}
