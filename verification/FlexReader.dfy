// The FlexBuffers accessors, and what it means that they show a given tree.
module FlexReader {
  import opened Bytes
  import opened Ordering
  import opened Options
  import opened FlexTypes

  // A reference to a field: where it lies, how wide it is, and for what is not
  // stored inline, the width and type of the object it points to.
  datatype Ref = Ref(pos: nat, parentWidth: nat, byteWidth: nat, typ: nat)

  const NULL_REF: Ref := Ref(0, 1, 1, NULL_TYPE)

  // The scalar `ReadSizedScalar` picks for a byte width.
  function ScalarBytes(w: nat): (n: nat)
    ensures n == 1 || n == 2 || n == 4 || n == 8
  {
    if w < 4 then (if w < 2 then 1 else 2) else if w < 8 then 4 else 8
  }

  // Reads fail, rather than leave the buffer.
  function ReadUInt64(buf: seq<byte>, pos: int, w: nat): Option<nat> {
    var n := ScalarBytes(w);
    if 0 <= pos && pos + n <= |buf| then Some(FromLE(buf[pos..pos + n])) else None
  }

  function ReadInt64(buf: seq<byte>, pos: int, w: nat): Option<int> {
    var n := ScalarBytes(w);
    if 0 <= pos && pos + n <= |buf|
    then FromLEBound(buf[pos..pos + n]); Some(Signed(n, FromLE(buf[pos..pos + n])))
    else None
  }

  function Indirect(buf: seq<byte>, pos: int, w: nat): Option<nat> {
    var off :- ReadUInt64(buf, pos, w);
    if off <= pos then Some(pos - off) else None
  }

  function Size(buf: seq<byte>, p: nat, w: nat): Option<nat> {
    ReadUInt64(buf, p - w, w)
  }

  function ElementPos(p: nat, w: nat, i: nat): nat {
    p + i * w
  }

  // `Vector::operator[]` past the bounds check; the types follow the elements.
  function Element(buf: seq<byte>, p: nat, w: nat, len: nat, i: nat): Option<Ref> {
    var types := ElementPos(p, w, len);
    if types + i < |buf|
    then Some(Ref(ElementPos(p, w, i), w, UnpackWidth(buf[types + i]), UnpackType(buf[types + i])))
    else None
  }

  function VectorAt(buf: seq<byte>, p: nat, w: nat, i: nat): Option<Ref> {
    var len :- Size(buf, p, w);
    if i >= len then Some(NULL_REF) else Element(buf, p, w, len, i)
  }

  // `TypedVector::operator[]` and `FixedTypedVector::operator[]` past the check.
  function TypedElement(p: nat, w: nat, typ: nat, i: nat): Ref {
    Ref(ElementPos(p, w, i), w, 1, typ)
  }

  // `Map::Keys`: where the keys vector starts and how wide it is.
  function Keys(buf: seq<byte>, p: nat, w: nat): Option<(nat, nat)> {
    var k :- Indirect(buf, p - 3 * w, w);
    var kw :- ReadUInt64(buf, p - 2 * w, w);
    Some((k, kw % 256))
  }

  function GetRoot(buf: seq<byte>): Option<Ref> {
    if |buf| < 2 then None
    else
      var w := buf[|buf| - 1];
      var packed := buf[|buf| - 2];
      if |buf| - 2 < w then None
      else Some(Ref(|buf| - 2 - w, w, UnpackWidth(packed), UnpackType(packed)))
  }

  // ------------------------------------------------------------------- trees

  datatype Tree =
    | VNull
    | VBool(on: bool)
    | VInt(i: int)
    | VUInt(u: nat)
    | VIndirectInt(i: int)
    | VIndirectUInt(u: nat)
    | VKey(chars: seq<byte>)
    | VString(chars: seq<byte>)
    | VBlob(bytes: seq<byte>)
    | VVector(elems: seq<Tree>)
    | VTyped(typ: nat, elems: seq<Tree>)
    | VMap(keys: seq<seq<byte>>, vals: seq<Tree>)

  predicate KeyAt(buf: seq<byte>, p: nat, s: seq<byte>) {
    Terminated(buf, p) && CString(buf, p) == s
  }

  predicate BytesAt(buf: seq<byte>, p: nat, w: nat, s: seq<byte>) {
    Size(buf, p, w) == Some(|s|) && p + |s| <= |buf| && buf[p..p + |s|] == s
  }

  // The element type and the length of a typed vector, fixed or not.  Vectors of
  // strings, which are deprecated, are read as keys.
  function TypedShape(buf: seq<byte>, typ: nat, p: nat, w: nat): Option<(nat, nat)> {
    if IsTypedVector(typ) then
      var len :- Size(buf, p, w);
      var t := ToTypedVectorElementType(typ);
      Some((if t == STRING then KEY else t, len))
    else if IsFixedTypedVector(typ) then Some(ToFixedTypedVectorElementType(typ))
    else None
  }

  // The field shows the tree when every accessor applied to it does.
  predicate RefShows(buf: seq<byte>, r: Ref, v: Tree)
    decreases v, 1
  {
    match v
    case VNull => r.typ == NULL_TYPE
    case VBool(b) => r.typ == BOOL && var n := ReadUInt64(buf, r.pos, r.parentWidth); n.Some? && b == (n.value != 0)
    case VInt(i) => r.typ == INT && ReadInt64(buf, r.pos, r.parentWidth) == Some(i)
    case VUInt(u) => r.typ == UINT && ReadUInt64(buf, r.pos, r.parentWidth) == Some(u)
    case _ =>
      var p := Indirect(buf, r.pos, r.parentWidth);
      p.Some? && ObjShows(buf, r.typ, p.value, r.byteWidth, v)
  }

  // The object of type `typ` at `p`, `w` bytes wide, shows the tree.
  predicate ObjShows(buf: seq<byte>, typ: nat, p: nat, w: nat, v: Tree)
    decreases v, 0
  {
    match v
    case VIndirectInt(i) => typ == INDIRECT_INT && ReadInt64(buf, p, w) == Some(i)
    case VIndirectUInt(u) => typ == INDIRECT_UINT && ReadUInt64(buf, p, w) == Some(u)
    case VKey(s) => typ == KEY && KeyAt(buf, p, s)
    case VString(s) => typ == STRING && BytesAt(buf, p, w, s)
    case VBlob(s) => typ == BLOB && BytesAt(buf, p, w, s)
    case VVector(es) => typ == VECTOR && Size(buf, p, w) == Some(|es|) && ElemsShow(buf, p, w, es)
    case VTyped(t, es) =>
      typ == t && var shape := TypedShape(buf, t, p, w);
      shape.Some? && shape.value.1 == |es| && TypedShow(buf, p, w, shape.value.0, es)
    case VMap(ks, vs) =>
      && typ == MAP && |ks| == |vs| && Size(buf, p, w) == Some(|vs|)
      && ElemsShow(buf, p, w, vs) && KeysShow(buf, p, w, ks)
    case _ => false
  }

  predicate ElemsShow(buf: seq<byte>, p: nat, w: nat, es: seq<Tree>)
    decreases es, 2
  {
    forall i :: 0 <= i < |es| ==>
      var r := Element(buf, p, w, |es|, i);
      r.Some? && RefShows(buf, r.value, es[i])
  }

  predicate TypedShow(buf: seq<byte>, p: nat, w: nat, t: nat, es: seq<Tree>)
    decreases es, 2
  {
    forall i :: 0 <= i < |es| ==> RefShows(buf, TypedElement(p, w, t, i), es[i])
  }

  predicate KeysShow(buf: seq<byte>, p: nat, w: nat, ks: seq<seq<byte>>) {
    var keys := Keys(buf, p, w);
    && keys.Some? && Size(buf, keys.value.0, keys.value.1) == Some(|ks|)
    && forall i :: 0 <= i < |ks| ==> KeyRefShows(buf, keys.value.0, keys.value.1, i, ks[i])
  }

  predicate KeyRefShows(buf: seq<byte>, p: nat, w: nat, i: nat, s: seq<byte>) {
    var k := Indirect(buf, ElementPos(p, w, i), w);
    k.Some? && KeyAt(buf, k.value, s)
  }

  // ------------------------------------- appending keeps what was readable

  lemma ReadStable(a: seq<byte>, b: seq<byte>, pos: int, w: nat)
    requires a <= b
    ensures ReadUInt64(a, pos, w).Some? ==> ReadUInt64(b, pos, w) == ReadUInt64(a, pos, w)
    ensures ReadInt64(a, pos, w).Some? ==> ReadInt64(b, pos, w) == ReadInt64(a, pos, w)
    ensures Indirect(a, pos, w).Some? ==> Indirect(b, pos, w) == Indirect(a, pos, w)
  {
    var n := ScalarBytes(w);
    if 0 <= pos && pos + n <= |a| {
      assert a[pos..pos + n] == b[pos..pos + n];
    }
  }

  lemma {:induction false} KeyStable(a: seq<byte>, b: seq<byte>, p: nat)
    requires a <= b && Terminated(a, p)
    ensures Terminated(b, p) && CString(b, p) == CString(a, p)
    decreases |a| - p
  {
    assert b[p] == a[p];
    if a[p] != 0 {
      KeyStable(a, b, p + 1);
    }
  }

  lemma BytesStable(a: seq<byte>, b: seq<byte>, p: nat, w: nat, s: seq<byte>)
    requires a <= b && BytesAt(a, p, w, s)
    ensures BytesAt(b, p, w, s)
  {
    ReadStable(a, b, p - w, w);
    assert a[p..p + |s|] == b[p..p + |s|];
  }

  lemma ElementStable(a: seq<byte>, b: seq<byte>, p: nat, w: nat, len: nat, i: nat)
    requires a <= b && Element(a, p, w, len, i).Some?
    ensures Element(b, p, w, len, i) == Element(a, p, w, len, i)
  {
  }

  lemma ShapeStable(a: seq<byte>, b: seq<byte>, typ: nat, p: nat, w: nat)
    requires a <= b && TypedShape(a, typ, p, w).Some?
    ensures TypedShape(b, typ, p, w) == TypedShape(a, typ, p, w)
  {
    ReadStable(a, b, p - w, w);
  }

  lemma KeysStable(a: seq<byte>, b: seq<byte>, p: nat, w: nat)
    requires a <= b && Keys(a, p, w).Some?
    ensures Keys(b, p, w) == Keys(a, p, w)
  {
    ReadStable(a, b, p - 3 * w, w);
    ReadStable(a, b, p - 2 * w, w);
  }

  lemma {:induction false} RefStable(a: seq<byte>, b: seq<byte>, r: Ref, v: Tree)
    requires a <= b && RefShows(a, r, v)
    ensures RefShows(b, r, v)
    decreases v, 1
  {
    ReadStable(a, b, r.pos, r.parentWidth);
    hide ReadUInt64, ReadInt64;
    match v
    case VNull =>
    case VBool(_) =>
    case VInt(_) =>
    case VUInt(_) =>
    case _ =>
      var p := Indirect(a, r.pos, r.parentWidth);
      ObjStable(a, b, r.typ, p.value, r.byteWidth, v);
  }

  lemma {:induction false} ObjStable(a: seq<byte>, b: seq<byte>, typ: nat, p: nat, w: nat, v: Tree)
    requires a <= b && ObjShows(a, typ, p, w, v)
    ensures ObjShows(b, typ, p, w, v)
    decreases v, 0
  {
    ReadStable(a, b, p, w);
    ReadStable(a, b, p - w, w);
    hide ReadUInt64, ReadInt64, Element;
    match v
    case VKey(s) => KeyStable(a, b, p);
    case VString(s) => BytesStable(a, b, p, w, s);
    case VBlob(s) => BytesStable(a, b, p, w, s);
    case VVector(es) => ElemsStable(a, b, p, w, es);
    case VTyped(t, es) =>
      ShapeStable(a, b, t, p, w);
      TypedStable(a, b, p, w, TypedShape(a, t, p, w).value.0, es);
    case VMap(ks, vs) =>
      ElemsStable(a, b, p, w, vs);
      MapKeysStable(a, b, p, w, ks);
    case _ =>
  }

  lemma {:induction false} ElemsStable(a: seq<byte>, b: seq<byte>, p: nat, w: nat, es: seq<Tree>)
    requires a <= b && ElemsShow(a, p, w, es)
    ensures ElemsShow(b, p, w, es)
    decreases es, 2
  {
    forall i | 0 <= i < |es|
      ensures var r := Element(b, p, w, |es|, i); r.Some? && RefShows(b, r.value, es[i])
    {
      ElementStable(a, b, p, w, |es|, i);
      RefStable(a, b, Element(a, p, w, |es|, i).value, es[i]);
    }
  }

  lemma {:induction false} TypedStable(a: seq<byte>, b: seq<byte>, p: nat, w: nat, t: nat, es: seq<Tree>)
    requires a <= b && TypedShow(a, p, w, t, es)
    ensures TypedShow(b, p, w, t, es)
    decreases es, 2
  {
    forall i | 0 <= i < |es| ensures RefShows(b, TypedElement(p, w, t, i), es[i]) {
      RefStable(a, b, TypedElement(p, w, t, i), es[i]);
    }
  }

  lemma KeyRefStable(a: seq<byte>, b: seq<byte>, p: nat, w: nat, i: nat, s: seq<byte>)
    requires a <= b && KeyRefShows(a, p, w, i, s)
    ensures KeyRefShows(b, p, w, i, s)
  {
    ReadStable(a, b, ElementPos(p, w, i), w);
    hide ReadUInt64;
    KeyStable(a, b, Indirect(a, ElementPos(p, w, i), w).value);
  }

  lemma MapKeysStable(a: seq<byte>, b: seq<byte>, p: nat, w: nat, ks: seq<seq<byte>>)
    requires a <= b && KeysShow(a, p, w, ks)
    ensures KeysShow(b, p, w, ks)
  {
    KeysStable(a, b, p, w);
    var (k, kw) := Keys(a, p, w).value;
    ReadStable(a, b, k - kw, kw);
    hide ReadUInt64, Keys, KeyRefShows;
    forall i | 0 <= i < |ks| ensures KeyRefShows(b, k, kw, i, ks[i]) {
      KeyRefStable(a, b, k, kw, i, ks[i]);
    }
  }
}
