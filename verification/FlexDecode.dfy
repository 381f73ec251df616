// Decoding a whole FlexBuffers tree with the accessors.
module FlexDecode {
  import opened Bits
  import opened Bytes
  import opened Ordering
  import opened Options
  import opened FlexTypes
  import opened FlexReader

  // Offsets of a malformed buffer can form a cycle, so decoding is bounded.
  function Decode(buf: seq<byte>, r: Ref, depth: nat): Option<Tree>
    decreases depth, 2
  {
    if r.typ == NULL_TYPE then Some(VNull)
    else if r.typ == BOOL then
      var n :- ReadUInt64(buf, r.pos, r.parentWidth);
      Some(VBool(n != 0))
    else if r.typ == INT then
      var i :- ReadInt64(buf, r.pos, r.parentWidth);
      Some(VInt(i))
    else if r.typ == UINT then
      var u :- ReadUInt64(buf, r.pos, r.parentWidth);
      Some(VUInt(u))
    else if depth == 0 then None
    else
      var p :- Indirect(buf, r.pos, r.parentWidth);
      DecodeObject(buf, r.typ, p, r.byteWidth, depth - 1)
  }

  function DecodeBytes(buf: seq<byte>, p: nat, w: nat): Option<seq<byte>> {
    var len :- Size(buf, p, w);
    if p + len <= |buf| then Some(buf[p..p + len]) else None
  }

  function DecodeKey(buf: seq<byte>, p: nat): Option<seq<byte>> {
    if Terminated(buf, p) then Some(CString(buf, p)) else None
  }

  function DecodeObject(buf: seq<byte>, typ: nat, p: nat, w: nat, depth: nat): Option<Tree>
    decreases depth, 4
  {
    if typ == INDIRECT_INT then
      var i :- ReadInt64(buf, p, w);
      Some(VIndirectInt(i))
    else if typ == INDIRECT_UINT then
      var u :- ReadUInt64(buf, p, w);
      Some(VIndirectUInt(u))
    else if typ == KEY then
      var s :- DecodeKey(buf, p);
      Some(VKey(s))
    else if typ == STRING then
      var s :- DecodeBytes(buf, p, w);
      Some(VString(s))
    else if typ == BLOB then
      var s :- DecodeBytes(buf, p, w);
      Some(VBlob(s))
    else if typ == VECTOR then
      var len :- Size(buf, p, w);
      var es :- DecodeElements(buf, p, w, len, len, depth);
      Some(VVector(es))
    else if typ == MAP then
      var len :- Size(buf, p, w);
      var keys :- Keys(buf, p, w);
      var n :- Size(buf, keys.0, keys.1);
      var ks :- DecodeKeys(buf, keys.0, keys.1, n);
      var vs :- DecodeElements(buf, p, w, len, len, depth);
      Some(VMap(ks, vs))
    else
      var shape :- TypedShape(buf, typ, p, w);
      var es :- DecodeTyped(buf, p, w, shape.0, shape.1, depth);
      Some(VTyped(typ, es))
  }

  // The first `n` of `len` elements.
  function DecodeElements(buf: seq<byte>, p: nat, w: nat, len: nat, n: nat, depth: nat): Option<seq<Tree>>
    decreases depth, 3, n
  {
    if n == 0 then Some([])
    else
      var before :- DecodeElements(buf, p, w, len, n - 1, depth);
      var r :- Element(buf, p, w, len, n - 1);
      var e :- Decode(buf, r, depth);
      Some(before + [e])
  }

  function DecodeTyped(buf: seq<byte>, p: nat, w: nat, t: nat, n: nat, depth: nat): Option<seq<Tree>>
    decreases depth, 3, n
  {
    if n == 0 then Some([])
    else
      var before :- DecodeTyped(buf, p, w, t, n - 1, depth);
      var e :- Decode(buf, TypedElement(p, w, t, n - 1), depth);
      Some(before + [e])
  }

  function DecodeKeys(buf: seq<byte>, p: nat, w: nat, n: nat): Option<seq<seq<byte>>> {
    if n == 0 then Some([])
    else
      var before :- DecodeKeys(buf, p, w, n - 1);
      var k :- Indirect(buf, ElementPos(p, w, n - 1), w);
      var s :- DecodeKey(buf, k);
      Some(before + [s])
  }

  // How many indirections lie on a path of the tree.
  function Depth(v: Tree): nat {
    match v
    case VNull => 0
    case VBool(_) => 0
    case VInt(_) => 0
    case VUInt(_) => 0
    case VVector(es) => 1 + DepthAll(es)
    case VTyped(_, es) => 1 + DepthAll(es)
    case VMap(_, vs) => 1 + DepthAll(vs)
    case _ => 1
  }

  function DepthAll(es: seq<Tree>): nat {
    if es == [] then 0 else Max(Depth(es[0]), DepthAll(es[1..]))
  }

  lemma {:induction false} DepthCovers(es: seq<Tree>, i: nat)
    requires i < |es|
    ensures Depth(es[i]) <= DepthAll(es)
  {
    if i > 0 {
      DepthCovers(es[1..], i - 1);
    }
  }

  // What the accessors show is what decoding returns.
  lemma {:induction false} DecodeShows(buf: seq<byte>, r: Ref, v: Tree, depth: nat)
    requires RefShows(buf, r, v) && Depth(v) <= depth
    ensures Decode(buf, r, depth) == Some(v)
    decreases v, 2
  {
    hide ReadUInt64, ReadInt64, Indirect;
    match v
    case VNull =>
    case VBool(_) =>
    case VInt(_) =>
    case VUInt(_) =>
    case _ => DecodeObjectShows(buf, r.typ, Indirect(buf, r.pos, r.parentWidth).value, r.byteWidth, v, depth - 1);
  }

  lemma LeafShows(buf: seq<byte>, typ: nat, p: nat, w: nat, v: Tree, depth: nat)
    requires ObjShows(buf, typ, p, w, v) && !v.VVector? && !v.VTyped? && !v.VMap?
    ensures DecodeObject(buf, typ, p, w, depth) == Some(v)
    ensures !IsInline(typ)
  {
    hide ReadUInt64, ReadInt64, Size, Keys, CString, Terminated;
  }

  lemma {:induction false} DecodeObjectShows(buf: seq<byte>, typ: nat, p: nat, w: nat, v: Tree, depth: nat)
    requires ObjShows(buf, typ, p, w, v) && Depth(v) <= depth + 1
    ensures DecodeObject(buf, typ, p, w, depth) == Some(v)
    ensures !IsInline(typ)
    decreases v, 1
  {
    hide ReadUInt64, ReadInt64, Size, Keys, RefShows;
    match v
    case VVector(es) =>
      DecodeElementsShow(buf, p, w, es, |es|, depth);
      assert es[..|es|] == es;
    case VTyped(t, es) =>
      DecodeTypedShow(buf, p, w, TypedShape(buf, t, p, w).value.0, es, |es|, depth);
      assert es[..|es|] == es;
    case VMap(ks, vs) =>
      var keys := Keys(buf, p, w).value;
      DecodeKeysShow(buf, keys.0, keys.1, ks, |ks|);
      DecodeElementsShow(buf, p, w, vs, |vs|, depth);
      assert ks[..|ks|] == ks && vs[..|vs|] == vs;
    case _ =>
      LeafShows(buf, typ, p, w, v, depth);
  }

  lemma {:induction false} DecodeElementsShow(buf: seq<byte>, p: nat, w: nat, es: seq<Tree>, n: nat, depth: nat)
    requires ElemsShow(buf, p, w, es) && DepthAll(es) <= depth && n <= |es|
    ensures DecodeElements(buf, p, w, |es|, n, depth) == Some(es[..n])
    decreases es, 3, n
  {
    if n > 0 {
      DecodeElementsShow(buf, p, w, es, n - 1, depth);
      DepthCovers(es, n - 1);
      DecodeShows(buf, Element(buf, p, w, |es|, n - 1).value, es[n - 1], depth);
      assert es[..n] == es[..n - 1] + [es[n - 1]];
    }
  }

  lemma {:induction false} DecodeTypedShow(buf: seq<byte>, p: nat, w: nat, t: nat, es: seq<Tree>, n: nat, depth: nat)
    requires TypedShow(buf, p, w, t, es) && DepthAll(es) <= depth && n <= |es|
    ensures DecodeTyped(buf, p, w, t, n, depth) == Some(es[..n])
    decreases es, 3, n
  {
    if n > 0 {
      DecodeTypedShow(buf, p, w, t, es, n - 1, depth);
      DepthCovers(es, n - 1);
      DecodeShows(buf, TypedElement(p, w, t, n - 1), es[n - 1], depth);
      assert es[..n] == es[..n - 1] + [es[n - 1]];
    }
  }

  lemma {:induction false} DecodeKeysShow(buf: seq<byte>, p: nat, w: nat, ks: seq<seq<byte>>, n: nat)
    requires n <= |ks| && forall i :: 0 <= i < |ks| ==> KeyRefShows(buf, p, w, i, ks[i])
    ensures DecodeKeys(buf, p, w, n) == Some(ks[..n])
  {
    hide Indirect, CString, Terminated;
    if n > 0 {
      DecodeKeysShow(buf, p, w, ks, n - 1);
      assert KeyRefShows(buf, p, w, n - 1, ks[n - 1]);
      assert ks[..n] == ks[..n - 1] + [ks[n - 1]];
    }
  }
}
