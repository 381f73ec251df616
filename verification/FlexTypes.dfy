// Types, packed type bytes and stack values of FlexBuffers.
module FlexTypes {
  import opened Bits
  import opened FlexWidth

  const NULL_TYPE: nat := 0
  const INT: nat := 1
  const UINT: nat := 2
  const FLOAT: nat := 3
  const KEY: nat := 4
  const STRING: nat := 5
  const INDIRECT_INT: nat := 6
  const INDIRECT_UINT: nat := 7
  const MAP: nat := 9
  const VECTOR: nat := 10
  const VECTOR_INT: nat := 11
  const VECTOR_KEY: nat := 14
  const VECTOR_STRING_DEPRECATED: nat := 15
  const VECTOR_INT2: nat := 16
  const VECTOR_INT3: nat := 19
  const VECTOR_INT4: nat := 22
  const VECTOR_FLOAT4: nat := 24
  const BLOB: nat := 25
  const BOOL: nat := 26
  const VECTOR_BOOL: nat := 36

  predicate IsInline(t: nat) {
    t <= FLOAT || t == BOOL
  }

  predicate IsTypedVectorElementType(t: nat) {
    INT <= t <= STRING || t == BOOL
  }

  predicate IsTypedVector(t: nat) {
    VECTOR_INT <= t <= VECTOR_STRING_DEPRECATED || t == VECTOR_BOOL
  }

  predicate IsFixedTypedVector(t: nat) {
    VECTOR_INT2 <= t <= VECTOR_FLOAT4
  }

  function ToTypedVector(t: nat, fixedLen: nat): nat
    requires IsTypedVectorElementType(t) && (fixedLen == 0 || 2 <= fixedLen <= 4)
  {
    t - INT + (if fixedLen == 0 then VECTOR_INT
               else if fixedLen == 2 then VECTOR_INT2
               else if fixedLen == 3 then VECTOR_INT3
               else VECTOR_INT4)
  }

  function ToTypedVectorElementType(t: nat): nat
    requires IsTypedVector(t)
  {
    t - VECTOR_INT + INT
  }

  function ToFixedTypedVectorElementType(t: nat): (nat, nat)
    requires IsFixedTypedVector(t)
  {
    ((t - VECTOR_INT2) % 3 + INT, (t - VECTOR_INT2) / 3 + 2)
  }

  // The reader recovers element type and length from the vector type the
  // writer chose; for fixed lengths only numbers survive.
  lemma TypedVectorTypes(t: nat, fixedLen: nat)
    requires IsTypedVectorElementType(t) && (fixedLen == 0 || 2 <= fixedLen <= 4)
    ensures fixedLen == 0 ==>
      IsTypedVector(ToTypedVector(t, 0)) && ToTypedVectorElementType(ToTypedVector(t, 0)) == t
    ensures fixedLen != 0 ==>
      (t <= FLOAT <==> IsFixedTypedVector(ToTypedVector(t, fixedLen))
                       && ToFixedTypedVectorElementType(ToTypedVector(t, fixedLen)) == (t, fixedLen))
  {
  }

  // What the others turn into: keys and strings of length two or three read as
  // one number more, of length four as a blob or a boolean, and booleans get a
  // type the reader does not know.
  lemma FixedNonNumbers(t: nat, n: nat)
    requires IsTypedVectorElementType(t) && t > FLOAT && 2 <= n <= 4
    ensures t != BOOL && n < 4 ==>
      && IsFixedTypedVector(ToTypedVector(t, n))
      && ToFixedTypedVectorElementType(ToTypedVector(t, n)) == (if t == KEY then INT else UINT, n + 1)
    ensures t != BOOL && n == 4 ==> ToTypedVector(t, n) == if t == KEY then BLOB else BOOL
    ensures t == BOOL ==> ToTypedVector(t, n) > VECTOR_BOOL
  {
    assert t == KEY || t == STRING || t == BOOL;
  }

  // ------------------------------------------------------------ packed types

  function PackedType(bw: Width, t: nat): nat {
    Or(bw, Shl(t, 2)) % 256
  }

  function UnpackWidth(packed: nat): nat {
    Shl(1, And(packed, 3))
  }

  function UnpackType(packed: nat): nat {
    Shr(packed, 2)
  }

  lemma PackedTypeIs(bw: Width, t: nat)
    requires t < 64
    ensures PackedType(bw, t) == 4 * t + bw
  {
    hide Or, Shl;
    FourTimes(t);
    OrCommutes(bw, Shl(t, 2));
    LowBits(t, bw);
  }

  lemma FourTimes(t: nat)
    ensures Shl(t, 2) == 4 * t
  {
    assert Pow2(2) == 4;
    hide Pow2, Shl;
    ShlIsProduct(t, 2);
  }

  lemma LowBits(t: nat, bw: Width)
    ensures Or(Shl(t, 2), bw) == Shl(t, 2) + bw
  {
    assert Pow2(2) == 4;
    hide Pow2, Shl, Or;
    OrDisjoint(t, bw, 2);
  }

  lemma UnpackTypeIs(packed: nat)
    ensures And(packed, 3) == packed % 4 && UnpackType(packed) == packed / 4
  {
    assert Pow2(2) == 4;
    AndLowMask(packed, 2);
    ShrIsQuotient(packed, 2);
  }

  lemma PackRoundTrip(bw: Width, t: nat)
    requires t < 64
    ensures PackedType(bw, t) < 256
    ensures UnpackWidth(PackedType(bw, t)) == ByteWidth(bw)
    ensures UnpackType(PackedType(bw, t)) == t
  {
    PackedTypeIs(bw, t);
    UnpackTypeIs(4 * t + bw);
    DivModUnique(4 * t + bw, 4, t, bw);
    hide Or, And, Shr, PackedType;
    assert Shl(1, 0) == 1 && Shl(1, 1) == 2 && Shl(1, 2) == 4 && Shl(1, 3) == 8;
  }

  // ------------------------------------------------------------ stack values

  // The bits of a scalar, or the absolute position of an object.
  datatype Value = Value(bits: nat, typ: nat, width: Width)

  function MaxWidth(a: Width, b: Width): Width {
    if a < b then b else a
  }

  // `u_` points into a buffer of `size` bytes that offsets can span.
  predicate Placed(v: Value, size: nat) {
    IsInline(v.typ) || v.bits <= size
  }

  const MAX_SIZE: nat := 0x2000_0000_0000_0000

  function ElemWidth(v: Value, size: nat, i: nat): Width
    requires Placed(v, size) && size <= MAX_SIZE && i <= MAX_SIZE / 8
  {
    if IsInline(v.typ) then v.width
    else
      ReachBound(v.bits, size, i);
      OffsetWidth(v.bits, size, i, 0)
  }

  lemma ReachBound(u: nat, size: nat, i: nat)
    requires u <= size <= MAX_SIZE && i <= MAX_SIZE / 8
    ensures Reach(u, size, i, 3) < TWO_64
  {
  }

  function StoredWidth(v: Value, parent: Width): Width {
    if IsInline(v.typ) then MaxWidth(v.width, parent) else v.width
  }

  function StoredPackedType(v: Value, parent: Width): nat {
    PackedType(StoredWidth(v, parent), v.typ)
  }

  // The value an estimate was made for can be written at that width, and at
  // every greater one, at its real place `k`.
  lemma ElemWidthSuffices(v: Value, size: nat, k: nat, i: nat, wide: Width)
    requires Placed(v, size) && size <= MAX_SIZE && k <= i <= MAX_SIZE / 8
    requires ElemWidth(v, size, i) <= wide
    ensures IsInline(v.typ) ==> v.width <= wide
    ensures !IsInline(v.typ) ==> Reach(v.bits, size, k, wide) < Capacity(wide)
  {
    if !IsInline(v.typ) {
      var w := ElemWidth(v, size, i);
      ReachBound(v.bits, size, i);
      OffsetWidthFits(v.bits, size, i, 0);
      WidthUIsLeast(Reach(v.bits, size, i, w));
      hide Reach, WidthU, OffsetWidth;
      EstimateSuffices(v.bits, size, k, i, w, wide);
    }
  }
}
