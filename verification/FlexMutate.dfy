// Updating a scalar of a finished FlexBuffer in place.
module FlexMutate {
  import opened Bits
  import opened Bytes
  import opened Options
  import opened FlexWidth
  import opened FlexTypes
  import opened FlexReader
  import opened FlexFields

  // `memcpy` from an argument: its own bytes, then those that follow it in memory.
  function Copied(arg: seq<byte>, behind: seq<byte>, n: nat): (s: seq<byte>)
    requires n <= |arg| + |behind|
    ensures |s| == n
  {
    (arg + behind)[..n]
  }

  // `Mutate`: as many bytes as the field is wide are copied from the argument to
  // `dest` if the value fits the field.
  function Mutate(buf: seq<byte>, dest: nat, arg: seq<byte>, behind: seq<byte>, field: Width, width: Width): Option<seq<byte>>
    requires dest + ByteWidth(field) <= |buf| && ByteWidth(field) <= |arg| + |behind|
  {
    if Shl(1, width) <= ByteWidth(field)
    then Some(buf[..dest] + Copied(arg, behind, ByteWidth(field)) + buf[dest + ByteWidth(field)..])
    else None
  }

  // A buffer whose bytes are those copied at `dest` and the old ones elsewhere.
  lemma Spliced(b: seq<byte>, buf: seq<byte>, dest: nat, memory: seq<byte>, n: nat)
    requires |b| == |buf| && dest + n <= |buf| && n <= |memory|
    requires forall i :: 0 <= i < n ==> b[dest + i] == memory[i]
    requires forall i :: 0 <= i < dest || dest + n <= i < |b| ==> b[i] == buf[i]
    ensures b == buf[..dest] + memory[..n] + buf[dest + n..]
  {
    var c := buf[..dest] + memory[..n] + buf[dest + n..];
    forall i | 0 <= i < |b| ensures b[i] == c[i] {
      if dest <= i < dest + n { assert b[dest + (i - dest)] == memory[i - dest]; }
    }
  }

  method MutateInPlace(a: array<byte>, dest: nat, arg: seq<byte>, behind: seq<byte>, field: Width, width: Width) returns (fits: bool)
    requires dest + ByteWidth(field) <= a.Length && ByteWidth(field) <= |arg| + |behind|
    modifies a
    ensures match Mutate(old(a[..]), dest, arg, behind, field, width)
      case Some(b) => fits && a[..] == b
      case None => !fits && a[..] == old(a[..])
  {
    fits := Shl(1, width) <= ByteWidth(field);
    if fits {
      var memory, n := arg + behind, ByteWidth(field);
      for k := 0 to n
        invariant forall i :: 0 <= i < k ==> a[dest + i] == memory[i]
        invariant forall i :: 0 <= i < dest || dest + k <= i < a.Length ==> a[i] == old(a[i])
      {
        a[dest + k] := memory[k];
      }
      Spliced(a[..], old(a[..]), dest, memory, n);
    }
  }

  // Only the bytes of the field change.
  ghost predicate SameAround(buf: seq<byte>, b: seq<byte>, dest: nat, n: nat) {
    |b| == |buf| && forall i :: 0 <= i < |buf| && !(dest <= i < dest + n) ==> b[i] == buf[i]
  }

  lemma MutateCopies(buf: seq<byte>, dest: nat, arg: seq<byte>, behind: seq<byte>, field: Width, width: Width)
    requires dest + ByteWidth(field) <= |buf| && ByteWidth(field) <= |arg| + |behind|
    ensures Mutate(buf, dest, arg, behind, field, width).Some? <==> width <= field
    ensures width <= field ==> var b := Mutate(buf, dest, arg, behind, field, width).value;
      && SameAround(buf, b, dest, ByteWidth(field))
      && b[dest..dest + ByteWidth(field)] == Copied(arg, behind, ByteWidth(field))
  {
    assert Shl(1, 0) == 1 && Shl(1, 1) == 2 && Shl(1, 2) == 4 && Shl(1, 3) == 8;
    hide Copied;
  }

  // The low bytes of a wide scalar are the narrow scalar.
  lemma {:induction false} LowBytes(n: nat, k: nat, v: nat)
    requires k <= n
    ensures ToLE(n, v)[..k] == ToLE(k, v)
    decreases k
  {
    if k > 0 {
      LowBytes(n - 1, k - 1, v / 256);
      assert ToLE(n, v)[..k] == [v % 256] + ToLE(n - 1, v / 256)[..k - 1];
    }
  }

  lemma MutateWrites(buf: seq<byte>, dest: nat, bits: nat, behind: seq<byte>, field: Width, width: Width)
    requires dest + ByteWidth(field) <= |buf|
    ensures Mutate(buf, dest, ToLE(8, bits), behind, field, width).Some? <==> width <= field
    ensures width <= field ==> var b := Mutate(buf, dest, ToLE(8, bits), behind, field, width).value;
      && SameAround(buf, b, dest, ByteWidth(field)) && ScalarAt(b, dest, bits, field)
  {
    MutateCopies(buf, dest, ToLE(8, bits), behind, field, width);
    LowBytes(8, ByteWidth(field), bits);
    hide Mutate, SameAround, ToLE;
    assert Copied(ToLE(8, bits), behind, ByteWidth(field)) == ToLE(8, bits)[..ByteWidth(field)];
  }

  // What follows the argument in memory makes no difference exactly when the copy
  // stays inside the argument.
  lemma CopyIsDetermined(buf: seq<byte>, dest: nat, arg: seq<byte>, field: Width, width: Width)
    requires dest + ByteWidth(field) <= |buf| && width <= field && arg != []
    ensures (forall x: seq<byte>, y: seq<byte> | |x| >= 7 && |y| >= 7 ::
              Mutate(buf, dest, arg, x, field, width) == Mutate(buf, dest, arg, y, field, width))
       <==> ByteWidth(field) <= |arg|
  {
    var n := ByteWidth(field);
    if n <= |arg| {
      forall x: seq<byte>, y: seq<byte> | |x| >= 7 && |y| >= 7
        ensures Mutate(buf, dest, arg, x, field, width) == Mutate(buf, dest, arg, y, field, width)
      {
        assert Copied(arg, x, n) == arg[..n] == Copied(arg, y, n);
      }
    } else {
      var x: seq<byte>, y: seq<byte> := seq(7, _ => 0), seq(7, _ => 1);
      MutateCopies(buf, dest, arg, x, field, width);
      MutateCopies(buf, dest, arg, y, field, width);
      assert Copied(arg, x, n)[|arg|] == 0 && Copied(arg, y, n)[|arg|] == 1;
      hide Mutate, SameAround, Copied;
      assert Mutate(buf, dest, arg, x, field, width) != Mutate(buf, dest, arg, y, field, width);
    }
  }

  // Where the number of a field lies, and how wide it is: in the field itself, or
  // in an object stored before it.
  ghost predicate Target(buf: seq<byte>, r: Ref, dest: nat, field: Width) {
    && dest + ByteWidth(field) <= |buf|
    && if IsInline(r.typ) then r.pos == dest && r.parentWidth == ByteWidth(field)
       else Indirect(buf, r.pos, r.parentWidth) == Some(dest) && r.byteWidth == ByteWidth(field)
            && dest + ByteWidth(field) <= r.pos
  }

  // The four branches of `MutateInt`; `None` is the result `false`.
  function MutateInt(buf: seq<byte>, typ: nat, dest: nat, field: Width, i: int, behind: seq<byte>): Option<seq<byte>>
    requires dest + ByteWidth(field) <= |buf| && Int64(i)
  {
    var u := Wrap(8, i);
    RangeAt();
    if typ == INT || typ == INDIRECT_INT then Mutate(buf, dest, ToLE(8, u), behind, field, WidthI(i))
    else if typ == UINT || typ == INDIRECT_UINT then Mutate(buf, dest, ToLE(8, u), behind, field, WidthU(u))
    else None
  }

  // The four branches of `MutateUInt`.
  function MutateUInt(buf: seq<byte>, typ: nat, dest: nat, field: Width, u: nat, behind: seq<byte>): Option<seq<byte>>
    requires dest + ByteWidth(field) <= |buf| && u < TWO_64
  {
    RangeAt();
    if typ == UINT || typ == INDIRECT_UINT then Mutate(buf, dest, ToLE(8, u), behind, field, WidthU(u))
    else if typ == INT || typ == INDIRECT_INT then Mutate(buf, dest, ToLE(8, u), behind, field, WidthI(Signed(8, u)))
    else None
  }

  // A C++ boolean is one byte.
  function BoolImage(b: bool): (s: seq<byte>)
    ensures |s| == 1
  {
    [if b then 1 else 0]
  }

  function MutateBool(buf: seq<byte>, typ: nat, dest: nat, field: Width, b: bool, behind: seq<byte>): Option<seq<byte>>
    requires dest + ByteWidth(field) <= |buf| && |behind| >= 7
  {
    if typ == BOOL then Mutate(buf, dest, BoolImage(b), behind, field, 0) else None
  }

  // The tree a field of a number type shows for a 64-bit pattern.
  function NumberTree(typ: nat, u: nat): Tree
    requires u < TWO_64
  {
    RangeAt();
    if typ == INT then VInt(Signed(8, u))
    else if typ == INDIRECT_INT then VIndirectInt(Signed(8, u))
    else if typ == UINT then VUInt(u)
    else if typ == INDIRECT_UINT then VIndirectUInt(u)
    else VNull
  }

  predicate IsNumber(typ: nat) {
    typ == INT || typ == INDIRECT_INT || typ == UINT || typ == INDIRECT_UINT
  }

  // A number type of this width can hold the pattern.
  predicate NumberFits(typ: nat, u: nat, field: Width)
    requires u < TWO_64
  {
    RangeAt();
    if typ == INT || typ == INDIRECT_INT then IntFits(Signed(8, u), field) else u < Capacity(field)
  }

  // Bytes behind the field, and the field's own pointer, are not touched.
  lemma PointerKept(buf: seq<byte>, b: seq<byte>, r: Ref, dest: nat, field: Width)
    requires Target(buf, r, dest, field) && !IsInline(r.typ) && SameAround(buf, b, dest, ByteWidth(field))
    ensures Indirect(b, r.pos, r.parentWidth) == Some(dest)
  {
    var n := ScalarBytes(r.parentWidth);
    assert b[r.pos..r.pos + n] == buf[r.pos..r.pos + n];
  }

  // A reference to the number at `dest`, in place or by a pointer.
  ghost predicate Leads(b: seq<byte>, r: Ref, dest: nat, field: Width) {
    if IsInline(r.typ) then r.pos == dest && r.parentWidth == ByteWidth(field)
    else Indirect(b, r.pos, r.parentWidth) == Some(dest) && r.byteWidth == ByteWidth(field)
  }

  lemma SignedShows(b: seq<byte>, r: Ref, dest: nat, field: Width, i: int)
    requires Leads(b, r, dest, field) && ScalarAt(b, dest, Wrap(8, i), field) && IntFits(i, field)
    ensures r.typ == INT ==> RefShows(b, r, VInt(i))
    ensures r.typ == INDIRECT_INT ==> RefShows(b, r, VIndirectInt(i))
  {
    hide ScalarAt, ReadInt64, Indirect, IntFits, Wrap;
    IntReads(b, dest, i, field);
  }

  lemma UnsignedShows(b: seq<byte>, r: Ref, dest: nat, field: Width, u: nat)
    requires Leads(b, r, dest, field) && ScalarAt(b, dest, u, field) && u < Capacity(field)
    ensures r.typ == UINT ==> RefShows(b, r, VUInt(u))
    ensures r.typ == INDIRECT_UINT ==> RefShows(b, r, VIndirectUInt(u))
  {
    hide ScalarAt, ReadUInt64, Indirect, Capacity;
    ScalarReads(b, dest, u, field);
  }

  // Once the bytes are in place, the field shows the number.
  lemma NumberShows(buf: seq<byte>, b: seq<byte>, r: Ref, dest: nat, field: Width, u: nat)
    requires Target(buf, r, dest, field) && IsNumber(r.typ) && u < TWO_64 && NumberFits(r.typ, u, field)
    requires SameAround(buf, b, dest, ByteWidth(field)) && ScalarAt(b, dest, u, field)
    ensures RefShows(b, r, NumberTree(r.typ, u))
  {
    SignedWraps(u);
    if !IsInline(r.typ) {
      PointerKept(buf, b, r, dest, field);
    }
    assert Leads(b, r, dest, field);
    hide ScalarAt, Indirect, IntFits, Wrap, Signed, Capacity, Leads, Target, RefShows, Range;
    if r.typ == INT || r.typ == INDIRECT_INT {
      SignedShows(b, r, dest, field, Signed(8, u));
    } else {
      UnsignedShows(b, r, dest, field, u);
    }
  }

  lemma SignedWraps(u: nat)
    requires u < TWO_64
    ensures u < Range(8) && Wrap(8, Signed(8, u)) == u && Int64(Signed(8, u))
  {
    RangeAt();
    if 2 * u < TWO_64 {
      DivModUnique(u, TWO_64, 0, u);
    } else {
      DivModUnique(u - TWO_64, TWO_64, -1, u);
    }
  }

  lemma WrapSigns(i: int)
    requires Int64(i)
    ensures Wrap(8, i) < TWO_64 && Wrap(8, i) < Range(8) && Signed(8, Wrap(8, i)) == i
  {
    RangeAt();
    SignedInverse(8, i);
  }

  // One branch: the width chosen for the value decides whether the type holds it.
  lemma MutateNumber(buf: seq<byte>, r: Ref, dest: nat, field: Width, u: nat, behind: seq<byte>, width: Width)
    requires Target(buf, r, dest, field) && IsNumber(r.typ) && u < TWO_64 && u < Range(8)
    requires width == if r.typ == INT || r.typ == INDIRECT_INT then WidthI(Signed(8, u)) else WidthU(u)
    ensures var m := Mutate(buf, dest, ToLE(8, u), behind, field, width);
      && (m.Some? <==> NumberFits(r.typ, u, field))
      && (m.Some? ==> RefShows(m.value, r, NumberTree(r.typ, u)) && |m.value| == |buf|)
  {
    MutateWrites(buf, dest, u, behind, field, width);
    SignedWraps(u);
    WidthIIsLeast(Signed(8, u));
    WidthUIsLeast(u);
    hide Mutate, ScalarAt, WidthI, WidthU, RefShows, Target, Signed, Range, Capacity, Wrap;
    if width <= field {
      if r.typ == INT || r.typ == INDIRECT_INT {
        WiderInt(Signed(8, u), width, field);
      } else {
        CapacityGrows(width, field);
      }
      NumberShows(buf, Mutate(buf, dest, ToLE(8, u), behind, field, width).value, r, dest, field, u);
    }
  }

  // `MutateInt` on any field: it succeeds exactly when the field is a number
  // whose type and width hold the 64-bit pattern of the value, and then the
  // field shows it, read with the field's own sign.
  lemma MutateIntIsExact(buf: seq<byte>, r: Ref, dest: nat, field: Width, i: int, behind: seq<byte>)
    requires Target(buf, r, dest, field) && Int64(i)
    ensures Wrap(8, i) < TWO_64
    ensures var m := MutateInt(buf, r.typ, dest, field, i, behind);
      && (m.Some? <==> IsNumber(r.typ) && NumberFits(r.typ, Wrap(8, i), field))
      && (m.Some? ==> RefShows(m.value, r, NumberTree(r.typ, Wrap(8, i))) && |m.value| == |buf|)
  {
    WrapSigns(i);
    hide Target, RefShows, Mutate, WidthI, WidthU, NumberFits, NumberTree, Wrap, Signed;
    if IsNumber(r.typ) {
      var u := Wrap(8, i);
      MutateNumber(buf, r, dest, field, u, behind, if r.typ == INT || r.typ == INDIRECT_INT then WidthI(i) else WidthU(u));
    }
  }

  // The same for `MutateUInt`.
  lemma MutateUIntIsExact(buf: seq<byte>, r: Ref, dest: nat, field: Width, u: nat, behind: seq<byte>)
    requires Target(buf, r, dest, field) && u < TWO_64
    ensures var m := MutateUInt(buf, r.typ, dest, field, u, behind);
      && (m.Some? <==> IsNumber(r.typ) && NumberFits(r.typ, u, field))
      && (m.Some? ==> RefShows(m.value, r, NumberTree(r.typ, u)) && |m.value| == |buf|)
  {
    SignedWraps(u);
    hide Target, RefShows, Mutate, WidthI, WidthU, NumberFits, NumberTree, Wrap, Signed;
    if IsNumber(r.typ) {
      MutateNumber(buf, r, dest, field, u, behind, if r.typ == INT || r.typ == INDIRECT_INT then WidthI(Signed(8, u)) else WidthU(u));
    }
  }

  // The field is not zero exactly when one of its bytes is not.
  lemma {:induction false} ZeroBytes(s: seq<byte>)
    ensures FromLE(s) == 0 <==> forall k :: 0 <= k < |s| ==> s[k] == 0
  {
    if s != [] {
      ZeroBytes(s[1..]);
      assert s == [s[0]] + s[1..];
    }
  }

  // The bytes behind the boolean that end up in the field are all zero.
  ghost predicate ZeroBehind(behind: seq<byte>, field: Width)
    requires |behind| >= 7
  {
    forall k :: 0 <= k < ByteWidth(field) - 1 ==> behind[k] == 0
  }

  // `MutateBool` succeeds exactly on boolean fields.  The field is then true if
  // the boolean was, or if one of the bytes copied from behind it is not zero.
  lemma MutateBoolIsExact(buf: seq<byte>, r: Ref, dest: nat, field: Width, b: bool, behind: seq<byte>)
    requires Target(buf, r, dest, field) && |behind| >= 7
    ensures var m := MutateBool(buf, r.typ, dest, field, b, behind);
      && (m.Some? <==> r.typ == BOOL)
      && (m.Some? ==> SameAround(buf, m.value, dest, ByteWidth(field))
                      && RefShows(m.value, r, VBool(b || !ZeroBehind(behind, field))))
  {
    MutateCopies(buf, dest, BoolImage(b), behind, field, 0);
    if r.typ == BOOL {
      var image := Copied(BoolImage(b), behind, ByteWidth(field));
      ZeroBytes(image);
      hide Mutate, SameAround, FromLE;
      assert image[0] == (if b then 1 else 0) && forall k :: 0 < k < ByteWidth(field) ==> image[k] == behind[k - 1];
      assert FromLE(image) != 0 <==> b || !ZeroBehind(behind, field) by {
        forall k | 0 <= k < ByteWidth(field) - 1 ensures image[k + 1] == behind[k] {
        }
      }
    }
  }

  // A boolean field shows the boolean it was given, whatever follows the argument
  // in memory, if and only if the boolean is true or the field is one byte wide.
  lemma BoolShownIff(buf: seq<byte>, r: Ref, dest: nat, field: Width, b: bool)
    requires Target(buf, r, dest, field) && r.typ == BOOL
    ensures (forall behind: seq<byte> | |behind| >= 7 ::
              var m := MutateBool(buf, r.typ, dest, field, b, behind); m.Some? && RefShows(m.value, r, VBool(b)))
       <==> b || field == 0
  {
    hide RefShows, MutateBool;
    forall behind: seq<byte> | |behind| >= 7
      ensures var m := MutateBool(buf, r.typ, dest, field, b, behind);
        m.Some? && RefShows(m.value, r, VBool(b || !ZeroBehind(behind, field)))
    {
      MutateBoolIsExact(buf, r, dest, field, b, behind);
    }
    if !b && field != 0 {
      var behind: seq<byte> := seq(7, _ => 1);
      MutateBoolIsExact(buf, r, dest, field, b, behind);
      assert behind[0] != 0 && !ZeroBehind(behind, field);
      ShowsOneBool(MutateBool(buf, r.typ, dest, field, b, behind).value, r);
    }
  }

  // The copy stays inside the boolean exactly for fields one byte wide.
  lemma BoolIsDetermined(buf: seq<byte>, dest: nat, field: Width, b: bool)
    requires dest + ByteWidth(field) <= |buf|
    ensures (forall x: seq<byte>, y: seq<byte> | |x| >= 7 && |y| >= 7 ::
              MutateBool(buf, BOOL, dest, field, b, x) == MutateBool(buf, BOOL, dest, field, b, y))
       <==> field == 0
  {
    CopyIsDetermined(buf, dest, BoolImage(b), field, 0);
    hide Mutate;
  }

  lemma ShowsOneBool(buf: seq<byte>, r: Ref)
    ensures !(RefShows(buf, r, VBool(true)) && RefShows(buf, r, VBool(false)))
  {
    hide ReadUInt64;
  }

  // A value of one sign in a field of the other: a negative number goes into an
  // unsigned field only at eight bytes.
  lemma NegativeInUnsigned(i: int, typ: nat, field: Width)
    requires Int64(i) && i < 0 && (typ == UINT || typ == INDIRECT_UINT)
    ensures Wrap(8, i) < TWO_64 && (NumberFits(typ, Wrap(8, i), field) <==> field == 3)
  {
    RangeAt();
    DivModUnique(i, TWO_64, -1, i + TWO_64);
  }
}
