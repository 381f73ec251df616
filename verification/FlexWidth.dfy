// Bit widths of FlexBuffers: how many bytes a scalar or an offset needs.
module FlexWidth {
  import opened Bits
  import opened Bytes
  import opened Alignment

  // A bit width 0..3 stands for 8, 16, 32 or 64 bits.
  type Width = bw: nat | bw <= 3

  function ByteWidth(bw: Width): (w: nat)
    ensures IsAlignment(w)
  {
    if bw == 0 then 1 else if bw == 1 then 2 else if bw == 2 then 4 else 8
  }

  // The number of values that fit the width.
  function Capacity(bw: Width): (n: nat)
    ensures n > 0
  {
    if bw == 0 then 0x100 else if bw == 1 then 0x1_0000 else if bw == 2 then TWO_32 else TWO_64
  }

  lemma CapacityIsRange(bw: Width)
    ensures Capacity(bw) == Range(ByteWidth(bw))
  {
    RangeAt();
  }

  lemma CapacityGrows(a: Width, b: nat)
    ensures a <= b <= 3 ==> Capacity(a) <= Capacity(b)
  {
  }

  // `u & ~((1 << bits) - 1)` is zero.
  predicate FitsBits(u: nat, bits: nat)
    requires u < TWO_64 && bits < 64
  {
    And(u, Not64((Shl(1, bits) - 1) % TWO_64)) == 0
  }

  function WidthU(u: nat): Width
    requires u < TWO_64
  {
    if FitsBits(u, 8) then 0
    else if FitsBits(u, 16) then 1
    else if FitsBits(u, 32) then 2
    else 3
  }

  lemma MaskComplement(bits: nat)
    requires 0 < bits < 64
    ensures Not64((Shl(1, bits) - 1) % TWO_64) == Shl(Pow2(64 - bits) - 1, bits)
  {
    ShlComplement(64 - bits, bits);
    Pow2At(64);
    assert Pow2(64 - bits) == 2 * Pow2(63 - bits);
    ShlZero(Pow2(64 - bits) - 1, bits);
    DivModUnique(Shl(1, bits) - 1, TWO_64, 0, Shl(1, bits) - 1);
  }

  // The mask test says that `u` is below `2^bits`.
  lemma FitsBitsMeans(u: nat, bits: nat)
    requires u < TWO_64 && 0 < bits < 64
    ensures FitsBits(u, bits) <==> u < Pow2(bits)
  {
    hide And, Shr, Shl, Pow2;
    var m := Pow2(64 - bits);
    var high := Shr(u, bits);
    MaskComplement(bits);
    AndHighMask(u, m - 1, bits);
    Pow2At(64);
    ShrBound(u, bits, 64 - bits);
    AndLowMask(high, 64 - bits);
    DivModUnique(high, m, 0, high);
    ShlZero(high, bits);
    ShrIsZero(u, bits);
  }

  // The least width that holds `u`.
  lemma WidthUIsLeast(u: nat)
    requires u < TWO_64
    ensures u < Capacity(WidthU(u))
    ensures forall bw: Width :: u < Capacity(bw) ==> WidthU(u) <= bw
  {
    hide FitsBits;
    FitsBitsMeans(u, 8);
    FitsBitsMeans(u, 16);
    FitsBitsMeans(u, 32);
    Pow2At(8);
    Pow2At(16);
    Pow2At(32);
  }

  const INT64_LIMIT: int := 0x8000_0000_0000_0000

  predicate Int64(i: int) {
    -INT64_LIMIT <= i < INT64_LIMIT
  }

  // `i` lies in the two's complement range of the width.
  predicate IntFits(i: int, bw: Width) {
    0 <= 2 * i + Capacity(bw) && 2 * i < Capacity(bw)
  }

  // `static_cast<uint64_t>(i) << 1`, complemented for a negative `i`.
  function Folded(i: int): (u: nat)
    requires Int64(i)
    ensures u < TWO_64
  {
    var u := Shl(Wrap(8, i), 1) % TWO_64;
    if i >= 0 then u else Not64(u)
  }

  function WidthI(i: int): Width
    requires Int64(i)
  {
    WidthU(Folded(i))
  }

  lemma FoldedIs(i: int)
    requires Int64(i)
    ensures Folded(i) == if i >= 0 then 2 * i else -2 * i - 1
  {
    RangeAt();
    var u := if i >= 0 then i else i + TWO_64;
    DivModUnique(i, TWO_64, if i >= 0 then 0 else -1, u);
    assert Shl(u, 1) == 2 * Shl(u, 0);
    DivModUnique(2 * u, TWO_64, if i >= 0 then 0 else 1, if i >= 0 then 2 * i else 2 * i + TWO_64);
  }

  // The least width whose two's complement range holds `i`.
  lemma WidthIIsLeast(i: int)
    requires Int64(i)
    ensures IntFits(i, WidthI(i))
    ensures forall bw: Width :: IntFits(i, bw) ==> WidthI(i) <= bw
  {
    FoldedIs(i);
    WidthUIsLeast(Folded(i));
    hide WidthU, Folded;
  }

  // `i` fields of the given width, in bytes.
  function Stride(i: nat, bw: Width): nat {
    if bw == 0 then i else if bw == 1 then 2 * i else if bw == 2 then 4 * i else 8 * i
  }

  // Where field `i` lies of a vector whose fields are that wide, when the
  // vector is appended to a buffer of `size` bytes.
  function FieldLoc(size: nat, i: nat, bw: Width): nat {
    size + Padding(size, ByteWidth(bw)) + Stride(i, bw)
  }

  lemma AlignedWeaker(n: nat, a: Width, b: Width)
    requires a <= b && Aligned(n, ByteWidth(b))
    ensures Aligned(n, ByteWidth(a))
  {
    if b == 3 {
      DivModUnique(n, 4, 2 * (n / 8), 0);
      DivModUnique(n, 2, 4 * (n / 8), 0);
    } else if b == 2 {
      DivModUnique(n, 2, 2 * (n / 4), 0);
    }
  }

  lemma PaddingGrows(size: nat, a: Width, b: Width)
    requires a <= b
    ensures Padding(size, ByteWidth(a)) <= Padding(size, ByteWidth(b))
  {
    var p := Padding(size, ByteWidth(b));
    AlignedWeaker(size + p, a, b);
    hide Aligned, ByteWidth, Padding;
    PaddingSmallest(size, ByteWidth(a), p);
  }

  lemma FieldLocGrows(size: nat, k: nat, i: nat, a: Width, b: Width)
    requires a <= b && k <= i
    ensures FieldLoc(size, k, a) <= FieldLoc(size, i, b)
  {
    PaddingGrows(size, a, b);
    hide Padding;
  }

  // The offset a field `i` of width `bw` would store to reach `u`.
  function Reach(u: nat, size: nat, i: nat, bw: Width): nat
    requires u <= size
  {
    FieldLoc(size, i, bw) - u
  }

  lemma ReachGrows(u: nat, size: nat, k: nat, i: nat, a: Width, b: Width)
    requires u <= size && a <= b && k <= i
    ensures Reach(u, size, k, a) <= Reach(u, size, i, b)
  {
    FieldLocGrows(size, k, i, a, b);
  }

  // The candidate widths of an offset to `u`, in turn, from width `bw`.
  function OffsetWidth(u: nat, size: nat, i: nat, bw: Width): Width
    requires u <= size && Reach(u, size, i, 3) < TWO_64
    decreases 3 - bw
  {
    ReachGrows(u, size, i, i, bw, 3);
    if WidthU(Reach(u, size, i, bw)) == bw || bw == 3 then bw
    else OffsetWidth(u, size, i, bw + 1)
  }

  // The loop ends inside: at the width it returns, the offset needs exactly that width.
  lemma {:induction false} OffsetWidthFits(u: nat, size: nat, i: nat, bw: Width)
    requires u <= size && Reach(u, size, i, 3) < TWO_64
    requires bw > 0 ==> Reach(u, size, i, bw) >= Capacity(bw - 1)
    ensures Reach(u, size, i, OffsetWidth(u, size, i, bw)) <= Reach(u, size, i, 3)
    ensures WidthU(Reach(u, size, i, OffsetWidth(u, size, i, bw))) == OffsetWidth(u, size, i, bw)
    decreases 3 - bw
  {
    hide WidthU, Reach;
    ReachGrows(u, size, i, i, bw, 3);
    var d := Reach(u, size, i, bw);
    WidthUIsLeast(d);
    if WidthU(d) > bw {
      ReachGrows(u, size, i, i, bw, bw + 1);
      OffsetWidthFits(u, size, i, bw + 1);
    } else if bw > 0 {
      CapacityGrows(WidthU(d), bw - 1);
    }
  }

  // An estimate at an element's own width `bw`, and at an index `i` past its
  // place `k`, is enough for any width the vector is written with.
  lemma EstimateSuffices(u: nat, size: nat, k: nat, i: nat, bw: Width, wide: Width)
    requires u <= size && k <= i && bw <= wide && Reach(u, size, i, 3) < TWO_64
    requires Reach(u, size, i, bw) < Capacity(bw)
    ensures Reach(u, size, k, wide) < Capacity(wide)
  {
    ReachGrows(u, size, k, i, wide, 3);
    ReachGrows(u, size, k, i, wide, wide);
    hide Padding;
    if bw < wide < 3 {
      assert Padding(size, ByteWidth(wide)) < 8;
      assert Stride(k, wide) <= 4 * Stride(i, bw);
    }
  }
}
