// Padding and alignment.
module Alignment {
  import opened Bits

  // The two's complement negation `(~n) + 1` of a `size_t` argument.
  function Negate64(n: nat): (r: nat)
    ensures r < TWO_64
  {
    (Not64(n % TWO_64) + 1) % TWO_64
  }

  // How many bytes bring a buffer of `n` bytes to a multiple of `s`.
  function PaddingBytes(n: nat, s: nat): (p: nat)
    requires PowerOfTwo(s)
    ensures p < s && (n + p) % s == 0
  {
    PaddingBytesAligns(n, s);
    And(Negate64(n), s - 1)
  }

  // The bit trick computes the least padding, for every power of two.
  lemma PaddingBytesAligns(n: nat, s: nat)
    requires PowerOfTwo(s)
    ensures And(Negate64(n), s - 1) < s
    ensures (n + And(Negate64(n), s - 1)) % s == 0
  {
    var k: nat :| k < 64 && s == Pow2(k);
    AndLowMask(Negate64(n), k);
    var p := Negate64(n) % s;
    assert TWO_64 == Pow2(64 - k) * s by {
      Pow2Sum(64 - k, k);
      Pow2At(64);
    }
    hide Pow2, And, Negate64;
    NegationModulo(n, s, Pow2(64 - k));
  }

  lemma NegationModulo(n: nat, s: nat, c: nat)
    requires s > 0 && TWO_64 == c * s
    ensures (n + Negate64(n) % s) % s == 0
  {
    var m := Negate64(n);
    var a := NegationSum(n, m);
    hide Negate64;
    MultipleLess(n, m, s, c, a, m / s, m % s);
  }

  lemma NegationSum(n: nat, m: nat) returns (a: nat)
    requires m == Negate64(n)
    ensures n + m == a * TWO_64
  {
    a := n / TWO_64 + if n % TWO_64 == 0 then 0 else 1;
  }

  // Dropping a multiple of `s` from a multiple of `s`.
  lemma MultipleLess(n: nat, m: nat, s: nat, c: nat, a: nat, q: nat, r: nat)
    requires s > 0 && TWO_64 == c * s && n + m == a * TWO_64 && m == q * s + r
    ensures (n + r) % s == 0
  {
    Distribute(a, c, q, s);
    assert a * TWO_64 == a * (c * s);
    DivModUnique(n + r, s, a * c - q, 0);
  }

  lemma Distribute(a: int, c: int, q: int, s: int)
    ensures (a * c - q) * s == a * (c * s) - q * s
  {
  }

  // Padding is the least number of bytes that aligns.
  lemma PaddingIsLeast(n: nat, s: nat, p: nat)
    requires PowerOfTwo(s) && (n + p) % s == 0
    ensures PaddingBytes(n, s) <= p
  {
    MultiplesApart(n + p, n + PaddingBytes(n, s), s);
  }

  lemma MultiplesApart(a: nat, b: nat, s: nat)
    requires s > 0 && a % s == 0 && b % s == 0
    ensures a < b ==> a + s <= b
  {
    var d := b / s - a / s;
    assert s * d == b - a;
    MulMagnitude(s, d);
  }

  // The alignments the serializer uses: scalar sizes and the supported maximum.
  predicate IsAlignment(a: nat) {
    a == 1 || a == 2 || a == 4 || a == 8 || a == 16
  }

  // `n` is a multiple of `a`, with the divisor spelled out case by case.
  predicate Aligned(n: nat, a: nat)
    requires IsAlignment(a)
  {
    if a == 16 then n % 16 == 0
    else if a == 8 then n % 8 == 0
    else if a == 4 then n % 4 == 0
    else if a == 2 then n % 2 == 0
    else true
  }

  lemma AlignedIsMultiple(n: nat, a: nat)
    requires IsAlignment(a)
    ensures Aligned(n, a) <==> n % a == 0
  {
    assert n % 1 == 0;
  }

  function Padding(n: nat, s: nat): (p: nat)
    requires IsAlignment(s)
    ensures p < s && Aligned(n + p, s)
  {
    SmallPowers(s);
    var p := PaddingBytes(n, s);
    AlignedIsMultiple(n + p, s);
    p
  }

  lemma SmallPowers(a: nat)
    requires IsAlignment(a)
    ensures PowerOfTwo(a)
  {
    assert Pow2(0) == 1 && Pow2(1) == 2 && Pow2(2) == 4 && Pow2(3) == 8;
    assert Pow2(4) == 16;
  }

  lemma PaddingSmallest(n: nat, s: nat, p: nat)
    requires IsAlignment(s) && Aligned(n + p, s)
    ensures Padding(n, s) <= p
  {
    SmallPowers(s);
    AlignedIsMultiple(n + p, s);
    hide Aligned, IsAlignment, PowerOfTwo, PaddingBytes;
    PaddingIsLeast(n, s, p);
  }

  // `x & (s - 1)` is zero exactly on the multiples of `s`.
  lemma MaskTestsDivisibility(x: nat, s: nat)
    requires PowerOfTwo(s)
    ensures And(x, s - 1) == 0 <==> x % s == 0
  {
    var k: nat :| k < 64 && s == Pow2(k);
    AndLowMask(x, k);
  }
}
