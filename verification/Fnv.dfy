// The FNV-1 and FNV-1a hashes of a NUL-terminated string, at 32 and 64 bits.
module Fnv {
  import opened Bits
  import opened Bytes
  import opened Ordering

  // The word width, the prime and the offset basis of a hash type.
  datatype Traits = Traits(bits: nat, prime: nat, offsetBasis: nat)

  const FNV32 := Traits(32, 0x0100_0193, 0x811C_9DC5)
  const FNV64 := Traits(64, 0x0000_0100_0000_01B3, 0xCBF2_9CE4_8422_2645)

  predicate Known(t: Traits) {
    t == FNV32 || t == FNV64
  }

  function Modulus(t: Traits): (m: nat)
    ensures m > 0
  {
    Pow2(t.bits)
  }

  // Multiplication wraps around.
  function Times(t: Traits, h: nat): nat {
    h * t.prime % Modulus(t)
  }

  function Step1(t: Traits, h: nat, b: byte): nat {
    Xor(Times(t, h), b)
  }

  function Step1a(t: Traits, h: nat, b: byte): nat {
    Times(t, Xor(h, b))
  }

  function Step(t: Traits, a: bool, h: nat, b: byte): nat {
    if a then Step1a(t, h, b) else Step1(t, h, b)
  }

  // The hash state after the whole string, from state `h`.
  function Fold(t: Traits, a: bool, h: nat, s: seq<byte>): nat
    decreases |s|
  {
    if s == [] then h else Fold(t, a, Step(t, a, h, s[0]), s[1..])
  }

  function Hash(t: Traits, a: bool, s: seq<byte>): nat {
    Fold(t, a, t.offsetBasis, s)
  }

  // ----------------------------------------------------- steps are bijections

  // The inverse of the prime, and how often the product wraps.
  function Inverse(t: Traits): nat {
    if t == FNV32 then 0x359C_449B else 0xCE96_5057_AFF6_957B
  }

  function Wraps(t: Traits): nat {
    if t == FNV32 then 3513497 else 887285111055
  }

  lemma PrimeInverts(t: Traits)
    requires Known(t)
    ensures t.prime * Inverse(t) == 1 + Wraps(t) * Modulus(t)
  {
    Pow2At(32);
    Pow2At(64);
  }

  lemma Undo(h: nat, p: nat, m: nat, q: nat, k: nat)
    requires h < m && p * q == 1 + k * m
    ensures (h * p % m) * q % m == h
  {
    var w, r := h * p / m, h * p % m;
    var n := h * k - w * q;
    assert r * q == n * m + h by {
      assert h * p == w * m + r;
      Products(h, p, m, q, k, w, r);
    }
    DivModUnique(r * q, m, n, h);
  }

  lemma Products(h: int, p: int, m: int, q: int, k: int, w: int, r: int)
    requires h * p == w * m + r && p * q == 1 + k * m
    ensures r * q == (h * k - w * q) * m + h
  {
    assert (h * p) * q == (w * m + r) * q == (w * q) * m + r * q;
    assert h * (p * q) == h * (1 + k * m) == h + (h * k) * m;
    assert (h * p) * q == h * (p * q);
    assert (h * k - w * q) * m == (h * k) * m - (w * q) * m;
  }

  // Wrap-around multiplication by the prime loses nothing.
  lemma TimesInjective(t: Traits, g: nat, h: nat)
    requires Known(t) && g < Modulus(t) && h < Modulus(t) && Times(t, g) == Times(t, h)
    ensures g == h
  {
    PrimeInverts(t);
    hide Pow2, Inverse, Wraps;
    Undo(g, t.prime, Modulus(t), Inverse(t), Wraps(t));
    Undo(h, t.prime, Modulus(t), Inverse(t), Wraps(t));
  }

  lemma ByteFits(t: Traits, b: byte)
    requires Known(t)
    ensures b < Pow2(t.bits)
  {
    assert Pow2(8) == 256;
    Pow2Monotone(8, t.bits);
  }

  lemma StepBound(t: Traits, a: bool, h: nat, b: byte)
    requires Known(t) && h < Modulus(t)
    ensures Step(t, a, h, b) < Modulus(t)
  {
    ByteFits(t, b);
    hide Pow2, Xor;
    XorBound(Times(t, h), b, t.bits);
  }

  // Each byte permutes the states.
  lemma StepInjective(t: Traits, a: bool, g: nat, h: nat, b: byte)
    requires Known(t) && g < Modulus(t) && h < Modulus(t) && Step(t, a, g, b) == Step(t, a, h, b)
    ensures g == h
  {
    hide Pow2, Xor, Times;
    if a {
      ByteFits(t, b);
      XorBound(g, b, t.bits);
      XorBound(h, b, t.bits);
      TimesInjective(t, Xor(g, b), Xor(h, b));
      XorCancels(g, h, b);
    } else {
      XorCancels(Times(t, g), Times(t, h), b);
      TimesInjective(t, g, h);
    }
  }

  // From one state, different bytes lead to different states.
  lemma StepSeparates(t: Traits, a: bool, h: nat, b: byte, c: byte)
    requires Known(t) && h < Modulus(t) && b != c
    ensures Step(t, a, h, b) != Step(t, a, h, c)
  {
    hide Pow2, Xor, Times;
    if Step(t, a, h, b) == Step(t, a, h, c) {
      if a {
        ByteFits(t, b);
        ByteFits(t, c);
        XorBound(h, b, t.bits);
        XorBound(h, c, t.bits);
        TimesInjective(t, Xor(h, b), Xor(h, c));
        XorSameLeft(h, b, c);
      } else {
        XorSameLeft(Times(t, h), b, c);
      }
    }
  }

  lemma XorSameLeft(h: nat, b: nat, c: nat)
    requires Xor(h, b) == Xor(h, c)
    ensures b == c
  {
    XorCommutes(h, b);
    XorCommutes(h, c);
    XorCancels(b, c, h);
  }

  lemma {:induction false} FoldSeparates(t: Traits, a: bool, g: nat, h: nat, s: seq<byte>)
    requires Known(t) && g < Modulus(t) && h < Modulus(t) && g != h
    ensures Fold(t, a, g, s) != Fold(t, a, h, s)
    decreases |s|
  {
    hide Step, Pow2;
    if s != [] {
      var u, v := Step(t, a, g, s[0]), Step(t, a, h, s[0]);
      StepBound(t, a, g, s[0]);
      StepBound(t, a, h, s[0]);
      if u == v {
        StepInjective(t, a, g, h, s[0]);
      }
      FoldSeparates(t, a, u, v, s[1..]);
    }
  }

  lemma {:induction false} FoldChange(t: Traits, a: bool, h: nat, s: seq<byte>, i: nat, c: byte)
    requires Known(t) && h < Modulus(t) && i < |s| && s[i] != c
    ensures Fold(t, a, h, s) != Fold(t, a, h, s[i := c])
    decreases |s|
  {
    hide Step, Pow2;
    var r := s[i := c];
    if i == 0 {
      assert r[1..] == s[1..];
      StepBound(t, a, h, s[0]);
      StepBound(t, a, h, c);
      StepSeparates(t, a, h, s[0], c);
      FoldSeparates(t, a, Step(t, a, h, s[0]), Step(t, a, h, c), s[1..]);
    } else {
      assert r[1..] == s[1..][i - 1 := c];
      StepBound(t, a, h, s[0]);
      FoldChange(t, a, Step(t, a, h, s[0]), s[1..], i - 1, c);
    }
  }

  // Two strings that differ in exactly one byte hash differently.
  lemma HashSeparates(t: Traits, a: bool, s: seq<byte>, i: nat, c: byte)
    requires Known(t) && i < |s| && s[i] != c
    ensures Hash(t, a, s) != Hash(t, a, s[i := c])
  {
    Pow2At(32);
    Pow2At(64);
    hide Fold;
    FoldChange(t, a, t.offsetBasis, s, i, c);
  }

  // ------------------------------------------- the hashes, by their constants

  lemma {:induction false} FoldAppends(t: Traits, a: bool, h: nat, s: seq<byte>, b: byte)
    ensures Fold(t, a, h, s + [b]) == Step(t, a, Fold(t, a, h, s), b)
    decreases |s|
  {
    hide Step;
    if s == [] {
      assert (s + [b])[1..] == [];
    } else {
      assert (s + [b])[1..] == s[1..] + [b];
      FoldAppends(t, a, Step(t, a, h, s[0]), s[1..], b);
    }
  }

  // FNV-1: from the offset basis, each byte multiplies by the prime and then
  // goes in by exclusive or.
  lemma Fnv1Is(s: seq<byte>, b: byte)
    ensures Hash(FNV32, false, []) == 0x811C_9DC5 && Hash(FNV64, false, []) == 0xCBF2_9CE4_8422_2645
    ensures Hash(FNV32, false, s + [b]) == Xor(Hash(FNV32, false, s) * 0x0100_0193 % 0x1_0000_0000, b)
    ensures Hash(FNV64, false, s + [b]) == Xor(Hash(FNV64, false, s) * 0x100_0000_01B3 % 0x1_0000_0000_0000_0000, b)
  {
    FoldAppends(FNV32, false, FNV32.offsetBasis, s, b);
    FoldAppends(FNV64, false, FNV64.offsetBasis, s, b);
    Pow2At(32);
    Pow2At(64);
    hide Xor, Pow2;
  }

  // FNV-1a: each byte goes in first and then the prime multiplies.
  lemma Fnv1aIs(s: seq<byte>, b: byte)
    ensures Hash(FNV32, true, []) == 0x811C_9DC5 && Hash(FNV64, true, []) == 0xCBF2_9CE4_8422_2645
    ensures Hash(FNV32, true, s + [b]) == Xor(Hash(FNV32, true, s), b) * 0x0100_0193 % 0x1_0000_0000
    ensures Hash(FNV64, true, s + [b]) == Xor(Hash(FNV64, true, s), b) * 0x100_0000_01B3 % 0x1_0000_0000_0000_0000
  {
    FoldAppends(FNV32, true, FNV32.offsetBasis, s, b);
    FoldAppends(FNV64, true, FNV64.offsetBasis, s, b);
    Pow2At(32);
    Pow2At(64);
    hide Xor, Pow2;
  }

  lemma XorByte(x: nat, q: nat, l: byte, b: byte)
    requires x == 256 * q + l
    ensures Xor(x, b) == 256 * q + Xor(l, b)
  {
    assert Pow2(8) == 256;
    XorLow(x, q, l, b, 8);
  }

  // The hashes of "a", with the offset basis of this file at 64 bits.
  lemma HashesOfA()
    ensures Hash(FNV32, false, [97]) == 0x050C_5D7E && Hash(FNV32, true, [97]) == 0xE40C_292C
    ensures Hash(FNV64, false, [97]) == 0xAF66_DD4C_8607_075E && Hash(FNV64, true, [97]) == 0xAF66_BC4C_8606_CF2C
  {
    hide Xor, Hash;
    Fnv1Is([], 97);
    Fnv1aIs([], 97);
    assert [] + [97] == [97];
    LowBytes();
    XorByte(0x050C_5D1F, 0x05_0C5D, 0x1F, 97);
    XorByte(0x811C_9DC5, 0x81_1C9D, 0xC5, 97);
    XorByte(0xAF66_DD4C_8607_073F, 0xAF_66DD_4C86_0707, 0x3F, 97);
    XorByte(0xCBF2_9CE4_8422_2645, 0xCB_F29C_E484_2226, 0x45, 97);
  }

  lemma LowBytes()
    ensures Xor(0x1F, 97) == 0x7E && Xor(0xC5, 97) == 0xA4 && Xor(0x3F, 97) == 0x5E && Xor(0x45, 97) == 0x24
  {
    assert Xor(0, 0) == 0 && Xor(0, 1) == 1 && Xor(0, 3) == 3 && Xor(1, 0) == 1;
    hide Xor;
    XorHalves(1, 6); XorHalves(3, 12); XorHalves(7, 24); XorHalves(15, 48); XorHalves(31, 97);
    XorHalves(3, 1); XorHalves(6, 3); XorHalves(12, 6); XorHalves(24, 12); XorHalves(49, 24); XorHalves(98, 48); XorHalves(197, 97);
    XorHalves(1, 3); XorHalves(3, 6); XorHalves(7, 12); XorHalves(15, 24); XorHalves(31, 48); XorHalves(63, 97);
    XorHalves(1, 1); XorHalves(2, 3); XorHalves(4, 6); XorHalves(8, 12); XorHalves(17, 24); XorHalves(34, 48); XorHalves(69, 97);
  }

  // ----------------------------------------------------------- the routines

  lemma FoldStep(t: Traits, a: bool, h: nat, m: seq<byte>, i: nat)
    requires Terminated(m, i) && m[i] != 0
    ensures Terminated(m, i + 1)
    ensures Fold(t, a, h, CString(m, i)) == Fold(t, a, Step(t, a, h, m[i]), CString(m, i + 1))
  {
    assert CString(m, i)[1..] == CString(m, i + 1);
  }

  method HashFnv1(t: Traits, input: seq<byte>) returns (hash: nat)
    requires Terminated(input, 0)
    ensures hash == Hash(t, false, CString(input, 0))
  {
    hide Xor, Modulus;
    hash := t.offsetBasis;
    var c := 0;
    while input[c] != 0
      invariant Terminated(input, c)
      invariant Fold(t, false, hash, CString(input, c)) == Hash(t, false, CString(input, 0))
      decreases |input| - c
    {
      FoldStep(t, false, hash, input, c);
      hash := hash * t.prime % Modulus(t);
      hash := Xor(hash, input[c]);
      c := c + 1;
    }
  }

  method HashFnv1a(t: Traits, input: seq<byte>) returns (hash: nat)
    requires Terminated(input, 0)
    ensures hash == Hash(t, true, CString(input, 0))
  {
    hide Xor, Modulus;
    hash := t.offsetBasis;
    var c := 0;
    while input[c] != 0
      invariant Terminated(input, c)
      invariant Fold(t, true, hash, CString(input, c)) == Hash(t, true, CString(input, 0))
      decreases |input| - c
    {
      FoldStep(t, true, hash, input, c);
      hash := Xor(hash, input[c]);
      hash := hash * t.prime % Modulus(t);
      c := c + 1;
    }
  }
}
