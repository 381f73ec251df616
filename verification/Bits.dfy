// Bitwise operators on natural numbers, by recursion on binary digits, with
// the laws that connect them to division and remainder.  The fixed machine
// widths of the source are written out where they matter (`Not64`, `Shl32`, ...).
module Bits {
  const TWO_32: nat := 0x1_0000_0000
  const TWO_64: nat := 0x1_0000_0000_0000_0000

  function Max(a: nat, b: nat): nat {
    if a < b then b else a
  }

  function Pow2(n: nat): (r: nat)
    ensures r > 0
  {
    if n == 0 then 1 else 2 * Pow2(n - 1)
  }

  function And(x: nat, y: nat): (r: nat)
    ensures r <= x && r <= y
    decreases x
  {
    if x == 0 || y == 0 then 0
    else 2 * And(x / 2, y / 2) + (if x % 2 == 1 && y % 2 == 1 then 1 else 0)
  }

  function Or(x: nat, y: nat): nat
    decreases x + y
  {
    if x == 0 then y else if y == 0 then x
    else 2 * Or(x / 2, y / 2) + (if x % 2 == 1 || y % 2 == 1 then 1 else 0)
  }

  function Xor(x: nat, y: nat): nat
    decreases x + y
  {
    if x == 0 then y else if y == 0 then x
    else 2 * Xor(x / 2, y / 2) + (if x % 2 == y % 2 then 0 else 1)
  }

  function Shl(x: nat, k: nat): nat {
    if k == 0 then x else 2 * Shl(x, k - 1)
  }

  function Shr(x: nat, k: nat): nat {
    if k == 0 then x else Shr(x / 2, k - 1)
  }

  // The complement of a 64-bit word.
  function Not64(x: nat): (r: nat)
    requires x < TWO_64
    ensures r < TWO_64
  {
    TWO_64 - 1 - x
  }

  ghost predicate PowerOfTwo(s: nat) {
    exists k: nat :: k < 64 && s == Pow2(k)
  }

  lemma Pow2At(k: nat)
    ensures k == 3 ==> Pow2(k) == 8
    ensures k == 4 ==> Pow2(k) == 16
    ensures k == 5 ==> Pow2(k) == 32
    ensures k == 6 ==> Pow2(k) == 64
    ensures k == 7 ==> Pow2(k) == 128
    ensures k == 8 ==> Pow2(k) == 0x100
    ensures k == 16 ==> Pow2(k) == 0x1_0000
    ensures k == 32 ==> Pow2(k) == TWO_32
    ensures k == 64 ==> Pow2(k) == TWO_64
  {
    SmallPow2();
    Pow2Sum(4, 4);
    Pow2Sum(8, 8);
    Pow2Sum(16, 16);
    Pow2Sum(32, 32);
    hide Pow2;
  }

  lemma SmallPow2()
    ensures Pow2(2) == 4 && Pow2(3) == 8 && Pow2(4) == 16 && Pow2(5) == 32 && Pow2(6) == 64 && Pow2(7) == 128
  {
    assert Pow2(1) == 2 && Pow2(2) == 4;
    Pow2Sum(2, 2);
    Pow2Sum(2, 3);
    Pow2Sum(3, 3);
    Pow2Sum(3, 4);
  }

  lemma {:induction false} Pow2Sum(a: nat, b: nat)
    ensures Pow2(a + b) == Pow2(a) * Pow2(b)
  {
    if a != 0 {
      Pow2Sum(a - 1, b);
      assert Pow2(a + b) == 2 * Pow2(a - 1 + b);
      assert 2 * (Pow2(a - 1) * Pow2(b)) == (2 * Pow2(a - 1)) * Pow2(b);
    }
  }

  lemma {:induction false} Pow2Monotone(a: nat, b: nat)
    requires a <= b
    ensures Pow2(a) <= Pow2(b)
    decreases b - a
  {
    if a < b {
      Pow2Monotone(a + 1, b);
    }
  }

  // Division with remainder has one solution.
  lemma DivModUnique(x: int, m: int, q: int, r: int)
    requires m > 0 && 0 <= r < m && x == q * m + r
    ensures x / m == q && x % m == r
  {
    var d := x / m - q;
    assert m * d == r - x % m;
    MulMagnitude(m, d);
    assert d == 0;
  }

  lemma MulMagnitude(m: int, d: int)
    requires m > 0
    ensures d >= 1 ==> m * d >= m
    ensures d <= -1 ==> m * d <= -m
  {
    if d >= 1 {
      assert m * (d - 1) >= 0;
    } else if d <= -1 {
      assert m * (-1 - d) >= 0;
    }
  }

  // One binary digit of a remainder by a power of two.
  lemma ModPow2Step(x: nat, k: nat)
    ensures x % Pow2(k + 1) == 2 * ((x / 2) % Pow2(k)) + x % 2
    ensures x / Pow2(k + 1) == (x / 2) / Pow2(k)
  {
    var m := Pow2(k);
    var q, r := (x / 2) / m, (x / 2) % m;
    assert x == q * (2 * m) + (2 * r + x % 2) by {
      assert x / 2 == q * m + r;
      assert 2 * (q * m) == q * (2 * m);
    }
    DivModUnique(x, 2 * m, q, 2 * r + x % 2);
  }

  lemma AndOdd(x: nat, y: nat)
    ensures And(x, 2 * y + 1) == 2 * And(x / 2, y) + x % 2
  {
    if x != 0 {
      assert (2 * y + 1) / 2 == y && (2 * y + 1) % 2 == 1;
    }
  }

  // `x & ((1 << k) - 1)` keeps the low `k` bits.
  lemma {:induction false} AndLowMask(x: nat, k: nat)
    ensures And(x, Pow2(k) - 1) == x % Pow2(k)
  {
    if k == 0 {
      assert x % 1 == 0;
    } else {
      hide And;
      AndLowMask(x / 2, k - 1);
      LowMaskStep(x, k, k - 1, Pow2(k - 1) - 1, Pow2(k) - 1);
    }
  }

  lemma LowMaskStep(x: nat, k: nat, j: nat, low: nat, mask: nat)
    requires k == j + 1 && low == Pow2(j) - 1 && mask == Pow2(k) - 1
    requires And(x / 2, low) == (x / 2) % Pow2(j)
    ensures And(x, mask) == x % Pow2(k)
  {
    assert mask == 2 * low + 1;
    hide And, Pow2;
    ModPow2Step(x, j);
    AndOdd(x, low);
  }

  // A mask whose low `k` bits are clear ignores the low `k` bits of the other operand.
  lemma {:induction false} AndHighMask(x: nat, m: nat, k: nat)
    ensures And(x, Shl(m, k)) == Shl(And(Shr(x, k), m), k)
  {
    if k != 0 {
      AndHighMask(x / 2, m, k - 1);
      AndEvenRight(x, Shl(m, k - 1));
    }
  }

  lemma AndEvenRight(x: nat, y: nat)
    ensures And(x, 2 * y) == 2 * And(x / 2, y)
  {
    if x != 0 && y != 0 {
      assert (2 * y) / 2 == y && (2 * y) % 2 == 0;
      assert And(x, 2 * y) == 2 * And(x / 2, (2 * y) / 2) + 0;
    }
  }

  // Or of two numbers without common bits is their sum.
  lemma {:induction false} OrDisjoint(hi: nat, lo: nat, k: nat)
    requires lo < Pow2(k)
    ensures Or(Shl(hi, k), lo) == Shl(hi, k) + lo
  {
    if k != 0 {
      OrDisjoint(hi, lo / 2, k - 1);
    }
  }

  lemma {:induction false} ShlIsProduct(x: nat, k: nat)
    ensures Shl(x, k) == x * Pow2(k)
  {
    if k != 0 {
      ShlIsProduct(x, k - 1);
      assert 2 * (x * Pow2(k - 1)) == x * Pow2(k);
    }
  }

  lemma {:induction false} ShrIsQuotient(x: nat, k: nat)
    ensures Shr(x, k) == x / Pow2(k)
  {
    if k != 0 {
      ShrIsQuotient(x / 2, k - 1);
      ModPow2Step(x, k - 1);
    }
  }

  lemma {:induction false} ShlZero(x: nat, k: nat)
    ensures Shl(x, k) == 0 <==> x == 0
  {
    if k != 0 {
      ShlZero(x, k - 1);
    }
  }

  lemma {:induction false} ShlComplement(n: nat, k: nat)
    ensures Shl(Pow2(n) - 1, k) + Shl(1, k) == Pow2(n + k) && Shl(1, k) == Pow2(k)
  {
    if k != 0 {
      ShlComplement(n, k - 1);
    }
  }

  lemma {:induction false} ShrIsZero(u: nat, k: nat)
    ensures Shr(u, k) == 0 <==> u < Pow2(k)
  {
    if k != 0 {
      ShrIsZero(u / 2, k - 1);
    }
  }

  lemma {:induction false} ShrBound(u: nat, k: nat, n: nat)
    requires u < Pow2(n + k)
    ensures Shr(u, k) < Pow2(n)
  {
    if k != 0 {
      assert Pow2(n + k) == 2 * Pow2(n + (k - 1));
      ShrBound(u / 2, k - 1, n);
    }
  }

  lemma {:induction false} OrCommutes(x: nat, y: nat)
    ensures Or(x, y) == Or(y, x)
    decreases x
  {
    if x != 0 && y != 0 {
      OrCommutes(x / 2, y / 2);
    }
  }

  lemma {:induction false} XorBound(x: nat, y: nat, k: nat)
    requires x < Pow2(k) && y < Pow2(k)
    ensures Xor(x, y) < Pow2(k)
  {
    if x != 0 && y != 0 {
      XorBound(x / 2, y / 2, k - 1);
    }
  }

  lemma {:induction false} XorCancels(x: nat, y: nat, z: nat)
    requires Xor(x, z) == Xor(y, z)
    ensures x == y
    decreases x + y + z
  {
    if z == 0 {
    } else if x == 0 {
      XorSelf(y, z);
    } else if y == 0 {
      XorSelf(x, z);
    } else {
      var a, b := Xor(x / 2, z / 2), Xor(y / 2, z / 2);
      assert a == b && (x % 2 == z % 2 <==> y % 2 == z % 2);
      XorCancels(x / 2, y / 2, z / 2);
    }
  }

  lemma {:induction false} XorSelf(x: nat, z: nat)
    requires Xor(x, z) == z
    ensures x == 0
    decreases x + z
  {
    if x != 0 && z != 0 {
      XorSelf(x / 2, z / 2);
    }
  }

  lemma {:induction false} XorCommutes(x: nat, y: nat)
    ensures Xor(x, y) == Xor(y, x)
    decreases x
  {
    if x != 0 && y != 0 {
      XorCommutes(x / 2, y / 2);
    }
  }

  // A number below 2^k leaves the bits from `k` on alone.
  lemma {:induction false} XorLow(x: nat, q: nat, l: nat, b: nat, k: nat)
    requires l < Pow2(k) && b < Pow2(k) && x == Pow2(k) * q + l
    ensures Xor(x, b) == Pow2(k) * q + Xor(l, b)
    decreases k
  {
    if k > 0 && b != 0 {
      var m := Pow2(k - 1);
      assert x == 2 * (m * q) + l;
      HalfSum(x, m * q, l);
      XorLow(x / 2, q, l / 2, b / 2, k - 1);
      XorHalves(x, b);
      XorHalves(l, b);
      hide Xor;
    }
  }

  lemma HalfSum(x: nat, h: nat, l: nat)
    requires x == 2 * h + l
    ensures x / 2 == h + l / 2 && x % 2 == l % 2
  {
  }

  lemma XorHalves(x: nat, y: nat)
    ensures Xor(x, y) == 2 * Xor(x / 2, y / 2) + if x % 2 == y % 2 then 0 else 1
  {
  }
}
