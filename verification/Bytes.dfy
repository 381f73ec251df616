// Bytes, little-endian scalars and two's complement.
module Bytes {
  import opened Bits

  type byte = b: int | 0 <= b < 256

  // FLATBUFFERS_MAX_BUFFER_SIZE: positions within a buffer fit 32 signed bits.
  const MAX_BUFFER_SIZE: nat := 0x7FFF_FFFF

  predicate Printable(c: byte) {
    32 <= c <= 126
  }

  function Zeros(n: nat): (s: seq<byte>)
    ensures |s| == n && forall i :: 0 <= i < n ==> s[i] == 0
  {
    seq(n, _ => 0)
  }

  // The little-endian image of the low `n` bytes of `v`.
  function ToLE(n: nat, v: nat): (s: seq<byte>)
    ensures |s| == n
  {
    if n == 0 then [] else [v % 256] + ToLE(n - 1, v / 256)
  }

  function FromLE(s: seq<byte>): nat {
    if s == [] then 0 else s[0] + 256 * FromLE(s[1..])
  }

  lemma TwoBytes(x: byte, y: byte)
    ensures FromLE([x, y]) == x + 256 * y
  {
    assert [x, y][1..] == [y] && [y][1..] == [];
    assert FromLE([y]) == y + 256 * FromLE([y][1..]);
  }

  // How many values an `n`-byte scalar can take.
  function Range(n: nat): (r: nat)
    ensures r > 0
  {
    if n == 0 then 1 else 256 * Range(n - 1)
  }

  lemma RangeAt()
    ensures Range(1) == 0x100 && Range(2) == 0x1_0000 && Range(4) == TWO_32 && Range(8) == TWO_64
  {
    assert Range(2) == 0x1_0000;
    assert Range(4) == 256 * (256 * Range(2));
    assert Range(6) == 256 * (256 * Range(4));
    assert Range(8) == 256 * (256 * Range(6));
  }

  lemma {:induction false} LEFits(n: nat, v: nat)
    requires v < Range(n)
    ensures FromLE(ToLE(n, v)) == v
  {
    if n != 0 {
      LEFits(n - 1, v / 256);
      assert ToLE(n, v)[1..] == ToLE(n - 1, v / 256);
    }
  }

  lemma {:induction false} FromLEBound(s: seq<byte>)
    ensures FromLE(s) < Range(|s|)
  {
    if s != [] {
      FromLEBound(s[1..]);
    }
  }

  // A value moved up by `k` bytes.
  function Shifted(k: nat, n: nat): (r: nat)
    ensures r >= n
  {
    TimesGrows(Range(k), n);
    Range(k) * n
  }

  lemma TimesGrows(r: nat, h: nat)
    requires r > 0
    ensures r * h >= h
  {
  }

  // The low bytes come first.
  lemma {:induction false} FromLEConcat(x: seq<byte>, y: seq<byte>)
    ensures FromLE(x + y) == FromLE(x) + Shifted(|x|, FromLE(y))
  {
    if x == [] {
      assert x + y == y;
    } else {
      assert (x + y)[1..] == x[1..] + y;
      FromLEConcat(x[1..], y);
      assert 256 * (Range(|x| - 1) * FromLE(y)) == Range(|x|) * FromLE(y);
    }
  }

  // Reading and writing a scalar are inverse in the other direction too.
  lemma {:induction false} LEInverse(s: seq<byte>)
    ensures ToLE(|s|, FromLE(s)) == s
  {
    if s != [] {
      var rest := FromLE(s[1..]);
      LEInverse(s[1..]);
      DivModUnique(s[0] + 256 * rest, 256, rest, s[0]);
      assert ToLE(|s|, s[0] + 256 * rest) == [s[0]] + ToLE(|s| - 1, rest);
      assert s == [s[0]] + s[1..];
    }
  }

  // Storing a wide scalar into `n` bytes keeps its value modulo the range.
  lemma {:induction false} LETruncates(n: nat, v: nat)
    ensures FromLE(ToLE(n, v)) == v % Range(n)
  {
    if n == 0 {
      assert v % 1 == 0;
    } else {
      LETruncates(n - 1, v / 256);
      assert ToLE(n, v)[1..] == ToLE(n - 1, v / 256);
      var m := Range(n - 1);
      var q, r := (v / 256) / m, (v / 256) % m;
      assert v == q * (256 * m) + (256 * r + v % 256) by {
        assert v / 256 == q * m + r;
        assert 256 * (q * m) == q * (256 * m);
      }
      DivModUnique(v, 256 * m, q, 256 * r + v % 256);
    }
  }

  // The unsigned image of a signed value in `n` bytes, and back.
  function Wrap(n: nat, v: int): (u: nat)
    ensures u < Range(n)
  {
    v % Range(n)
  }

  function Signed(n: nat, u: nat): int
    requires u < Range(n)
  {
    if 2 * u < Range(n) then u else u - Range(n)
  }

  lemma SignedInverse(n: nat, v: int)
    requires -2 * v <= Range(n) && 2 * v < Range(n)
    ensures Signed(n, Wrap(n, v)) == v
  {
    if v >= 0 {
      DivModUnique(v, Range(n), 0, v);
    } else {
      DivModUnique(v, Range(n), -1, v + Range(n));
    }
  }
}
