// The UTF-8 conversion routines, with the bit operations of the original.
module Utf8Codec {
  import opened Bits
  import opened Bytes
  import opened Ordering
  import opened Utf8

  // ---------------------------------------------------------------- encoding

  // How many bits fit an encoding of `i + 1` bytes.
  function MaxBits(i: nat): nat {
    6 + i * 5 + (if i == 0 then 1 else 0)
  }

  // The high bits of the first byte of `i + 1`.
  function Lead(i: nat): nat
    requires i <= 5
  {
    if i == 0 then 0 else if i == 1 then 0xC0 else if i == 2 then 0xE0
    else if i == 3 then 0xF0 else if i == 4 then 0xF8 else 0xFC
  }

  // What is left after dropping the low `6 * j` bits.
  function Drop6(c: nat, j: nat): nat {
    if j == 0 then c else Drop6(c / 64, j - 1)
  }

  lemma {:induction false} ShiftIsDrop6(c: nat, j: nat)
    ensures Shr(c, 6 * j) == Drop6(c, j)
  {
    if j > 0 {
      ShiftIsDrop6(c / 64, j - 1);
      ShiftBySix(c, 6 * (j - 1));
    }
  }

  lemma ShiftBySix(c: nat, k: nat)
    ensures Shr(c, k + 6) == Shr(c / 64, k)
  {
    assert Shr(c, k + 6) == Shr(c / 2, k + 5) == Shr(c / 4, k + 4);
    assert Shr(c / 4, k + 4) == Shr(c / 8, k + 3) == Shr(c / 16, k + 2);
    assert Shr(c / 16, k + 2) == Shr(c / 32, k + 1) == Shr(c / 64, k);
  }

  // The low `6 * j` bits, six to a byte.
  function Tails(c: nat, j: nat): (s: seq<byte>)
    ensures |s| == j
  {
    if j == 0 then [] else [0x80 + Drop6(c, j - 1) % 64] + Tails(c, j - 1)
  }

  // The number of bytes after the first.
  function Extra(c: nat): (i: nat)
    requires c < 0x8000_0000
    ensures i <= 5 && c < Pow2(MaxBits(i)) && (i > 0 ==> c >= Pow2(MaxBits(i - 1)))
  {
    BitLimits();
    if c < 0x80 then 0 else if c < 0x800 then 1 else if c < 0x1_0000 then 2
    else if c < 0x20_0000 then 3 else if c < 0x400_0000 then 4 else 5
  }

  lemma BitLimits()
    ensures Pow2(7) == 0x80 && Pow2(11) == 0x800 && Pow2(16) == 0x1_0000
    ensures Pow2(21) == 0x20_0000 && Pow2(26) == 0x400_0000 && Pow2(31) == 0x8000_0000
  {
    assert Pow2(5) == 32 && Pow2(6) == 64 && Pow2(7) == 128;
    Pow2Sum(5, 6);
    Pow2Sum(5, 11);
    Pow2Sum(5, 16);
    Pow2Sum(5, 21);
    Pow2Sum(5, 26);
  }

  lemma FirstByte(c: nat, i: nat)
    requires i <= 5 && c < Pow2(MaxBits(i))
    ensures Lead(i) + Drop6(c, i) < 256
    ensures Or(Shl(0xFE, MaxBits(i) - 6 * i), Shr(c, 6 * i)) % 256 == Lead(i) + Drop6(c, i)
  {
    hide Or, Shl, Shr, Drop6, Pow2, Lead;
    var k, x := MaxBits(i) - 6 * i, Shr(c, 6 * i);
    assert MaxBits(i) == k + 6 * i;
    ShiftIsDrop6(c, i);
    ShrBound(c, 6 * i, k);
    OrDisjoint(0xFE, x, k);
    ShlIsProduct(0xFE, k);
    LeadByte(i, k, x);
  }

  lemma LeadByte(i: nat, k: nat, x: nat)
    requires i <= 5 && k == MaxBits(i) - 6 * i && x < Pow2(k)
    ensures (0xFE * Pow2(k) + x) % 256 == Lead(i) + x < 256
  {
    assert Pow2(1) == 2 && Pow2(2) == 4 && Pow2(3) == 8 && Pow2(4) == 16 && Pow2(5) == 32 && Pow2(7) == 128;
    hide Pow2;
    DivModUnique(0xFE * Pow2(k) + x, 256, Pow2(k) - 1, Lead(i) + x);
  }

  lemma TailByte(c: nat, j: nat)
    ensures Or(And(Shr(c, 6 * j), 0x3F), 0x80) == 0x80 + Drop6(c, j) % 64
  {
    var x := Shr(c, 6 * j);
    ShiftIsDrop6(c, j);
    assert Pow2(6) == 64;
    AndLowMask(x, 6);
    assert Shl(2, 6) == 0x80;
    OrCommutes(And(x, 0x3F), 0x80);
    OrDisjoint(2, x % 64, 6);
  }

  // The encoding of any 31-bit value.
  function Image(c: nat): seq<byte>
    requires c < 0x8000_0000
  {
    var i := Extra(c);
    FirstByte(c, i);
    [Lead(i) + Drop6(c, i)] + Tails(c, i)
  }

  lemma Drops(c: nat, d: nat, e: nat)
    requires d == c / 64 && e == d / 64
    ensures Drop6(c, 0) == c && Drop6(c, 1) == d && Drop6(c, 2) == e && Drop6(c, 3) == e / 64
  {
    assert Drop6(c, 3) == Drop6(d, 2) == Drop6(e, 1) == Drop6(e / 64, 0);
    assert Drop6(c, 2) == Drop6(d, 1) == Drop6(e, 0);
    assert Drop6(c, 1) == Drop6(d, 0);
  }

  lemma TailsSplit(c: nat, d: nat, e: nat)
    requires d == c / 64 && e == d / 64
    ensures Tails(c, 0) == [] && Tails(c, 1) == [0x80 + c % 64]
    ensures Tails(c, 2) == [0x80 + d % 64, 0x80 + c % 64]
    ensures Tails(c, 3) == [0x80 + e % 64, 0x80 + d % 64, 0x80 + c % 64]
    ensures Drop6(c, 0) == c && Drop6(c, 1) == d && Drop6(c, 2) == e && Drop6(c, 3) == e / 64
  {
    Drops(c, d, e);
    hide Drop6;
    assert Tails(c, 1) == [0x80 + Drop6(c, 0) % 64] + Tails(c, 0);
    assert Tails(c, 2) == [0x80 + Drop6(c, 1) % 64] + Tails(c, 1);
    assert Tails(c, 3) == [0x80 + Drop6(c, 2) % 64] + Tails(c, 2);
  }

  // Values beyond Unicode: six bits to a byte in the same way, in four bytes, five
  // or six, with the number of bytes in the high bits of the first.
  lemma LongImage(c: nat, d: nat, e: nat, f: nat, g: nat)
    requires 0x1_0000 <= c < 0x8000_0000 && d == c / 64 && e == d / 64 && f == e / 64 && g == f / 64
    ensures c < 0x20_0000 ==> Image(c) == [0xF0 + f, 0x80 + e % 64, 0x80 + d % 64, 0x80 + c % 64]
    ensures 0x20_0000 <= c < 0x400_0000 ==> Image(c) == [0xF8 + g, 0x80 + f % 64, 0x80 + e % 64, 0x80 + d % 64, 0x80 + c % 64]
    ensures 0x400_0000 <= c ==>
      Image(c) == [0xFC + g / 64, 0x80 + g % 64, 0x80 + f % 64, 0x80 + e % 64, 0x80 + d % 64, 0x80 + c % 64]
  {
    TailsSplit(c, d, e);
    LongDrops(c, d, e, f, g);
    FirstByte(c, Extra(c));
    hide Drop6, Or, Shl, Shr, Pow2, Tails;
  }

  lemma LongDrops(c: nat, d: nat, e: nat, f: nat, g: nat)
    requires d == c / 64 && e == d / 64 && f == e / 64 && g == f / 64
    ensures Drop6(c, 3) == f && Drop6(c, 4) == g && Drop6(c, 5) == g / 64
    ensures Tails(c, 4) == [0x80 + f % 64, 0x80 + e % 64, 0x80 + d % 64, 0x80 + c % 64]
    ensures Tails(c, 5) == [0x80 + g % 64, 0x80 + f % 64, 0x80 + e % 64, 0x80 + d % 64, 0x80 + c % 64]
  {
    Drops(e, f, g);
    assert Drop6(c, 5) == Drop6(d, 4) == Drop6(e, 3) && Drop6(c, 4) == Drop6(d, 3) == Drop6(e, 2);
    TailsSplit(c, d, e);
    hide Drop6;
    assert Tails(c, 4) == [0x80 + Drop6(c, 3) % 64] + Tails(c, 3);
    assert Tails(c, 5) == [0x80 + Drop6(c, 4) % 64] + Tails(c, 4);
  }

  // On Unicode characters that is UTF-8.
  lemma ImageIsEncode(c: nat)
    requires c <= 0x10FFFF
    ensures Image(c) == Encode(c)
  {
    var d := c / 64;
    TailsSplit(c, d, d / 64);
    hide Tails, Drop6, Or, Shl, Shr, Pow2;
  }

  // The remaining bytes, most significant first.
  method AppendTails(ucc: nat, i: nat, out: seq<byte>) returns (text: seq<byte>)
    ensures text == out + Tails(ucc, i)
  {
    hide Or, And, Shr, Shl;
    text := out;
    var j := i;
    while j > 0
      invariant 0 <= j <= i && text + Tails(ucc, j) == out + Tails(ucc, i)
    {
      j := j - 1;
      TailByte(ucc, j);
      text := text + [Or(And(Shr(ucc, j * 6), 0x3F), 0x80)];
    }
  }

  method ToUTF8(ucc: nat, out: seq<byte>) returns (text: seq<byte>, n: nat)
    requires ucc < 0x8000_0000
    ensures text == out + Image(ucc) && n == |Image(ucc)|
    ensures ucc <= 0x10FFFF ==> text == out + Encode(ucc)
  {
    hide Or, And, Shr, Shl, Lead, Pow2;
    text := out;
    if ucc <= 0x10FFFF {
      ImageIsEncode(ucc);
    }
    for i := 0 to 6
      invariant text == out && i <= Extra(ucc)
    {
      var maxBits := MaxBits(i);
      FitsBits(ucc, i);
      if ucc < Shl(1, maxBits) {
        var remainBits := i * 6;
        FirstByte(ucc, i);
        text := text + [Or(Shl(0xFE, maxBits - remainBits), Shr(ucc, remainBits)) % 256];
        text := AppendTails(ucc, i, text);
        return text, i + 1;
      }
    }
    assert false;
  }

  // The first length whose bits suffice.
  lemma FitsBits(c: nat, i: nat)
    requires c < 0x8000_0000 && i <= 5 && i <= Extra(c)
    ensures c < Shl(1, MaxBits(i)) <==> i == Extra(c)
  {
    ShlIsProduct(1, MaxBits(i));
    BitLimits();
  }

  // ---------------------------------------------------------------- decoding

  // How many leading one bits a byte has, up to six.
  function LeadingOnes(b: byte): nat {
    if b < 0x80 then 0 else if b < 0xC0 then 1 else if b < 0xE0 then 2 else if b < 0xF0 then 3
    else if b < 0xF8 then 4 else if b < 0xFC then 5 else 6
  }

  // One bit of a byte.
  lemma BitIs(x: nat, k: nat)
    ensures And(x, Shl(1, k)) != 0 <==> x / Pow2(k) % 2 == 1
  {
    AndHighMask(x, 1, k);
    ShrIsQuotient(x, k);
    ShlZero(And(Shr(x, k), 1), k);
    assert Pow2(1) == 2;
    AndLowMask(Shr(x, k), 1);
  }

  lemma MaskBits()
    ensures Shl(1, 1) == 2 && Shl(1, 2) == 4 && Shl(1, 3) == 8 && Shl(1, 4) == 16
    ensures Shl(1, 5) == 32 && Shl(1, 6) == 64 && Shl(1, 7) == 128
    ensures Pow2(1) == 2 && Pow2(2) == 4 && Pow2(3) == 8 && Pow2(4) == 16
    ensures Pow2(5) == 32 && Pow2(6) == 64 && Pow2(7) == 128
  {
    assert Pow2(3) == 8 && Shl(1, 3) == 8;
    assert Pow2(5) == 32 && Shl(1, 5) == 32;
  }

  function Mask(len: nat): nat {
    if len == 0 then 128 else if len == 1 then 64 else if len == 2 then 32
    else if len == 3 then 16 else if len == 4 then 8 else if len == 5 then 4 else 2
  }

  lemma MaskBit(x: nat, mask: nat, k: nat, q: nat)
    requires mask == Shl(1, k) == Pow2(k) && q * mask <= x < q * mask + mask
    ensures And(x, mask) != 0 <==> q % 2 == 1
  {
    BitIs(x, k);
    DivModUnique(x, mask, q, x - q * mask);
  }

  // The bit tested after `len` leading ones.
  lemma NextBit(b: byte, len: nat)
    requires len <= 5 && len <= LeadingOnes(b)
    ensures And(b, Mask(len)) != 0 <==> len < LeadingOnes(b)
  {
    MaskBits();
    hide And, Shl, Pow2;
    if len == 0 {
      MaskBit(b, 128, 7, if b < 0x80 then 0 else 1);
    } else if len == 1 {
      MaskBit(b, 64, 6, if b < 0xC0 then 2 else 3);
    } else if len == 2 {
      MaskBit(b, 32, 5, if b < 0xE0 then 6 else 7);
    } else if len == 3 {
      MaskBit(b, 16, 4, if b < 0xF0 then 14 else 15);
    } else if len == 4 {
      MaskBit(b, 8, 3, if b < 0xF8 then 30 else 31);
    } else {
      MaskBit(b, 4, 2, if b < 0xFC then 62 else 63);
    }
  }

  method CountLeadingOnes(b: byte) returns (len: nat)
    ensures len == LeadingOnes(b)
  {
    hide And, LeadingOnes;
    len := 0;
    var mask := 0x80;
    OnesBounds(b);
    while mask >= 0x04
      invariant len <= 6 && mask == Mask(len) && len <= LeadingOnes(b)
      decreases 6 - len
    {
      NextBit(b, len);
      if And(b, mask) != 0 {
        len := len + 1;
      } else {
        break;
      }
      mask := mask / 2;
    }
  }

  lemma OnesBounds(b: byte)
    ensures LeadingOnes(b) <= 6
  {
  }

  // The bit after the leading ones: only a sixth one can be followed by a one.
  lemma BitAfter(b: byte, len: nat)
    requires len == LeadingOnes(b)
    ensures And(Shl(b, len), 0x80) != 0 ==> b >= 0xFE
  {
    MaskBits();
    ShlIsProduct(b, len);
    BitIs(Shl(b, len), 7);
    assert Pow2(0) == 1;
    hide And, Shl;
    if len == 0 {
    } else if len == 1 {
      assert (b * 2) / 128 % 2 == 0;
    } else if len == 2 {
      assert (b * 4) / 128 % 2 == 0;
    } else if len == 3 {
      assert (b * 8) / 128 % 2 == 0;
    } else if len == 4 {
      assert (b * 16) / 128 % 2 == 0;
    } else if len == 5 {
      assert (b * 32) / 128 % 2 == 0;
    } else {
      assert b < 0xFE ==> (b * 64) / 128 % 2 == 0;
    }
  }

  // `(b & 0xC0) == 0x80`.
  lemma TailMask(b: byte)
    ensures And(b, 0xC0) == 0x80 <==> Tail(b)
  {
    assert Pow2(6) == 64 && Shl(3, 6) == 0xC0 && Pow2(2) == 4;
    AndHighMask(b, 3, 6);
    ShrIsQuotient(b, 6);
    AndLowMask(b / 64, 2);
    ShlIsProduct(b / 64 % 4, 6);
    hide And, Shl, Shr, Pow2;
    assert b / 64 % 4 == b / 64;
  }

  // `ucc << 6 | b & 0x3F`, of a trailing byte.
  lemma JoinBits(ucc: nat, b: byte)
    requires Tail(b)
    ensures Or(Shl(ucc, 6), And(b, 0x3F)) == Join(ucc, b) >= 0
  {
    assert Pow2(6) == 64;
    AndLowMask(b, 6);
    OrDisjoint(ucc, b % 64, 6);
    ShlIsProduct(ucc, 6);
    hide And, Or, Shl, Pow2;
    DivModUnique(b, 64, 2, b - 0x80);
  }

  // `b & ((1 << (7 - len)) - 1)`.
  lemma LeadBits(b: byte, len: nat)
    requires 2 <= len <= 4 && len == LeadingOnes(b)
    ensures Shl(1, 7 - len) > 0 && And(b, Shl(1, 7 - len) - 1) == b - Lead(len - 1)
  {
    MaskBits();
    hide And, Shl, Pow2;
    if len == 2 {
      AndLowMask(b, 5);
    } else if len == 3 {
      AndLowMask(b, 4);
    } else {
      AndLowMask(b, 3);
    }
  }

  // The bits gathered from a lead byte of `len` and `i` trailing ones.
  function Gathered(s: seq<byte>, len: nat, i: nat): int
    requires 2 <= len <= 4 && i < |s|
  {
    if i == 0 then s[0] - Lead(len - 1) else Join(Gathered(s, len, i - 1), s[i])
  }

  // The checks on the decoded value.
  predicate ValueOk(ucc: int, len: nat) {
    && !(0xD800 <= ucc <= 0xDFFF)
    && (len == 2 ==> !(ucc < 0x80 || ucc > 0x7FF))
    && (len == 3 ==> !(ucc < 0x800 || ucc > 0xFFFF))
    && (len == 4 ==> !(ucc < 0x1_0000 || ucc > 0x10_FFFF))
  }

  // Together they accept exactly the characters of the grammar.
  lemma ChecksAreTheGrammar(s: seq<byte>, len: nat)
    requires 2 <= len <= 4 && len <= |s| && len == LeadingOnes(s[0])
    requires forall i :: 1 <= i < len ==> Tail(s[i])
    ensures ValueOk(Gathered(s, len, len - 1), len) <==> CharLen(s) > 0
    ensures CharLen(s) > 0 ==> CharLen(s) == len && CodePoint(s) == Gathered(s, len, len - 1)
  {
    var a := Gathered(s, len, 0);
    var b := Gathered(s, len, 1);
    assert b == Join(a, s[1]);
    if len == 3 {
      assert Tail(s[2]) && Gathered(s, len, 2) == Join(b, s[2]);
    } else if len == 4 {
      var c := Gathered(s, len, 2);
      assert Tail(s[2]) && Tail(s[3]) && c == Join(b, s[2]) && Gathered(s, len, 3) == Join(c, s[3]);
    }
  }

  lemma NoCharacter(s: seq<byte>, len: nat)
    requires |s| > 0 && len == LeadingOnes(s[0])
    requires len == 1 || len > 4 || exists i :: 1 <= i < len && i < |s| && !Tail(s[i])
    ensures CharLen(s) == 0
  {
  }

  method FromUTF8(s: seq<byte>, p: nat) returns (ucc: int, next: nat)
    requires Terminated(s, p)
    ensures ucc < 0 <==> CharLen(s[p..]) == 0
    ensures ucc >= 0 ==> ucc == CodePoint(s[p..]) && next == p + CharLen(s[p..])
  {
    hide And, Or, Shl, CharLen, CodePoint, LeadingOnes, ValueOk, Join;
    ghost var t := s[p..];
    var len := CountLeadingOnes(s[p]);
    BitAfter(s[p], len);
    if And(Shl(s[p], len), 0x80) != 0 {
      SixOnes(t);
      return -1, p;
    }
    if len == 0 {
      Ascii(t);
      return s[p], p + 1;
    }
    if len < 2 || len > 4 {
      NoCharacter(t, len);
      return -1, p;
    }
    LeadBits(s[p], len);
    ucc := And(s[p], Shl(1, 7 - len) - 1);
    next := p + 1;
    LeadNonzero(s[p]);
    for i := 0 to len - 1
      invariant next == p + 1 + i && Terminated(s, next)
      invariant forall k :: 1 <= k <= i ==> Tail(t[k])
      invariant ucc == Gathered(t, len, i) >= 0
    {
      TailMask(s[next]);
      assert t[i + 1] == s[next];
      if And(s[next], 0xC0) != 0x80 {
        NoCharacter(t, len);
        return -1, next;
      }
      JoinBits(ucc, s[next]);
      ucc := Or(Shl(ucc, 6), And(s[next], 0x3F));
      next := next + 1;
    }
    ChecksAreTheGrammar(t, len);
    if !ValueOk(ucc, len) {
      return -1, next;
    }
  }

  lemma SixOnes(s: seq<byte>)
    requires |s| > 0 && s[0] >= 0xFE
    ensures CharLen(s) == 0
  {
  }

  lemma Ascii(s: seq<byte>)
    requires |s| > 0 && LeadingOnes(s[0]) == 0
    ensures CharLen(s) == 1 && CodePoint(s) == s[0]
  {
  }

  lemma LeadNonzero(b: byte)
    requires LeadingOnes(b) > 0
    ensures b != 0
  {
  }

  // --------------------------------------------------- the two routines together

  // Of all values the encoder takes, its bytes are a character of the grammar,
  // and so decode to the value again, exactly for the scalar values: surrogates
  // and values beyond the last code point are encoded but never accepted.
  lemma RoundTripIff(c: nat, rest: seq<byte>)
    requires c < 0x8000_0000
    ensures CharLen(Image(c) + rest) > 0 <==> Scalar(c)
    ensures Scalar(c) ==> CharLen(Image(c) + rest) == |Image(c)| && CodePoint(Image(c) + rest) == c
  {
    if c <= 0x10FFFF {
      ImageIsEncode(c);
      if Scalar(c) {
        EncodeDecodes(c, rest);
      } else {
        SurrogateRejected(c, rest);
      }
    } else {
      BeyondRejected(c, rest);
    }
  }

  lemma SurrogateRejected(c: nat, rest: seq<byte>)
    requires 0xD800 <= c < 0xE000
    ensures CharLen(Encode(c) + rest) == 0
  {
    var d := c / 64;
    Split(c);
    Split(d);
    var s := Encode(c) + rest;
    assert s[0] == 0xED && s[1] >= 0xA0;
  }

  lemma BeyondRejected(c: nat, rest: seq<byte>)
    requires 0x10FFFF < c < 0x8000_0000
    ensures CharLen(Image(c) + rest) == 0
  {
    var i := Extra(c);
    var s := Image(c) + rest;
    Split(c);
    Split(c / 64);
    Split(c / 64 / 64);
    Drops(c, c / 64, c / 64 / 64);
    hide Pow2;
    assert s[0] == Lead(i) + Drop6(c, i);
    if i == 3 {
      assert s[1] == 0x80 + Drop6(c, 2) % 64;
    }
  }

  // A caller's loop over the encoder.
  method EncodeText(cs: seq<nat>) returns (text: seq<byte>)
    requires forall i :: 0 <= i < |cs| ==> Scalar(cs[i])
    ensures text == EncodeAll(cs)
  {
    hide Encode, Image;
    text := [];
    assert cs[0..] == cs && [] + EncodeAll(cs) == EncodeAll(cs);
    for i := 0 to |cs|
      invariant text + EncodeAll(cs[i..]) == EncodeAll(cs)
    {
      assert Scalar(cs[i]);
      EncodeCons(cs[i], cs[i + 1..]);
      assert cs[i..] == [cs[i]] + cs[i + 1..];
      assert text + (Encode(cs[i]) + EncodeAll(cs[i + 1..])) == text + Encode(cs[i]) + EncodeAll(cs[i + 1..]);
      var n;
      text, n := ToUTF8(cs[i], text);
    }
    assert text + [] == text;
  }

  // A caller's loop over the decoder, on terminated text.
  method DecodeText(m: seq<byte>, length: nat) returns (ok: bool, cs: seq<nat>)
    requires length < |m| && m[length] == 0
    ensures ok <==> WellFormed(m[..length])
    ensures ok ==> cs == CodePoints(m[..length])
  {
    hide CharLen, CodePoint;
    cs := [];
    ghost var s := m[..length];
    var p := 0;
    assert s[0..] == s;
    while p < length
      invariant p <= length
      invariant WellFormed(s) <==> WellFormed(s[p..])
      invariant WellFormed(s) ==> CodePoints(s) == cs + CodePoints(s[p..])
    {
      var ucc, next := FromUTF8(m, p);
      TextAt(m, length, p);
      if ucc < 0 {
        return false, cs;
      }
      assert s[p..][next - p..] == s[next..];
      if WellFormed(s) {
        assert CodePoints(s[p..]) == [ucc] + CodePoints(s[next..]);
        assert cs + ([ucc] + CodePoints(s[next..])) == cs + [ucc] + CodePoints(s[next..]);
      }
      cs := cs + [ucc];
      p := next;
    }
    ok := true;
  }

  // A character of the text is found whatever follows the text, and none
  // reaches past its terminator.
  lemma TextAt(m: seq<byte>, length: nat, p: nat)
    requires p < length < |m| && m[length] == 0
    ensures CharLen(m[p..]) == CharLen(m[..length][p..])
    ensures CharLen(m[p..]) > 0 ==> CodePoint(m[p..]) == CodePoint(m[..length][p..])
  {
    var a, b := m[p..], m[..length][p..];
    assert |b| == length - p && a[|b|] == 0;
    assert forall i :: 0 <= i < |b| ==> a[i] == b[i];
  }

  // Text written by the encoder reads back as the characters it was made of.
  method EncodeThenDecode(cs: seq<nat>) returns (ok: bool, back: seq<nat>)
    requires forall i :: 0 <= i < |cs| ==> Scalar(cs[i])
    ensures ok && back == cs
  {
    var text := EncodeText(cs);
    EncodeAllDecodes(cs);
    assert (text + [0])[..|text|] == text;
    ok, back := DecodeText(text + [0], |text|);
  }

  // Text the decoder accepts is written again byte for byte.
  method DecodeThenEncode(m: seq<byte>, length: nat) returns (ok: bool, text: seq<byte>)
    requires length < |m| && m[length] == 0
    ensures ok <==> WellFormed(m[..length])
    ensures ok ==> text == m[..length]
  {
    var cs;
    ok, cs := DecodeText(m, length);
    text := [];
    if ok {
      text := EncodeText(cs);
      DecodeAllEncodes(m[..length]);
    }
  }
}
