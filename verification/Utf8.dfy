// UTF-8 encoding and decoding, against RFC 3629.
module Utf8 {
  import opened Bits
  import opened Bytes

  // --------------------------------------------------------- the reference

  // A Unicode scalar value: a code point that is not a surrogate.
  predicate Scalar(c: nat) {
    c < 0xD800 || 0xE000 <= c <= 0x10FFFF
  }

  predicate Tail(b: byte) {
    0x80 <= b <= 0xBF
  }

  // Section 3 of RFC 3629: the octets of a character.
  function Encode(c: nat): (s: seq<byte>)
    requires c <= 0x10FFFF
    ensures 1 <= |s| <= 4
  {
    if c < 0x80 then [c]
    else if c < 0x800 then [0xC0 + c / 64, 0x80 + c % 64]
    else
      var d := c / 64;
      if c < 0x1_0000 then [0xE0 + d / 64, 0x80 + d % 64, 0x80 + c % 64]
      else
        var e := d / 64;
        [0xF0 + e / 64, 0x80 + e % 64, 0x80 + d % 64, 0x80 + c % 64]
  }

  predicate IsLead3(a: byte, b: byte) {
    || (a == 0xE0 && 0xA0 <= b <= 0xBF)
    || (0xE1 <= a <= 0xEC && Tail(b))
    || (a == 0xED && 0x80 <= b <= 0x9F)
    || (0xEE <= a <= 0xEF && Tail(b))
  }

  predicate IsLead4(a: byte, b: byte) {
    || (a == 0xF0 && 0x90 <= b <= 0xBF)
    || (0xF1 <= a <= 0xF3 && Tail(b))
    || (a == 0xF4 && 0x80 <= b <= 0x8F)
  }

  // Section 4 of RFC 3629: how many octets the character at the front has, or
  // zero when there is none.
  function CharLen(s: seq<byte>): (n: nat)
    ensures n <= |s| && n <= 4
  {
    if |s| >= 1 && s[0] <= 0x7F then 1
    else if |s| >= 2 && 0xC2 <= s[0] <= 0xDF && Tail(s[1]) then 2
    else if |s| >= 3 && IsLead3(s[0], s[1]) && Tail(s[2]) then 3
    else if |s| >= 4 && IsLead4(s[0], s[1]) && Tail(s[2]) && Tail(s[3]) then 4
    else 0
  }

  // Six more bits from a trailing octet.
  function Join(high: int, b: byte): int {
    64 * high + (b - 0x80)
  }

  function CodePoint(s: seq<byte>): (c: nat)
    requires CharLen(s) > 0
    ensures Scalar(c)
  {
    var n := CharLen(s);
    if n == 1 then s[0]
    else if n == 2 then Join(s[0] - 0xC0, s[1])
    else if n == 3 then Join(Join(s[0] - 0xE0, s[1]), s[2])
    else Join(Join(Join(s[0] - 0xF0, s[1]), s[2]), s[3])
  }

  lemma Split(c: nat)
    ensures c == 64 * (c / 64) + c % 64 && c % 64 < 64
  {
  }

  // The grammar accepts what section 3 emits, and finds the character again.
  lemma EncodeDecodes(c: nat, rest: seq<byte>)
    requires Scalar(c)
    ensures CharLen(Encode(c) + rest) == |Encode(c)| && CodePoint(Encode(c) + rest) == c
  {
    var d := c / 64;
    Split(c);
    Split(d);
    Split(d / 64);
    var s := Encode(c) + rest;
    assert forall i :: 0 <= i < |Encode(c)| ==> s[i] == Encode(c)[i];
  }

  lemma JoinSplits(high: nat, b: byte)
    requires Tail(b)
    ensures Join(high, b) / 64 == high && 0x80 + Join(high, b) % 64 == b
  {
    DivModUnique(Join(high, b), 64, high, b - 0x80);
  }

  // What the grammar accepts is what section 3 emits for that character.
  lemma DecodeEncodes(s: seq<byte>)
    requires CharLen(s) > 0
    ensures Encode(CodePoint(s)) == s[..CharLen(s)]
  {
    var n := CharLen(s);
    hide Encode, Join;
    if n == 1 {
      Encode1(s[0]);
      assert s[..n] == [s[0]];
    } else if n == 2 {
      Encode2(s[0], s[1]);
      assert s[..n] == [s[0], s[1]];
    } else if n == 3 {
      Encode3(s[0], s[1], s[2]);
      assert s[..n] == [s[0], s[1], s[2]];
    } else {
      Encode4(s[0], s[1], s[2], s[3]);
      assert s[..n] == [s[0], s[1], s[2], s[3]];
    }
  }

  lemma Encode1(x: byte)
    requires x <= 0x7F
    ensures Encode(x) == [x]
  {
  }

  lemma Encode2(x: byte, y: byte)
    requires 0xC2 <= x <= 0xDF && Tail(y)
    ensures Scalar(Join(x - 0xC0, y)) && Encode(Join(x - 0xC0, y)) == [x, y]
  {
    JoinSplits(x - 0xC0, y);
  }

  lemma Encode3(x: byte, y: byte, z: byte)
    requires IsLead3(x, y) && Tail(z)
    ensures Scalar(Join(Join(x - 0xE0, y), z)) && Encode(Join(Join(x - 0xE0, y), z)) == [x, y, z]
  {
    var d := Join(x - 0xE0, y);
    var c := Join(d, z);
    assert 0x800 <= c < 0x1_0000;
    hide Join;
    JoinSplits(x - 0xE0, y);
    JoinSplits(d, z);
  }

  lemma Encode4(x: byte, y: byte, z: byte, w: byte)
    requires IsLead4(x, y) && Tail(z) && Tail(w)
    ensures var c := Join(Join(Join(x - 0xF0, y), z), w);
      Scalar(c) && Encode(c) == [x, y, z, w]
  {
    var e := Join(x - 0xF0, y);
    var d := Join(e, z);
    var c := Join(d, w);
    assert 0x1_0000 <= c <= 0x10FFFF;
    hide Join;
    JoinSplits(x - 0xF0, y);
    JoinSplits(e, z);
    JoinSplits(d, w);
  }

  // ------------------------------------------------------- whole strings

  function EncodeAll(cs: seq<nat>): seq<byte>
    requires forall i :: 0 <= i < |cs| ==> Scalar(cs[i])
  {
    if cs == [] then []
    else
      assert Scalar(cs[0]);
      Encode(cs[0]) + EncodeAll(cs[1..])
  }

  predicate WellFormed(s: seq<byte>) {
    s == [] || (CharLen(s) > 0 && WellFormed(s[CharLen(s)..]))
  }

  function CodePoints(s: seq<byte>): (cs: seq<nat>)
    requires WellFormed(s)
    ensures forall i :: 0 <= i < |cs| ==> Scalar(cs[i])
  {
    if s == [] then [] else [CodePoint(s)] + CodePoints(s[CharLen(s)..])
  }

  lemma {:induction false} EncodeAllDecodes(cs: seq<nat>)
    requires forall i :: 0 <= i < |cs| ==> Scalar(cs[i])
    ensures WellFormed(EncodeAll(cs)) && CodePoints(EncodeAll(cs)) == cs
  {
    if cs != [] {
      var rest := EncodeAll(cs[1..]);
      assert Scalar(cs[0]);
      EncodeDecodes(cs[0], rest);
      EncodeAllDecodes(cs[1..]);
      hide CharLen, CodePoint, Encode;
      assert EncodeAll(cs)[|Encode(cs[0])|..] == rest;
    }
  }

  lemma EncodeCons(c: nat, cs: seq<nat>)
    requires Scalar(c) && forall i :: 0 <= i < |cs| ==> Scalar(cs[i])
    ensures EncodeAll([c] + cs) == Encode(c) + EncodeAll(cs)
  {
    assert ([c] + cs)[1..] == cs;
  }

  lemma {:induction false} DecodeAllEncodes(s: seq<byte>)
    requires WellFormed(s)
    ensures EncodeAll(CodePoints(s)) == s
    decreases |s|
  {
    hide EncodeAll, CodePoint, CharLen, Encode, Scalar;
    if s == [] {
      EncodeNothing();
    } else {
      var n := CharLen(s);
      DecodeEncodes(s);
      DecodeAllEncodes(s[n..]);
      EncodeCons(CodePoint(s), CodePoints(s[n..]));
      assert s == s[..n] + s[n..];
    }
  }

  lemma EncodeNothing()
    ensures EncodeAll([]) == []
  {
  }
}
