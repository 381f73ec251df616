// Escaping a string for JSON, against section 7 of RFC 8259.
module JsonEscape {
  import opened Bits
  import opened Bytes
  import opened Options
  import opened Utf8
  import Codec = Utf8Codec

  // ---------------------------------------------------------------- escaping

  function HexDigit(d: nat): byte
    requires d < 16
  {
    if d < 10 then 48 + d else 55 + d
  }

  // `IntToStringHex(v, 4)` and `IntToStringHex(v, 2)`.
  function Hex4(v: nat): (s: seq<byte>)
    requires v < 0x1_0000
    ensures |s| == 4
  {
    var a := v / 16;
    var b := a / 16;
    [HexDigit(b / 16), HexDigit(b % 16), HexDigit(a % 16), HexDigit(v % 16)]
  }

  function Hex2(v: nat): seq<byte>
    requires v < 0x100
  {
    [HexDigit(v / 16), HexDigit(v % 16)]
  }

  // The letter after the backslash, for characters that have a short escape.
  function ShortEscape(c: byte): Option<byte> {
    if c == 10 then Some(110) else if c == 9 then Some(116) else if c == 13 then Some(114)
    else if c == 8 then Some(98) else if c == 12 then Some(102)
    else if c == 34 then Some(34) else if c == 92 then Some(92)
    else None
  }

  function UEscape(v: nat): (s: seq<byte>)
    requires v < 0x1_0000
    ensures |s| == 6
  {
    [92, 117] + Hex4(v)
  }

  // A character outside the printable ASCII range.
  function EscapeCodePoint(c: nat): seq<byte>
    requires c <= 0x10FFFF
  {
    if c <= 0xFFFF then UEscape(c)
    else UEscape((c - 0x1_0000) / 1024 + 0xD800) + UEscape((c - 0x1_0000) % 1024 + 0xDC00)
  }

  // What replaces the character at the front, and how many bytes it had.
  function EscapeChar(s: seq<byte>, allowNonUtf8: bool, natural: bool): (r: Option<(seq<byte>, nat)>)
    requires s != []
    ensures r.Some? ==> 0 < r.value.1 <= |s|
  {
    var short := ShortEscape(s[0]);
    if short.Some? then Some(([92, short.value], 1))
    else if Printable(s[0]) then Some(([s[0]], 1))
    else
      var n := CharLen(s);
      if n == 0 then (if allowNonUtf8 then Some(([92, 120] + Hex2(s[0]), 1)) else None)
      else Some((if natural then s[..n] else EscapeCodePoint(CodePoint(s)), n))
  }

  function Escape(s: seq<byte>, allowNonUtf8: bool, natural: bool): Option<seq<byte>>
    decreases |s|
  {
    if s == [] then Some([])
    else
      var (piece, n) :- EscapeChar(s, allowNonUtf8, natural);
      var rest :- Escape(s[n..], allowNonUtf8, natural);
      Some(piece + rest)
  }

  lemma Accepted(s: seq<byte>, allow: bool, natural: bool)
    requires s != []
    ensures var r := EscapeChar(s, allow, natural);
      (r.Some? <==> allow || CharLen(s) > 0) && (CharLen(s) > 0 ==> r.Some? && r.value.1 == CharLen(s))
  {
    hide EscapeCodePoint, CodePoint;
  }

  // ----------------------------------------------------------------- reading

  function HexValue(b: byte): int {
    if 48 <= b <= 57 then b - 48 else if 65 <= b <= 70 then b - 55 else if 97 <= b <= 102 then b - 87 else -1
  }

  // Four hexadecimal digits, or a negative number.
  function HexQuad(s: seq<byte>): int {
    if |s| < 4 then -1
    else
      var a, b, c, d := HexValue(s[0]), HexValue(s[1]), HexValue(s[2]), HexValue(s[3]);
      if a < 0 || b < 0 || c < 0 || d < 0 then -1 else 4096 * a + 256 * b + 16 * c + d
  }

  function Unescape(b: byte): int {
    if b == 34 || b == 92 || b == 47 then b
    else if b == 98 then 8 else if b == 102 then 12 else if b == 110 then 10
    else if b == 114 then 13 else if b == 116 then 9 else -1
  }

  // One character of a JSON string: its code point and how many bytes stand for it.
  function ReadChar(t: seq<byte>): (r: Option<(nat, nat)>)
    requires t != []
    ensures r.Some? ==> 0 < r.value.1 <= |t|
  {
    if t[0] == 92 then
      if |t| < 2 then None
      else if t[1] == 117 then
        var v := HexQuad(t[2..]);
        if v < 0 then None
        else if 0xD800 <= v <= 0xDBFF then
          var w := if |t| >= 12 && t[6] == 92 && t[7] == 117 then HexQuad(t[8..]) else -1;
          if 0xDC00 <= w <= 0xDFFF then Some((0x1_0000 + (v - 0xD800) * 1024 + (w - 0xDC00), 12)) else None
        else if 0xDC00 <= v <= 0xDFFF then None
        else Some((v, 6))
      else if Unescape(t[1]) < 0 then None
      else Some((Unescape(t[1]), 2))
    else if t[0] == 34 || t[0] < 32 || CharLen(t) == 0 then None
    else Some((CodePoint(t), CharLen(t)))
  }

  function ReadChars(t: seq<byte>): Option<seq<nat>>
    decreases |t|
  {
    if t == [] then Some([])
    else
      var (c, n) :- ReadChar(t);
      var rest :- ReadChars(t[n..]);
      Some([c] + rest)
  }

  // A JSON string with its quotation marks.
  function ReadString(t: seq<byte>): Option<seq<nat>> {
    if |t| >= 2 && t[0] == 34 && t[|t| - 1] == 34 then ReadChars(t[1..|t| - 1]) else None
  }

  // ------------------------------------------------- what stands for what

  // The short escapes are those of RFC 8259 but for the solidus: the letter is
  // one that a reader turns back into the character.
  lemma ShortEscapeIff(c: byte, l: byte)
    ensures ShortEscape(c) == Some(l) <==> l != 47 && Unescape(l) == c
  {
  }

  // A digit of a hexadecimal number as it is written.
  predicate UpperDigit(b: byte) {
    48 <= b <= 57 || 65 <= b <= 70
  }

  lemma DigitIsUpper(d: nat)
    requires d < 16
    ensures UpperDigit(HexDigit(d)) && HexValue(HexDigit(d)) == d
  {
  }

  lemma Hex4Digits(v: nat)
    requires v < 0x1_0000
    ensures forall k :: 0 <= k < 4 ==> UpperDigit(Hex4(v)[k])
  {
    hide UpperDigit;
    DigitIsUpper(v / 16 / 16 / 16);
    DigitIsUpper(v / 16 / 16 % 16);
    DigitIsUpper(v / 16 % 16);
    DigitIsUpper(v % 16);
  }

  // Under both flags: a character with a short escape becomes a backslash and
  // its letter, any other printable ASCII character stays as it is.
  lemma AsciiPieces(s: seq<byte>, allow: bool, natural: bool)
    requires s != []
    ensures forall l: byte | l != 47 && Unescape(l) == s[0] :: EscapeChar(s, allow, natural) == Some(([92, l], 1))
    ensures 32 <= s[0] <= 126 && s[0] != 34 && s[0] != 92 ==> EscapeChar(s, allow, natural) == Some(([s[0]], 1))
  {
    hide CharLen, CodePoint, EscapeCodePoint, Hex2;
    forall l: byte | l != 47 && Unescape(l) == s[0] ensures EscapeChar(s, allow, natural) == Some(([92, l], 1)) {
      ShortEscapeIff(s[0], l);
    }
  }

  // Neither printable ASCII nor one of the characters with a short escape.
  predicate Special(c: byte) {
    c != 8 && c != 9 && c != 10 && c != 12 && c != 13 && !(32 <= c <= 126)
  }

  // Any other character is copied with `natural_utf8`; without, it becomes
  // `\u` and four upper-case digits, or two such groups, that a reader turns
  // back into it.
  lemma SpecialPieces(s: seq<byte>, allow: bool, natural: bool)
    requires s != [] && Special(s[0]) && CharLen(s) > 0
    ensures natural ==> EscapeChar(s, allow, natural) == Some((s[..CharLen(s)], CharLen(s)))
    ensures !natural ==>
      var r := EscapeChar(s, allow, natural);
      && r.Some? && r.value.1 == CharLen(s)
      && var t := r.value.0;
      && (|t| == if CodePoint(s) <= 0xFFFF then 6 else 12) && ReadChar(t) == Some((CodePoint(s), |t|))
      && (forall k :: 2 <= k < 6 || 8 <= k < |t| ==> UpperDigit(t[k]))
  {
    if !natural {
      var c := CodePoint(s);
      CodePointReads(c, []);
      assert EscapeCodePoint(c) + [] == EscapeCodePoint(c);
      EscapeDigits(c);
      hide EscapeCodePoint, CharLen, ReadChar, UpperDigit;
    }
  }

  lemma EscapeDigits(c: nat)
    requires c <= 0x10FFFF
    ensures var t := EscapeCodePoint(c);
      && (|t| == if c <= 0xFFFF then 6 else 12)
      && (forall k :: 2 <= k < 6 || 8 <= k < |t| ==> UpperDigit(t[k]))
  {
    hide UpperDigit, Hex4;
    if c <= 0xFFFF {
      Hex4Digits(c);
    } else {
      var high, low := (c - 0x1_0000) / 1024 + 0xD800, (c - 0x1_0000) % 1024 + 0xDC00;
      Hex4Digits(high);
      Hex4Digits(low);
    }
  }

  // A byte that starts no character becomes `\x` and its two upper-case digits
  // if such bytes are allowed, and is refused otherwise.
  lemma BadBytePiece(s: seq<byte>, allow: bool, natural: bool)
    requires s != [] && CharLen(s) == 0
    ensures !allow ==> EscapeChar(s, allow, natural) == None
    ensures allow ==>
      var r := EscapeChar(s, allow, natural);
      && r.Some? && r.value.1 == 1
      && var t := r.value.0;
      && |t| == 4 && t[0] == 92 && t[1] == 120 && UpperDigit(t[2]) && UpperDigit(t[3])
      && 16 * HexValue(t[2]) + HexValue(t[3]) == s[0]
  {
    DigitIsUpper(s[0] / 16);
    DigitIsUpper(s[0] % 16);
    hide HexDigit, HexValue, UpperDigit;
  }

  // ------------------------------------------------------------- round trip

  lemma Sixteenths(v: nat, a: nat, b: nat)
    requires a == v / 16 && b == a / 16
    ensures 4096 * (b / 16) + 256 * (b % 16) + 16 * (a % 16) + v % 16 == v
  {
  }

  lemma HexReads(v: nat, rest: seq<byte>)
    requires v < 0x1_0000
    ensures HexQuad(Hex4(v) + rest) == v
  {
    var s := Hex4(v) + rest;
    var a := v / 16;
    var b := a / 16;
    DigitIsUpper(b / 16);
    DigitIsUpper(b % 16);
    DigitIsUpper(a % 16);
    DigitIsUpper(v % 16);
    hide HexDigit, HexValue;
    assert s[0] == HexDigit(b / 16) && s[1] == HexDigit(b % 16) && s[2] == HexDigit(a % 16) && s[3] == HexDigit(v % 16);
    Sixteenths(v, a, b);
  }

  lemma UEscapeReads(v: nat, rest: seq<byte>)
    requires v < 0x1_0000
    ensures var t := UEscape(v) + rest; t[0] == 92 && t[1] == 117 && HexQuad(t[2..]) == v && t[6..] == rest
  {
    HexReads(v, rest);
    hide Hex4, HexQuad;
    assert (UEscape(v) + rest)[2..] == Hex4(v) + rest;
  }

  lemma CodePointReads(c: nat, rest: seq<byte>)
    requires Scalar(c)
    ensures ReadChar(EscapeCodePoint(c) + rest) == Some((c, |EscapeCodePoint(c)|))
  {
    hide UEscape, HexQuad;
    if c <= 0xFFFF {
      UEscapeReads(c, rest);
    } else {
      var high, low := (c - 0x1_0000) / 1024 + 0xD800, (c - 0x1_0000) % 1024 + 0xDC00;
      var t := UEscape(high) + (UEscape(low) + rest);
      assert EscapeCodePoint(c) + rest == t;
      UEscapeReads(high, UEscape(low) + rest);
      UEscapeReads(low, rest);
      assert t[8..] == t[6..][2..] && t[6] == t[6..][0] && t[7] == t[6..][1];
    }
  }

  // Each replacement reads as the character it replaced.
  lemma PieceReads(s: seq<byte>, rest: seq<byte>)
    requires s != [] && CharLen(s) > 0
    ensures var r := EscapeChar(s, false, false);
      r.Some? && r.value.1 == CharLen(s) && r.value.0 != []
      && ReadChar(r.value.0 + rest) == Some((CodePoint(s), |r.value.0|))
  {
    Accepted(s, false, false);
    if ShortEscape(s[0]).None? && !Printable(s[0]) {
      CodePointReads(CodePoint(s), rest);
      hide EscapeCodePoint, ReadChar, CodePoint, CharLen;
    }
  }

  function Quoted(body: seq<byte>): seq<byte> {
    [34] + body + [34]
  }

  // ------------------------------------------------- every flag, every text

  // No control character but backspace, tab, line feed, form feed and carriage
  // return: `natural_utf8` copies the others as they are.
  predicate CopyableByte(c: byte) {
    c >= 32 || c == 8 || c == 9 || c == 10 || c == 12 || c == 13
  }

  predicate Copyable(s: seq<byte>) {
    forall i :: 0 <= i < |s| ==> CopyableByte(s[i])
  }

  // The texts for which the output is a JSON string.
  predicate Transparent(s: seq<byte>, natural: bool) {
    WellFormed(s) && (natural ==> Copyable(s))
  }

  // A character is recognized whatever follows it.
  lemma SameChar(s: seq<byte>, rest: seq<byte>)
    requires CharLen(s) > 0
    ensures var t := s[..CharLen(s)] + rest;
      t[0] == s[0] && CharLen(t) == CharLen(s) && CodePoint(t) == CodePoint(s)
  {
    var n := CharLen(s);
    var t := s[..n] + rest;
    assert forall i :: 0 <= i < n ==> t[i] == s[i];
  }

  // Only the first byte of a character can be a control character.
  lemma CopyableSplits(s: seq<byte>)
    requires CharLen(s) > 0
    ensures Copyable(s) <==> CopyableByte(s[0]) && Copyable(s[CharLen(s)..])
  {
    var n := CharLen(s);
    assert forall i :: 1 <= i < n ==> CopyableByte(s[i]);
    hide CharLen, CopyableByte;
    forall i | 0 <= i < |s| && Copyable(s[n..]) && CopyableByte(s[0])
      ensures CopyableByte(s[i])
    {
      if i >= n {
        assert s[i] == s[n..][i - n];
      }
    }
  }

  // What a reader makes of one replacement.
  lemma PieceReadsIff(s: seq<byte>, allow: bool, natural: bool, rest: seq<byte>)
    requires s != [] && EscapeChar(s, allow, natural).Some?
    ensures var (piece, n) := EscapeChar(s, allow, natural).value;
      && piece != []
      && (CharLen(s) > 0 ==> n == CharLen(s))
      && ReadChar(piece + rest)
         == if CharLen(s) > 0 && (natural ==> CopyableByte(s[0]))
            then Some((CodePoint(s), |piece|)) else None
  {
    if CharLen(s) == 0 {
      NotACharacter(s, allow, natural, rest);
    } else if natural && ShortEscape(s[0]).None? && !Printable(s[0]) {
      SameChar(s, rest);
    } else {
      PieceReads(s, rest);
    }
  }

  lemma NotACharacter(s: seq<byte>, allow: bool, natural: bool, rest: seq<byte>)
    requires s != [] && CharLen(s) == 0 && EscapeChar(s, allow, natural).Some?
    ensures var piece := EscapeChar(s, allow, natural).value.0;
      piece != [] && ReadChar(piece + rest) == None
  {
    var piece := EscapeChar(s, allow, natural).value.0;
    assert piece == [92, 120] + Hex2(s[0]);
    assert (piece + rest)[0] == 92 && (piece + rest)[1] == 120;
  }

  lemma {:induction false} ReadsIff(s: seq<byte>, allow: bool, natural: bool)
    ensures Escape(s, allow, natural).Some? <==> allow || WellFormed(s)
    ensures Escape(s, allow, natural).Some? ==>
      ReadChars(Escape(s, allow, natural).value) == if Transparent(s, natural) then Some(CodePoints(s)) else None
    decreases |s|
  {
    if s != [] {
      Accepted(s, allow, natural);
      if EscapeChar(s, allow, natural).Some? {
        var (piece, n) := EscapeChar(s, allow, natural).value;
        ReadsIff(s[n..], allow, natural);
        if CharLen(s) > 0 {
          CopyableSplits(s);
        }
        if Escape(s[n..], allow, natural).Some? {
          var rest := Escape(s[n..], allow, natural).value;
          PieceReadsIff(s, allow, natural, rest);
          hide CharLen, EscapeChar, ReadChar, CodePoint, Copyable;
          assert (piece + rest)[|piece|..] == rest;
        }
      }
    }
  }

  // Whatever the flags: escaping succeeds if and only if the text is well-formed
  // or bad bytes are allowed, and the output is a JSON string for the input if
  // and only if the text is well-formed and, when characters are copied, has no
  // bare control character.  In all other cases it is not a JSON string.
  lemma RoundTripIff(s: seq<byte>, allow: bool, natural: bool)
    ensures Escape(s, allow, natural).Some? <==> allow || WellFormed(s)
    ensures Escape(s, allow, natural).Some? ==>
      ReadString(Quoted(Escape(s, allow, natural).value))
      == if WellFormed(s) && (natural ==> Copyable(s)) then Some(CodePoints(s)) else None
  {
    ReadsIff(s, allow, natural);
    hide Escape, ReadChars, CodePoints, Copyable, WellFormed;
    if Escape(s, allow, natural).Some? {
      var body := Escape(s, allow, natural).value;
      assert Quoted(body)[1..|Quoted(body)| - 1] == body;
    }
  }

  // The text goes through exactly when it is well-formed UTF-8.
  lemma EscapesExactlyUtf8(s: seq<byte>, natural: bool)
    ensures Escape(s, false, natural).Some? <==> WellFormed(s)
  {
    ReadsIff(s, false, natural);
  }

  // Reading the output as a JSON string gives the characters of the input.
  lemma RoundTrip(s: seq<byte>)
    requires WellFormed(s)
    ensures Escape(s, false, false).Some?
    ensures ReadString(Quoted(Escape(s, false, false).value)) == Some(CodePoints(s))
  {
    RoundTripIff(s, false, false);
  }

  // Different texts never have the same escaped form, whichever of the two
  // settings each was escaped under.
  lemma Injective(s: seq<byte>, t: seq<byte>, naturalS: bool, naturalT: bool)
    requires Escape(s, false, naturalS).Some? && Escape(s, false, naturalS) == Escape(t, false, naturalT)
    requires (naturalS ==> Copyable(s)) && (naturalT ==> Copyable(t))
    ensures s == t
  {
    ReadsIff(s, false, naturalS);
    ReadsIff(t, false, naturalT);
    DecodeAllEncodes(s);
    DecodeAllEncodes(t);
  }

  // The case of `natural_utf8` alone.
  lemma NaturalRoundTripIff(s: seq<byte>)
    requires WellFormed(s)
    ensures Escape(s, false, true).Some?
    ensures ReadString(Quoted(Escape(s, false, true).value)) == Some(CodePoints(s)) <==> Copyable(s)
  {
    RoundTripIff(s, false, true);
  }

  // An input outside it: a single control character is copied as it is.
  lemma NaturalControlIsNotJson()
    ensures WellFormed([1]) && !Copyable([1])
    ensures Escape([1], false, true) == Some([1]) && ReadString(Quoted([1])) == None
  {
    var s: seq<byte> := [1];
    assert s[1..] == [] && s[..1] == s && CharLen(s) == 1;
    assert WellFormed(s) by {
      assert WellFormed(s[1..]);
    }
    assert s[0] == 1;
    assert EscapeChar(s, false, true) == Some((s, 1));
    assert Escape(s[1..], false, true) == Some([]) && s + [] == s;
    RoundTripIff(s, false, true);
  }

  // ------------------------------------------------------------- the routine

  // Text before the rest of an escaped string.
  function Prepend(done: seq<byte>, rest: Option<seq<byte>>): Option<seq<byte>> {
    match rest
    case None => None
    case Some(r) => Some(done + r)
  }

  lemma EscapeStep(s: seq<byte>, i: nat, done: seq<byte>, allow: bool, natural: bool)
    requires i < |s|
    ensures Prepend(done, Escape(s[i..], allow, natural)) == match EscapeChar(s[i..], allow, natural)
      case None => None
      case Some(r) => Prepend(done + r.0, Escape(s[i + r.1..], allow, natural))
  {
    hide EscapeChar;
    match EscapeChar(s[i..], allow, natural)
    case None =>
    case Some(r) =>
      assert s[i..][r.1..] == s[i + r.1..];
      match Escape(s[i + r.1..], allow, natural)
      case None =>
      case Some(rest) => assert done + (r.0 + rest) == done + r.0 + rest;
  }

  // The terminator after the text is never part of a character.
  lemma TerminatorEnds(s: seq<byte>)
    requires s != []
    ensures CharLen(s + [0]) == CharLen(s)
    ensures CharLen(s) > 0 ==> CodePoint(s + [0]) == CodePoint(s)
  {
  }

  method EscapeString(m: seq<byte>, length: nat, text: seq<byte>, allowNonUtf8: bool, naturalUtf8: bool)
    returns (ok: bool, out: seq<byte>)
    requires length < |m| && m[length] == 0
    ensures match Escape(m[..length], allowNonUtf8, naturalUtf8)
      case None => !ok
      case Some(body) => ok && out == text + Quoted(body)
  {
    hide EscapeChar, Escape;
    var s := m[..length];
    ghost var done: seq<byte> := [];
    out := text + [34];
    var i := 0;
    assert s[0..] == s;
    PrependNothing(Escape(s, allowNonUtf8, naturalUtf8));
    while i < length
      invariant i <= length && out == text + [34] + done
      invariant Escape(s, allowNonUtf8, naturalUtf8) == Prepend(done, Escape(s[i..], allowNonUtf8, naturalUtf8))
    {
      EscapeStep(s, i, done, allowNonUtf8, naturalUtf8);
      var piece, n := EscapeOne(m, length, i, allowNonUtf8, naturalUtf8);
      if n == 0 {
        return false, out;
      }
      out := out + piece;
      done := done + piece;
      i := i + n;
    }
    EscapeNothing(s, allowNonUtf8, naturalUtf8);
    out := out + [34];
    ok := true;
  }

  lemma PrependNothing(o: Option<seq<byte>>)
    ensures Prepend([], o) == o
  {
    if o.Some? {
      assert [] + o.value == o.value;
    }
  }

  lemma EscapeNothing(s: seq<byte>, allow: bool, natural: bool)
    ensures Escape(s[|s|..], allow, natural) == Some([])
  {
  }

  // The body of the loop: what to append, and how many bytes it stands for.
  method EscapeOne(m: seq<byte>, length: nat, i: nat, allowNonUtf8: bool, naturalUtf8: bool)
    returns (piece: seq<byte>, n: nat)
    requires i < length < |m| && m[length] == 0
    ensures match EscapeChar(m[..length][i..], allowNonUtf8, naturalUtf8)
      case None => n == 0
      case Some(r) => piece == r.0 && n == r.1 > 0
  {
    hide CharLen, CodePoint, EscapeCodePoint;
    ghost var s := m[..length][i..];
    var c := m[i];
    var short := ShortEscape(c);
    if short.Some? {
      return [92, short.value], 1;
    }
    if Printable(c) {
      return [c], 1;
    }
    assert m[i..length + 1] == s + [0];
    TerminatorEnds(s);
    var ucc, next := Codec.FromUTF8(m[..length + 1], i);
    assert m[..length + 1][i..] == s + [0];
    if ucc < 0 {
      if allowNonUtf8 {
        return [92, 120] + Hex2(c), 1;
      }
      return [], 0;
    }
    if naturalUtf8 {
      assert s[..CharLen(s)] == m[i..next];
      return m[i..next], next - i;
    }
    if ucc <= 0xFFFF {
      PieceIs(ucc, 0, 0);
      piece := UEscape(ucc);
    } else {
      var base := ucc - 0x1_0000;
      Surrogates(base);
      hide Shr, And, UEscape;
      var highSurrogate := Shr(base, 10) + 0xD800;
      var lowSurrogate := And(base, 0x03FF) + 0xDC00;
      PieceIs(ucc, highSurrogate, lowSurrogate);
      piece := UEscape(highSurrogate) + UEscape(lowSurrogate);
    }
    n := next - i;
  }

  lemma PieceIs(c: nat, high: nat, low: nat)
    requires c <= 0x10FFFF
    requires c > 0xFFFF ==> high == (c - 0x1_0000) / 1024 + 0xD800 && low == (c - 0x1_0000) % 1024 + 0xDC00
    ensures EscapeCodePoint(c) == if c <= 0xFFFF then UEscape(c) else UEscape(high) + UEscape(low)
  {
  }

  lemma Surrogates(base: nat)
    requires base < 0x10_0000
    ensures Shr(base, 10) == base / 1024 < 1024 && And(base, 0x3FF) == base % 1024
  {
    assert Pow2(5) == 32;
    Pow2Sum(5, 5);
    ShrIsQuotient(base, 10);
    AndLowMask(base, 10);
  }
}
