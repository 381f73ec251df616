// What each building operation writes.
module Writing {
  import opened Bits
  import opened Bytes
  import opened Alignment
  import opened BuilderSpec
  import opened Layout

  // `t` is `st` with more bytes in front and at least its alignment.
  ghost predicate Grew(st: State, t: State) {
    && IsAlignment(st.minalign)
    && IsAlignment(t.minalign)
    && st.minalign <= t.minalign
    && |st.data| <= |t.data|
    && Extends(st.data, t.data)
    && t == st.(data := t.data, minalign := t.minalign)
  }

  lemma GrewTransitive(s: State, t: State, u: State)
    requires Grew(s, t) && Grew(t, u)
    ensures Grew(s, u)
  {
    ExtendsTransitive(s.data, t.data, u.data);
  }

  lemma AddMultiple(a: nat, s: nat)
    requires ScalarSize(s) && Aligned(a, s)
    ensures Aligned(a + s, s)
  {
    if s == 8 {
      DivModUnique(a + 8, 8, a / 8 + 1, 0);
    } else if s == 4 {
      DivModUnique(a + 4, 4, a / 4 + 1, 0);
    } else if s == 2 {
      DivModUnique(a + 2, 2, a / 2 + 1, 0);
    }
  }

  lemma PadGrew(st: State, n: nat, a: nat)
    requires IsAlignment(st.minalign) && IsAlignment(a)
    ensures Grew(st, Pad(st.(minalign := Max(st.minalign, a)), n))
  {
    ExtendsBy(Zeros(n), st.data);
  }

  // Every scalar lands on a multiple of its size, counted from the end, and
  // its size divides the recorded alignment.
  lemma PushElementWrites(st: State, s: nat, v: nat)
    requires ScalarSize(s) && IsAlignment(st.minalign)
    ensures var t := PushElement(st, s, v);
      && Grew(st, t)
      && |t.data| == |st.data| + Padding(|st.data|, s) + s
      && Aligned(|t.data|, s)
      && Aligned(t.minalign, s) && t.minalign == Max(st.minalign, s)
      && At(t.data, |t.data|, s) == ToLE(s, v)
  {
    var a := Align(st, s);
    var t := PushElement(st, s, v);
    PadGrew(st, Padding(|st.data|, s), s);
    SizeDivides(st.minalign, s);
    hide Padding, ToLE, Extends;
    ExtendsBy(ToLE(s, v), a.data);
    GrewTransitive(st, a, t);
    AtFront(ToLE(s, v), a.data);
    AddMultiple(|a.data|, s);
  }

  lemma SizeDivides(m: nat, s: nat)
    requires ScalarSize(s) && IsAlignment(m)
    ensures IsAlignment(Max(m, s)) && Aligned(Max(m, s), s)
  {
  }

  // An aligned buffer needs no padding.
  lemma PushElementAligned(st: State, s: nat, v: nat)
    requires ScalarSize(s) && IsAlignment(st.minalign) && Aligned(|st.data|, s)
    ensures var t := PushElement(st, s, v);
      t.data == ToLE(s, v) + st.data && |t.data| == |st.data| + s
  {
    hide PaddingBytes, ToLE;
    NoPadding(|st.data|, s);
    assert Zeros(0) + st.data == st.data;
  }

  lemma NoPadding(n: nat, s: nat)
    requires ScalarSize(s) && Aligned(n, s)
    ensures Padding(n, s) == 0
  {
    hide Padding;
    var p := Padding(n, s);
    if s == 8 {
      assert n == 8 * (n / 8);
    } else if s == 4 {
      assert n == 4 * (n / 4);
    } else if s == 2 {
      assert n == 2 * (n / 2);
    }
  }

  lemma PushOffsetWrites(st: State, ref: nat)
    requires IsAlignment(st.minalign) && 0 < ref <= |st.data|
    ensures var t := PushOffset(st, ref);
      && Grew(st, t)
      && t.minalign % 4 == 0 && t.minalign == Max(st.minalign, 4)
      && RefAt(t.data, |t.data|, ref)
      && |t.data| == |st.data| + Padding(|st.data|, 4) + 4
  {
    var a := Align(st, 4);
    PadGrew(st, Padding(|st.data|, 4), 4);
    PushElementWrites(a, 4, ReferTo(a, ref));
    PushElementAligned(a, 4, ReferTo(a, ref));
    GrewTransitive(st, a, PushOffset(st, ref));
  }

  lemma PushBytesGrew(st: State, x: seq<byte>)
    requires IsAlignment(st.minalign)
    ensures Grew(st, PushBytes(st, x))
  {
    ExtendsBy(x, st.data);
  }

  // After `PreAlign`, `len` more bytes end on a multiple of the alignment.
  lemma PreAlignGrew(st: State, len: nat, a: nat)
    requires IsAlignment(st.minalign) && IsAlignment(a)
    ensures var t := PreAlign(st, len, a);
      && Grew(st, t)
      && Aligned(|t.data| + len, a)
      && t.minalign == Max(st.minalign, a)
      && |t.data| == |st.data| + Padding(|st.data| + len, a)
  {
    PadGrew(st, Padding(|st.data| + len, a), a);
  }

  lemma CreateStringWrites(st: State, s: seq<byte>)
    requires IsAlignment(st.minalign)
    ensures var t := CreateString(st, s);
      && Grew(st, t) && t.minalign == Max(st.minalign, 4) && StringAt(t.data, |t.data|, s)
      && |st.data| + |s| + 5 <= |t.data| < |st.data| + |s| + 9
  {
    hide Padding, Extends, At, Zeros, ToLE;
    var a := PreAlign(st, |s| + 1, 4);
    PreAlignGrew(st, |s| + 1, 4);
    var b := Pad(a, 1);
    PadGrew(a, 1, 1);
    var c := PushBytes(b, s);
    PushBytesGrew(b, s);
    var t := PushElement(c, 4, |s|);
    PushElementWrites(c, 4, |s|);
    PushElementAligned(c, 4, |s|);
    GrewTransitive(st, a, b);
    GrewTransitive(st, b, c);
    GrewTransitive(st, c, t);
    AtFront(s, b.data);
    AtStable(c.data, t.data, |c.data|, |s|);
    AtFront(Zeros(1), a.data);
    GrewTransitive(b, c, t);
    AtStable(b.data, t.data, |b.data|, 1);
  }

  // The offsets of a vector lie one after another, the first at the front.
  lemma {:induction false} PushOffsetsWrites(st: State, refs: seq<nat>)
    requires IsAlignment(st.minalign) && |st.data| % 4 == 0
    requires forall i :: 0 <= i < |refs| ==> 0 < refs[i] <= |st.data|
    ensures var t := PushOffsets(st, refs);
      && Grew(st, t)
      && |t.data| == |st.data| + 4 * |refs|
      && (st.minalign >= 4 ==> t.minalign == st.minalign)
      && forall i :: 0 <= i < |refs| ==> RefAt(t.data, |t.data| - 4 * i, refs[i])
  {
    hide Padding, Extends, RefAt, PushOffset, ReferTo;
    if refs == [] {
      assert Extends(st.data, st.data) by { ExtendsBy([], st.data); }
    } else {
      var rest := refs[1..];
      var r := PushOffsets(st, rest);
      PushOffsetsWrites(st, rest);
      var t := PushOffset(r, refs[0]);
      assert Padding(|r.data|, 4) == 0;
      PushOffsetWrites(r, refs[0]);
      GrewTransitive(st, r, t);
      forall i | 0 <= i < |refs| ensures RefAt(t.data, |t.data| - 4 * i, refs[i]) {
        if i > 0 {
          assert refs[i] == rest[i - 1];
          RefStable(r.data, t.data, |r.data| - 4 * (i - 1), rest[i - 1]);
        }
      }
    }
  }

  lemma EndVectorWrites(st: State, len: nat)
    requires IsAlignment(st.minalign) && |st.data| % 4 == 0 && st.nested
    ensures var t := EndVector(st, len);
      && Grew(st.(nested := false), t)
      && t.minalign == Max(st.minalign, 4)
      && |t.data| == |st.data| + 4
      && At(t.data, |t.data|, 4) == ToLE(4, len)
  {
    PushElementWrites(st.(nested := false), 4, len);
    PushElementAligned(st.(nested := false), 4, len);
  }

  // Aligning for the length first and for the elements second serves both.
  lemma TwoPaddings(x: nat, s: nat, p: nat)
    requires ScalarSize(s) && x % 4 == 0 && p < s && Aligned(x + p, s)
    ensures (x + p) % 4 == 0
  {
    if s == 2 {
      DivModUnique(x + p, 2, 2 * (x / 4), p);
    }
  }

  lemma LargerAlignment(m: nat, s: nat)
    requires ScalarSize(s) && IsAlignment(m) && s <= m
    ensures Aligned(m, s)
  {
  }

  lemma StartVectorWrites(st: State, len: nat, s: nat)
    requires IsAlignment(st.minalign) && ScalarSize(s)
    ensures var t := StartVector(st, len, s);
      && Grew(st.(nested := true), t)
      && Aligned(t.minalign, s) && t.minalign == Max(st.minalign, Max(4, s))
      && (|t.data| + len * s) % 4 == 0
      && Aligned(|t.data| + len * s, s)
      && |t.data| < |st.data| + Max(4, s)
  {
    hide Extends, Zeros, PreAlign, PaddingBytes;
    var n := st.(nested := true);
    var a := PreAlign(n, len * s, 4);
    PreAlignGrew(n, len * s, 4);
    var b := PreAlign(a, len * s, s);
    PreAlignGrew(a, len * s, s);
    GrewTransitive(n, a, b);
    LargerAlignment(b.minalign, s);
    TwoPaddings(|a.data| + len * s, s, Padding(|a.data| + len * s, s));
    SecondPadding(|a.data| + len * s, s);
  }

  // The second padding is needed for eight-byte elements only, and is four bytes.
  lemma SecondPadding(x: nat, s: nat)
    requires ScalarSize(s) && x % 4 == 0
    ensures Padding(x, s) == 0 || (s == 8 && Padding(x, s) <= 4)
  {
    if s == 8 {
      NextEight(x, x / 4);
      hide Padding;
      if Aligned(x, 8) {
        NoPadding(x, 8);
      } else {
        PaddingSmallest(x, 8, 4);
      }
    } else {
      if s == 2 {
        DivModUnique(x, 2, 2 * (x / 4), 0);
      }
      hide Padding;
      NoPadding(x, s);
    }
  }

  lemma NextEight(x: nat, q: nat)
    requires x == 4 * q
    ensures Aligned(x, 8) || Aligned(x + 4, 8)
  {
    if q % 2 == 0 {
      DivModUnique(x, 8, q / 2, 0);
    } else {
      DivModUnique(x + 4, 8, q / 2 + 1, 0);
    }
  }

  lemma CreateOffsetVectorWrites(st: State, refs: seq<nat>)
    requires IsAlignment(st.minalign) && !st.nested
    requires forall i :: 0 <= i < |refs| ==> 0 < refs[i] <= |st.data|
    ensures var t := CreateOffsetVector(st, refs);
      && Grew(st, t)
      && t.minalign == Max(st.minalign, 4)
      && |st.data| + 4 * |refs| + 4 <= |t.data| < |st.data| + 4 * |refs| + 8
      && RefsAt(t.data, |t.data|, refs)
  {
    hide Padding, Extends, At, ToLE, PushOffsets, PushElement, PreAlign, RefAt;
    var a := StartVector(st, |refs|, 4);
    StartVectorWrites(st, |refs|, 4);
    var b := PushOffsets(a, refs);
    PushOffsetsWrites(a, refs);
    var t := EndVector(b, |refs|);
    EndVectorWrites(b, |refs|);
    GrewTransitive(st, a.(nested := false), b.(nested := false));
    GrewTransitive(st, b.(nested := false), t);
    forall i | 0 <= i < |refs| ensures RefAt(t.data, |t.data| - 4 - 4 * i, refs[i]) {
      RefStable(b.data, t.data, |b.data| - 4 * i, refs[i]);
    }
  }

  lemma {:induction false} ScalarBytesAt(x: seq<byte>, s: nat, vals: seq<nat>, d: seq<byte>)
    requires x == ScalarBytes(s, vals) && ScalarSize(s)
    ensures |x| == s * |vals|
    ensures forall i :: 0 <= i < |vals| ==> ScalarAt(x + d, |x + d|, s, i, vals[i])
    decreases |vals|
  {
    hide At, ToLE, Extends;
    if vals == [] {
    } else {
      var y := ScalarBytes(s, vals[1..]);
      ScalarBytesAt(y, s, vals[1..], d);
      assert x + d == ToLE(s, vals[0]) + (y + d);
      AtFront(ToLE(s, vals[0]), y + d);
      forall i | 0 <= i < |vals| ensures ScalarAt(x + d, |x + d|, s, i, vals[i]) {
        if i > 0 {
          assert ScalarAt(y + d, |y + d|, s, i - 1, vals[1..][i - 1]);
          ExtendsBy(ToLE(s, vals[0]), y + d);
          AtStable(y + d, x + d, |y + d| - s * (i - 1), s);
        }
      }
    }
  }

  // Vector elements follow their length without padding, each aligned to its size.
  lemma CreateScalarVectorWrites(st: State, s: nat, vals: seq<nat>)
    requires IsAlignment(st.minalign) && !st.nested && ScalarSize(s)
    ensures var t := CreateScalarVector(st, s, vals);
      && Grew(st, t)
      && t.minalign == Max(st.minalign, Max(4, s))
      && |st.data| + s * |vals| + 4 <= |t.data| < |st.data| + s * |vals| + 4 + Max(4, s)
      && ScalarsAt(t.data, t.minalign, |t.data|, s, vals)
  {
    hide Padding, Extends, At, ToLE, PushElement, PreAlign;
    var a := StartVector(st, |vals|, s);
    StartVectorWrites(st, |vals|, s);
    var x := ScalarBytes(s, vals);
    ScalarBytesAt(x, s, vals, a.data);
    var b := PushBytes(a, x);
    PushBytesGrew(a, x);
    var t := EndVector(b, |vals|);
    EndVectorWrites(b, |vals|);
    GrewTransitive(st, a.(nested := false), b.(nested := false));
    GrewTransitive(st, b.(nested := false), t);
    DivisibleTransitive(s, a.minalign, t.minalign);
    forall i | 0 <= i < |vals| ensures ScalarAt(t.data, |t.data| - 4, s, i, vals[i]) {
      assert ScalarAt(b.data, |b.data|, s, i, vals[i]);
      AtStable(b.data, t.data, |b.data| - s * i, s);
    }
  }
}
