// Finishing a buffer: root offset, optional identifier, optional size prefix.
module Finishing {
  import opened Bits
  import opened Bytes
  import opened Alignment
  import opened BuilderSpec
  import opened Layout
  import opened Writing

  predicate CanFinish(st: State, root: nat, identifier: seq<byte>) {
    && IsAlignment(st.minalign) && st.minalign >= 4
    && 0 < root <= |st.data|
    && (|identifier| == 0 || |identifier| == 4)
  }

  // Before the root offset: padding and identifier.
  function Header(st: State, identifier: seq<byte>, sizePrefix: bool): State
    requires IsAlignment(st.minalign)
  {
    PushBytes(PreAlign(st.(vtables := []), (if sizePrefix then 4 else 0) + 4 + |identifier|, st.minalign), identifier)
  }

  lemma MultipleOfFour(n: nat, m: nat)
    requires IsAlignment(m) && m >= 4 && Aligned(n, m)
    ensures n % 4 == 0
  {
    if m == 8 {
      DivModUnique(n, 4, 2 * (n / 8), 0);
    } else if m == 16 {
      DivModUnique(n, 4, 4 * (n / 16), 0);
    }
  }

  lemma FourLess(n: nat, len: nat)
    requires (n + len) % 4 == 0 && (len == 0 || len == 4 || len == 8)
    ensures n % 4 == 0
  {
    DivModUnique(n, 4, (n + len) / 4 - len / 4, 0);
  }

  // The length of the buffer once the root offset and size prefix are written.
  function TotalSize(n: nat, sizePrefix: bool): nat {
    n + (if sizePrefix then 8 else 4)
  }

  lemma HeaderAligned(st: State, identifier: seq<byte>, sizePrefix: bool)
    requires IsAlignment(st.minalign) && st.minalign >= 4 && (|identifier| == 0 || |identifier| == 4)
    ensures var n := |Header(st, identifier, sizePrefix).data|;
      n % 4 == 0 && Aligned(TotalSize(n, sizePrefix), st.minalign)
  {
    var s := st.(vtables := []);
    var len := (if sizePrefix then 4 else 0) + 4 + |identifier|;
    var a := PreAlign(s, len, st.minalign);
    PreAlignGrew(s, len, st.minalign);
    hide Extends, Padding, Zeros, PreAlign;
    var n := |Header(st, identifier, sizePrefix).data|;
    assert TotalSize(n, sizePrefix) == |a.data| + len;
    MultipleOfFour(|a.data| + len, st.minalign);
    FourLess(n, len - |identifier|);
  }

  lemma HeaderWrites(st: State, identifier: seq<byte>, sizePrefix: bool)
    requires IsAlignment(st.minalign) && st.minalign >= 4
    ensures var t := Header(st, identifier, sizePrefix);
      && Grew(st.(vtables := []), t)
      && t.minalign == st.minalign
      && |identifier| <= |t.data|
      && At(t.data, |t.data|, |identifier|) == identifier
  {
    var s := st.(vtables := []);
    var len := (if sizePrefix then 4 else 0) + 4 + |identifier|;
    var a := PreAlign(s, len, st.minalign);
    var t := PushBytes(a, identifier);
    PreAlignGrew(s, len, st.minalign);
    PushBytesGrew(a, identifier);
    hide Extends, Padding, At, Zeros, Aligned;
    GrewTransitive(s, a, t);
    AtFront(identifier, a.data);
  }

  // Where the root offset is stored.
  function RootAt(sizePrefix: bool): nat {
    if sizePrefix then 4 else 0
  }

  // The header of a finished buffer: size prefix, root offset, identifier.
  ghost predicate Headed(d: seq<byte>, root: nat, identifier: seq<byte>, sizePrefix: bool) {
    var rootAt := |d| - RootAt(sizePrefix);
    && 8 <= |d| && |d| % 4 == 0
    && RefAt(d, rootAt, root)
    && (|identifier| == 0 || |identifier| == 4)
    && rootAt - 4 >= |identifier| && At(d, rootAt - 4, |identifier|) == identifier
    && (sizePrefix ==> At(d, |d|, 4) == ToLE(4, |d| - 4))
  }

  // What finishing guarantees of the bytes `d`, on top of `st`.
  ghost predicate Sealing(st: State, d: seq<byte>, root: nat, identifier: seq<byte>, sizePrefix: bool) {
    && Extends(st.data, d) && |st.data| + 4 <= |d|
    && IsAlignment(st.minalign) && Aligned(|d|, st.minalign)
    && Headed(d, root, identifier, sizePrefix)
  }

  lemma WithRoot(st: State, root: nat, identifier: seq<byte>, sizePrefix: bool)
    requires CanFinish(st, root, identifier)
    ensures var r := PushOffset(Header(st, identifier, sizePrefix), root);
      && Extends(st.data, r.data) && |st.data| + 4 <= |r.data|
      && r.minalign == st.minalign
      && Headed(r.data, root, identifier, false)
      && Aligned(if sizePrefix then |r.data| + 4 else |r.data|, st.minalign)
  {
    var h := Header(st, identifier, sizePrefix);
    HeaderWrites(st, identifier, sizePrefix);
    HeaderAligned(st, identifier, sizePrefix);
    RootWrites(h, st, root, identifier);
    hide Extends, Padding, At, RefAt, PushElement, PushOffset, Header, ToLE, Aligned, Headed;
    var r := PushOffset(h, root);
    PlainHeaded(r.data, root, identifier);
    assert TotalSize(|h.data|, sizePrefix) == if sizePrefix then |r.data| + 4 else |r.data|;
  }

  lemma WithPrefix(st: State, r: State, root: nat, identifier: seq<byte>)
    requires IsAlignment(st.minalign) && r.minalign == st.minalign >= 4
    requires Extends(st.data, r.data) && |st.data| + 4 <= |r.data|
    requires Headed(r.data, root, identifier, false) && Aligned(|r.data| + 4, st.minalign)
    ensures Sealing(st, PushElement(r, 4, |r.data|).data, root, identifier, true)
    ensures PushElement(r, 4, |r.data|).minalign == st.minalign
  {
    SizeWrites(r);
    hide Extends, At, RefAt, PushElement, ToLE, Aligned, Headed, Sealing, RootAt;
    PrefixSealing(st, r.data, PushElement(r, 4, |r.data|).data, root, identifier);
  }

  lemma PrefixSealing(st: State, d: seq<byte>, e: seq<byte>, root: nat, identifier: seq<byte>)
    requires IsAlignment(st.minalign) && Extends(st.data, d) && |st.data| + 4 <= |d|
    requires Headed(d, root, identifier, false) && Aligned(|d| + 4, st.minalign)
    requires Extends(d, e) && |e| == |d| + 4 && At(e, |e|, 4) == ToLE(4, |e| - 4)
    ensures Sealing(st, e, root, identifier, true)
  {
    hide Extends, At, RefAt, ToLE, Aligned, Headed, RootAt;
    PrefixHeaded(d, e, root, identifier);
    ExtendsTransitive(st.data, d, e);
  }

  // No more than the header and the least padding is added.
  lemma FinishIsTight(st: State, root: nat, identifier: seq<byte>, sizePrefix: bool)
    requires CanFinish(st, root, identifier)
    ensures |Finish(st, root, identifier, sizePrefix).data|
          < |st.data| + (if sizePrefix then 8 else 4) + |identifier| + st.minalign
  {
    var h := Header(st, identifier, sizePrefix);
    HeaderSize(st, identifier, sizePrefix);
    HeaderAligned(st, identifier, sizePrefix);
    var r := PushOffset(h, root);
    hide PushElement, PushOffset, Header, Padding, Grew, RefAt, Aligned;
    PushOffsetWrites(h, root);
    NoPadding(|h.data|, 4);
    assert |r.data| == |h.data| + 4;
    NextMultiple(|h.data|);
    if sizePrefix {
      SizeWrites(r);
    }
  }

  lemma HeaderSize(st: State, identifier: seq<byte>, sizePrefix: bool)
    requires IsAlignment(st.minalign)
    ensures var h := Header(st, identifier, sizePrefix);
      IsAlignment(h.minalign) && h.minalign == st.minalign && |st.data| <= |h.data| < |st.data| + |identifier| + st.minalign
  {
    hide Padding;
  }

  // Finishing pads so that the whole buffer is a multiple of the largest
  // alignment in it, whatever header it is given.
  lemma FinishWrites(st: State, root: nat, identifier: seq<byte>, sizePrefix: bool)
    requires CanFinish(st, root, identifier)
    ensures var t := Finish(st, root, identifier, sizePrefix);
      t.finished && t.minalign == st.minalign && Sealing(st, t.data, root, identifier, sizePrefix)
  {
    var r := PushOffset(Header(st, identifier, sizePrefix), root);
    WithRoot(st, root, identifier, sizePrefix);
    var t := Finish(st, root, identifier, sizePrefix);
    assert t == (if sizePrefix then PushElement(r, 4, |r.data|) else r).(finished := true);
    hide Extends, PushElement, PushOffset, Header, Finish, Aligned, Headed;
    if sizePrefix {
      WithPrefix(st, r, root, identifier);
    }
  }

  lemma PlainHeaded(d: seq<byte>, root: nat, identifier: seq<byte>)
    requires 8 <= |d| && |d| % 4 == 0 && RefAt(d, |d|, root)
    requires |identifier| == 0 || |identifier| == 4
    requires |identifier| <= |d| - 4 && At(d, |d| - 4, |identifier|) == identifier
    ensures Headed(d, root, identifier, false)
  {
  }

  lemma PrefixHeaded(d: seq<byte>, e: seq<byte>, root: nat, identifier: seq<byte>)
    requires Headed(d, root, identifier, false)
    requires Extends(d, e) && |e| == |d| + 4 && At(e, |e|, 4) == ToLE(4, |e| - 4)
    ensures Headed(e, root, identifier, true)
  {
    hide ToLE, RefAt;
    assert |d| - RootAt(false) == |d|;
    RefStable(d, e, |d|, root);
    AtStable(d, e, |d| - 4, |identifier|);
    NextMultiple(|d|);
    hide At, Extends;
    assert |e| - RootAt(true) == |d|;
  }

  lemma NextMultiple(n: nat)
    requires n % 4 == 0
    ensures (n + 4) % 4 == 0
  {
  }

  lemma RootWrites(h: State, st: State, root: nat, identifier: seq<byte>)
    requires Grew(st.(vtables := []), h) && h.minalign == st.minalign >= 4 && |h.data| % 4 == 0 && 0 < root <= |st.data|
    requires |identifier| <= |h.data| && At(h.data, |h.data|, |identifier|) == identifier
    ensures var r := PushOffset(h, root);
      && Extends(st.data, r.data) && IsAlignment(r.minalign)
      && r.minalign == h.minalign && |r.data| == |h.data| + 4 && |st.data| <= |h.data|
      && 8 <= |r.data| && |r.data| % 4 == 0
      && RefAt(r.data, |r.data|, root)
      && |identifier| <= |r.data| - 4 && At(r.data, |r.data| - 4, |identifier|) == identifier
  {
    PushOffsetWrites(h, root);
    NoPadding(|h.data|, 4);
    hide At, Extends, RefAt, Padding;
    var r := PushOffset(h, root);
    ExtendsTransitive(st.data, h.data, r.data);
    AtStable(h.data, r.data, |h.data|, |identifier|);
    NextMultiple(|h.data|);
    FourBelow(|h.data|);
    assert |r.data| - 4 == |h.data|;
  }

  lemma FourBelow(n: nat)
    requires n % 4 == 0 && 0 < n
    ensures 4 <= n
  {
  }

  lemma SizeWrites(r: State)
    requires IsAlignment(r.minalign) && r.minalign >= 4 && |r.data| % 4 == 0
    ensures var t := PushElement(r, 4, |r.data|);
      && Extends(r.data, t.data) && t.minalign == r.minalign && |t.data| == |r.data| + 4
      && At(t.data, |t.data|, 4) == ToLE(4, |t.data| - 4)
  {
    PushElementWrites(r, 4, |r.data|);
    NoPadding(|r.data|, 4);
  }
}
