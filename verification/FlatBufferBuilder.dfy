// The FlatBufferBuilder as an object over the two-ended buffer.  Vtable offsets
// and the locations of the current table's fields lie in the scratch area, as
// bytes.  Each method does what `BuilderSpec` says.
module FlatBufferBuilder {
  import opened Bits
  import opened Bytes
  import opened Alignment
  import V = VectorDownward
  import S = BuilderSpec
  import T = Tables
  import R = Runs

  // The scratch area: offsets of vtables, then field locations.
  function OffsetBytes(vtables: seq<nat>): (s: seq<byte>)
    ensures |s| == 4 * |vtables|
  {
    if vtables == [] then []
    else OffsetBytes(vtables[..|vtables| - 1]) + ToLE(4, vtables[|vtables| - 1])
  }

  // A field location is a 32-bit offset and a 16-bit field, padded to 8 bytes.
  function LocImage(l: S.FieldLoc): (s: seq<byte>)
    ensures |s| == 8
  {
    ToLE(4, l.off) + ToLE(2, l.id) + [0, 0]
  }

  function LocBytes(locs: seq<S.FieldLoc>): (s: seq<byte>)
    ensures |s| == 8 * |locs|
  {
    if locs == [] then [] else LocBytes(locs[..|locs| - 1]) + LocImage(locs[|locs| - 1])
  }

  lemma {:induction false} OffsetBytesAt(vtables: seq<nat>, i: nat)
    requires i < |vtables|
    ensures OffsetBytes(vtables)[4 * i..4 * i + 4] == ToLE(4, vtables[i])
  {
    var n := |vtables| - 1;
    if i < n {
      OffsetBytesAt(vtables[..n], i);
      assert OffsetBytes(vtables)[4 * i..4 * i + 4] == OffsetBytes(vtables[..n])[4 * i..4 * i + 4];
    }
  }

  lemma {:induction false} LocBytesAt(locs: seq<S.FieldLoc>, i: nat)
    requires i < |locs|
    ensures LocBytes(locs)[8 * i..8 * i + 8] == LocImage(locs[i])
  {
    var n := |locs| - 1;
    if i < n {
      LocBytesAt(locs[..n], i);
      assert LocBytes(locs)[8 * i..8 * i + 8] == LocBytes(locs[..n])[8 * i..8 * i + 8];
    }
  }

  lemma LocBytesPush(below: seq<byte>, locs: seq<S.FieldLoc>, l: S.FieldLoc)
    ensures below + LocBytes(locs) + LocImage(l) == below + LocBytes(locs + [l])
  {
    assert (locs + [l])[..|locs|] == locs;
  }

  // No step of a string shrinks the buffer.
  lemma CreateStringGrows(st: S.State, chars: seq<byte>)
    ensures var p := S.PreAlign(st, |chars| + 1, 4);
            var q := S.PushBytes(S.Pad(p, 1), chars);
      |st.data| <= |p.data| < |q.data| < |S.CreateString(st, chars).data|
      && |S.Pad(p, 1).data| == |p.data| + 1
  {
    hide Padding, ToLE;
  }

  lemma PreAlignGrows(st: S.State, len: nat, a: nat)
    requires IsAlignment(a)
    ensures |st.data| <= |S.PreAlign(st, len, a).data|
  {
    hide Padding;
  }

  lemma PushOffsetGrows(st: S.State, off: nat)
    requires off <= |st.data|
    ensures |st.data| <= |S.Align(st, 4).data| < |S.PushOffset(st, off).data|
  {
    hide Padding, ToLE;
  }

  lemma StartVectorNests(st: S.State, len: nat, size: nat)
    requires IsAlignment(size)
    ensures |st.data| <= |S.StartVector(st, len, size).data| && S.StartVector(st, len, size).nested
  {
    hide Padding;
  }

  lemma EndVectorGrows(st: S.State, len: nat)
    ensures |st.data| < |S.EndVector(st, len).data|
  {
    hide Padding, ToLE;
  }

  lemma {:induction false} OffsetsNest(st: S.State, refs: seq<nat>)
    requires st.nested && forall i :: 0 <= i < |refs| ==> refs[i] <= |st.data|
    ensures S.PushOffsets(st, refs).nested
  {
    hide Padding, ToLE;
    if refs != [] {
      OffsetsNest(st, refs[1..]);
    }
  }

  // Every intermediate buffer is within the final one.
  lemma {:induction false} OffsetsGrow(st: S.State, refs: seq<nat>, i: nat)
    requires i < |refs| && forall i :: 0 <= i < |refs| ==> refs[i] <= |st.data|
    ensures var before := S.PushOffsets(st, refs[i + 1..]);
      && |st.data| <= |before.data|
      && S.PushOffset(before, refs[i]) == S.PushOffsets(st, refs[i..])
      && |S.PushOffsets(st, refs[i..]).data| <= |S.PushOffsets(st, refs).data|
    decreases i
  {
    assert refs[i..][1..] == refs[i + 1..];
    if i == 0 {
      assert refs[0..] == refs;
    } else {
      hide S.PushOffset;
      OffsetsGrow(st, refs, i - 1);
      PushOffsetGrows(S.PushOffsets(st, refs[i..]), refs[i - 1]);
    }
  }

  lemma WriteAtPrefix(vt: seq<byte>, rest: seq<byte>, k: nat, x: seq<byte>)
    requires k + |x| <= |vt|
    ensures S.WriteAt(vt + rest, k, x) == S.WriteAt(vt, k, x) + rest
  {
  }

  lemma LocSlices(l: S.FieldLoc)
    ensures LocImage(l)[..4] == ToLE(4, l.off) && LocImage(l)[4..6] == ToLE(2, l.id)
  {
    hide ToLE;
  }

  lemma LocReads(l: S.FieldLoc)
    requires l.off < TWO_32 && l.id < 0x1_0000
    ensures FromLE(LocImage(l)[..4]) == l.off && FromLE(LocImage(l)[4..6]) == l.id
  {
    RangeAt();
    LEFits(4, l.off);
    LEFits(2, l.id);
    LocSlices(l);
  }

  lemma OffsetReads(v: nat)
    requires v < TWO_32
    ensures FromLE(ToLE(4, v)) == v
  {
    RangeAt();
    LEFits(4, v);
  }

  lemma ReadableBelow(d: seq<byte>, v: nat)
    requires S.VTableReadable(d, v)
    ensures v <= |d|
  {
  }

  // The vtable slot still reads as absent.
  predicate Unset(vt: seq<byte>, id: nat) {
    id + 2 <= |vt| && FromLE(vt[id..id + 2]) == 0
  }

  lemma FrontRead(vt: seq<byte>, rest: seq<byte>, id: nat)
    requires id + 2 <= |vt|
    ensures S.At(vt + rest, |vt + rest| - id, 2) == vt[id..id + 2]
  {
  }

  lemma UnsetElsewhere(vt: seq<byte>, id: nat, x: seq<byte>, other: nat)
    requires |x| == 2 && id + 2 <= |vt| && Unset(vt, other) && id % 2 == 0 && other % 2 == 0 && id != other
    ensures Unset(S.WriteAt(vt, id, x), other)
  {
    hide FromLE;
    var r := S.WriteAt(vt, id, x);
    if other < id {
      assert other + 2 <= id;
      assert r[..id] == vt[..id];
      assert r[other..other + 2] == r[..id][other..other + 2] && vt[other..other + 2] == vt[..id][other..other + 2];
    } else {
      WriteAtBeyond(vt, id, x, other);
      assert r[other..other + 2] == r[other..][..2] && vt[other..other + 2] == vt[other..][..2];
    }
  }

  lemma UnsetLater(vt: seq<byte>, locs: seq<S.FieldLoc>, k: nat, x: seq<byte>)
    requires T.DistinctIds(locs) && k < |locs| && |x| == 2
    requires forall j :: k <= j < |locs| ==> Unset(vt, locs[j].id)
    ensures locs[k].id + 2 <= |vt|
    ensures forall j :: k < j < |locs| ==> Unset(S.WriteAt(vt, locs[k].id, x), locs[j].id)
  {
    assert Unset(vt, locs[k].id) && locs[k] in locs;
    hide S.WriteAt, FromLE;
    forall j | k < j < |locs| ensures Unset(S.WriteAt(vt, locs[k].id, x), locs[j].id) {
      assert locs[j] in locs;
      UnsetElsewhere(vt, locs[k].id, x, locs[j].id);
    }
  }

  lemma WriteLocsNone(vt: seq<byte>, o: nat)
    ensures S.WriteLocs(vt, o, []) == vt
  {
  }

  lemma WriteAtBeyond(s: seq<byte>, i: nat, x: seq<byte>, j: nat)
    requires i + |x| <= j < |s|
    ensures S.WriteAt(s, i, x)[j..] == s[j..]
  {
  }

  // Before the positions are written, every slot is zero.
  lemma BlankUnset(n: nat, size: nat, locs: seq<S.FieldLoc>, o: nat)
    requires n >= 4 && S.LocsFit(locs, n, o) && T.DistinctIds(locs)
    ensures var vt := S.WriteAt(S.WriteAt(Zeros(n), 2, ToLE(2, size)), 0, ToLE(2, n));
      forall k :: 0 <= k < |locs| ==> Unset(vt, locs[k].id)
  {
    hide ToLE;
    var vt := S.WriteAt(S.WriteAt(Zeros(n), 2, ToLE(2, size)), 0, ToLE(2, n));
    forall k | 0 <= k < |locs| ensures Unset(vt, locs[k].id) {
      assert locs[k] in locs;
      var id := locs[k].id;
      WriteAtBeyond(Zeros(n), 2, ToLE(2, size), id);
      WriteAtBeyond(S.WriteAt(Zeros(n), 2, ToLE(2, size)), 0, ToLE(2, n), id);
      assert vt[id..][..2] == vt[id..id + 2] && Zeros(n)[id..][..2] == [0, 0];
      assert [0, 0][1..] == [0];
    }
  }

  // The stored position is the distance modulo 2^16.
  lemma WriteLocsStep(vt: seq<byte>, o: nat, locs: seq<S.FieldLoc>, k: nat, pos: nat)
    requires k < |locs| && S.LocsFit(locs, |vt|, o) && pos == (o - locs[k].off) % 0x1_0000
    ensures locs[k].id + 2 <= |vt|
    ensures S.WriteLocs(S.WriteAt(vt, locs[k].id, ToLE(2, pos)), o, locs[k + 1..]) == S.WriteLocs(vt, o, locs[k..])
  {
    ShortImage(o - locs[k].off);
    assert locs[k..][1..] == locs[k + 1..];
    hide S.WriteAt, ToLE;
  }

  lemma ShortImage(v: nat)
    ensures ToLE(2, v % 0x1_0000) == ToLE(2, v)
  {
    RangeAt();
    LETruncates(2, v);
    LEInverse(ToLE(2, v));
  }

  lemma PushElementKeeps(st: S.State, size: nat, v: nat)
    requires S.ScalarSize(size)
    ensures var p := S.PushElement(st, size, v);
      p == st.(data := p.data, minalign := p.minalign) && |p.data| >= size
  {
  }

  lemma OffsetBytesPush(vtables: seq<nat>, v: nat)
    ensures OffsetBytes(vtables) + LocBytes([]) + ToLE(4, v) == OffsetBytes(vtables + [v]) + LocBytes([])
  {
    assert (vtables + [v])[..|vtables|] == vtables;
  }

  lemma LinkInFront(front: seq<byte>, d: seq<byte>, x: seq<byte>)
    requires |x| <= |d|
    ensures S.WriteAt(front + d, |front + d| - |d|, x) == front + (x + d[|x|..])
  {
  }

  ghost function Remembered(st: S.State, use: nat): S.State {
    if use == |st.data| then st.(vtables := st.vtables + [use]) else st
  }

  // The state with the vtable `vt` in front of `d`, shared if possible, and the
  // table at `o` linked to it.
  ghost function Linked(st: S.State, o: nat, vt: seq<byte>, d: seq<byte>, none: nat): S.State
    requires 4 <= |d| && forall v :: v in st.vtables ==> S.VTableReadable(d, v)
  {
    var use := if st.dedup then S.FindVTable(d, st.vtables, vt, none) else none;
    var front := if use == none then vt else [];
    Remembered(st.(data := front + d), use).(data := front + (S.SOffset(use, o) + d[4..]))
  }

  lemma LinkedIs(st: S.State, o: nat, vt: seq<byte>, d: seq<byte>, none: nat, use: nat, front: seq<byte>)
    requires 4 <= |d| && forall v :: v in st.vtables ==> S.VTableReadable(d, v)
    requires use == if st.dedup then S.FindVTable(d, st.vtables, vt, none) else none
    requires front == if use == none then vt else []
    ensures Linked(st, o, vt, d, none)
         == Remembered(st.(data := front + d), use).(data := front + (S.SOffset(use, o) + d[4..]))
  {
  }

  lemma UsedVTableIs(st: S.State, start: nat, none: nat)
    requires S.CanEndTable(st, start)
    requires none == |S.PushElement(st, 4, 0).data| + |S.OwnVTable(st, start)|
    ensures S.UsedVTable(st, start)
         == if st.dedup then S.FindVTable(S.PushElement(st, 4, 0).data, st.vtables, S.OwnVTable(st, start), none) else none
  {
    hide S.PushElement, S.OwnVTable, S.FindVTable, S.LocsFit, S.VTableReadable;
  }

  lemma EndTableLinks(st: S.State, start: nat, none: nat)
    requires S.CanEndTable(st, start)
    requires none == |S.PushElement(st, 4, 0).data| + |S.OwnVTable(st, start)|
    ensures var p := S.PushElement(st, 4, 0);
            var vt := S.OwnVTable(st, start);
      && 4 <= |p.data|
      && S.EndTable(st, start)
         == Linked(p.(data := vt + p.data, locs := [], maxVoffset := 0), |p.data|, vt, p.data, none).(nested := false)
  {
    PushElementKeeps(st, 4, 0);
    var p := S.PushElement(st, 4, 0);
    var vt := S.OwnVTable(st, start);
    var use := S.UsedVTable(st, start);
    var front := if use == none then vt else [];
    UsedVTableIs(st, start, none);
    hide S.PushElement, S.OwnVTable, S.UsedVTable, S.FindVTable, S.SOffset, S.LocsFit, S.VTableReadable;
    LinkedIs(p.(data := vt + p.data, locs := [], maxVoffset := 0), |p.data|, vt, p.data, none, use, front);
    hide Linked, S.CanEndTable;
    assert |front + p.data| == |front| + |p.data|;
  }

  ghost function PushedRoot(st: S.State, root: nat, identifier: seq<byte>, len: nat): S.State
    requires IsAlignment(st.minalign) && root <= |st.data|
  {
    S.PushOffset(S.PushBytes(S.PreAlign(st, len, st.minalign), identifier), root)
  }

  lemma PushedRootGrows(st: S.State, root: nat, identifier: seq<byte>, len: nat)
    requires IsAlignment(st.minalign) && root <= |st.data|
    ensures var a := S.PreAlign(st, len, st.minalign);
            var b := S.PushBytes(a, identifier);
      |st.data| <= |a.data| <= |b.data| < |PushedRoot(st, root, identifier, len).data|
  {
    hide Padding, ToLE;
  }

  lemma FinishIs(st: S.State, root: nat, identifier: seq<byte>, sizePrefix: bool, len: nat)
    requires IsAlignment(st.minalign) && root <= |st.data|
    requires len == (if sizePrefix then 4 else 0) + 4 + |identifier|
    ensures var r := PushedRoot(st.(vtables := []), root, identifier, len);
            var p := if sizePrefix then S.PushElement(r, 4, |r.data|) else r;
      && S.Finish(st, root, identifier, sizePrefix) == p.(finished := true)
      && |r.data| <= |p.data|
  {
    hide Padding, ToLE, S.PushOffset;
  }

  ghost function Pooled(t: S.State, pool: seq<nat>, off: nat, amount: nat): (S.State, seq<nat>, nat)
    requires amount <= |t.data|
  {
    var hit := R.FindShared(t.data, pool, off);
    if hit != 0 then (t.(data := t.data[amount..]), pool, hit) else (t, pool + [off], off)
  }

  lemma SharedStringIs(st: S.State, pool: seq<nat>, chars: seq<byte>, off: nat, amount: nat)
    requires off == |S.CreateString(st, chars).data| && off == |st.data| + amount
    ensures R.CreateSharedString(st, pool, chars) == Pooled(S.CreateString(st, chars), pool, off, amount)
  {
    hide S.CreateString, R.FindShared;
  }

  // The set of shared strings, by offset.
  class StringPool {
    var offsets: seq<nat>

    constructor ()
      ensures offsets == []
    {
      offsets := [];
    }
  }

  class Builder {
    const buf: V.Vector
    var numFieldLoc: nat
    var maxVoffset: nat
    var nested: bool
    var finished: bool
    var minalign: nat
    var forceDefaults: bool
    var dedup: bool
    const stringPool: StringPool
    ghost var vtables: seq<nat>
    ghost var locs: seq<S.FieldLoc>

    ghost predicate Valid()
      reads this, buf, buf.buf
    {
      && buf.Valid() && numFieldLoc == |locs|
      && buf.Scratch() == OffsetBytes(vtables) + LocBytes(locs)
      && IsAlignment(minalign)
    }

    // The builder's state as a value.
    ghost function State(): S.State
      requires Valid()
      reads this, buf, buf.buf
    {
      S.State(buf.Data(), vtables, locs, maxVoffset, nested, finished, minalign, forceDefaults, dedup)
    }

    ghost function Repr(): set<object>
      reads buf
    {
      {this} + buf.Repr()
    }

    constructor (initialSize: nat, bufferMinalign: nat)
      requires PowerOfTwo(bufferMinalign)
      ensures Valid() && fresh(Repr()) && fresh(stringPool) && State() == S.Initial && stringPool.offsets == []
    {
      buf := new V.Vector(initialSize, bufferMinalign);
      numFieldLoc, maxVoffset, nested, finished, minalign := 0, 0, false, false, 1;
      forceDefaults, dedup := false, true;
      stringPool := new StringPool();
      vtables, locs := [], [];
    }

    method GetSize() returns (size: nat)
      requires Valid()
      ensures size == |State().data|
    {
      size := buf.Size();
    }

    method ForceDefaults(fd: bool)
      requires Valid()
      modifies `forceDefaults
      ensures Valid() && State() == old(State()).(forceDefaults := fd)
    {
      forceDefaults := fd;
    }

    method DedupVtables(on: bool)
      requires Valid()
      modifies `dedup
      ensures Valid() && State() == old(State()).(dedup := on)
    {
      dedup := on;
    }

    method SetNested(on: bool)
      requires Valid()
      modifies `nested
      ensures Valid() && State() == old(State()).(nested := on)
    {
      nested := on;
    }

    method SetFinished()
      requires Valid()
      modifies `finished
      ensures Valid() && State() == old(State()).(finished := true)
    {
      finished := true;
    }

    method Pad(numBytes: nat)
      requires Valid() && |State().data| < MAX_BUFFER_SIZE
      modifies buf.Repr()
      ensures Valid() && fresh(Repr() - old(Repr())) && State() == S.Pad(old(State()), numBytes)
    {
      buf.Fill(numBytes);
    }

    method TrackMinAlign(elemSize: nat)
      requires Valid() && IsAlignment(elemSize)
      modifies `minalign
      ensures Valid() && State() == old(State()).(minalign := Max(old(minalign), elemSize))
    {
      if elemSize > minalign {
        minalign := elemSize;
      }
    }

    method Align(elemSize: nat)
      requires Valid() && IsAlignment(elemSize) && |State().data| < MAX_BUFFER_SIZE
      modifies Repr()
      ensures Valid() && fresh(Repr() - old(Repr())) && State() == S.Align(old(State()), elemSize)
    {
      hide Padding, PowerOfTwo, OffsetBytes, LocBytes, IsAlignment, Zeros, S.Pad;
      var size := GetSize();
      var padding := Padding(size, elemSize);
      TrackMinAlign(elemSize);
      Pad(padding);
    }

    method PushBytes(bytes: seq<byte>)
      requires Valid() && |State().data| < MAX_BUFFER_SIZE
      modifies buf.Repr()
      ensures Valid() && fresh(Repr() - old(Repr())) && State() == S.PushBytes(old(State()), bytes)
    {
      buf.Push(bytes);
    }

    method PreAlign(len: nat, alignment: nat)
      requires Valid() && IsAlignment(alignment) && |State().data| < MAX_BUFFER_SIZE
      modifies Repr()
      ensures Valid() && fresh(Repr() - old(Repr())) && State() == S.PreAlign(old(State()), len, alignment)
    {
      hide Padding, PowerOfTwo, OffsetBytes, LocBytes, IsAlignment, Zeros, S.Pad;
      ghost var st := State();
      var size := GetSize();
      var padding := Padding(size + len, alignment);
      TrackMinAlign(alignment);
      ghost var tracked := State();
      assert tracked == st.(minalign := Max(st.minalign, alignment));
      Pad(padding);
      assert State() == S.Pad(tracked, padding);
    }

    method PushElement(size: nat, element: nat) returns (off: nat)
      requires Valid() && S.ScalarSize(size) && |S.PushElement(State(), size, element).data| <= MAX_BUFFER_SIZE
      modifies Repr()
      ensures Valid() && fresh(Repr() - old(Repr()))
      ensures State() == S.PushElement(old(State()), size, element) && off == |State().data|
    {
      hide Padding, PowerOfTwo, OffsetBytes, LocBytes;
      Align(size);
      PushBytes(ToLE(size, element));
      off := GetSize();
    }

    // Aligns, and returns the distance from the next offset to `off`.
    method ReferTo(off: nat) returns (distance: nat)
      requires Valid() && 0 < off <= |State().data| < MAX_BUFFER_SIZE
      modifies Repr()
      ensures Valid() && fresh(Repr() - old(Repr())) && State() == S.Align(old(State()), 4)
      ensures off <= |State().data| && distance == S.ReferTo(State(), off)
    {
      Align(4);
      var size := GetSize();
      distance := size - off + 4;
    }

    method PushOffset(off: nat) returns (at: nat)
      requires Valid() && 0 < off <= |State().data| && |S.PushOffset(State(), off).data| <= MAX_BUFFER_SIZE
      modifies Repr()
      ensures Valid() && fresh(Repr() - old(Repr()))
      ensures State() == S.PushOffset(old(State()), off) && at == |State().data|
    {
      hide Padding, PowerOfTwo, OffsetBytes, LocBytes, IsAlignment, Zeros, ToLE;
      var distance := ReferTo(off);
      at := PushElement(4, distance);
    }

    // ---------------------------------------------------------------- tables

    method TrackField(field: nat, off: nat)
      requires Valid() && |State().data| < MAX_BUFFER_SIZE
      modifies Repr()
      ensures Valid() && fresh(Repr() - old(Repr())) && State() == S.TrackField(old(State()), field, off)
    {
      hide PowerOfTwo, OffsetBytes, LocBytes, IsAlignment, LocImage;
      var l := S.FieldLoc(off, field);
      LocBytesPush(OffsetBytes(vtables), locs, l);
      buf.ScratchPush(LocImage(l));
      numFieldLoc := numFieldLoc + 1;
      maxVoffset := Max(maxVoffset, field);
      locs := locs + [l];
    }

    method AddElement(field: nat, size: nat, e: nat, def: nat)
      requires Valid() && S.ScalarSize(size) && |S.AddElement(State(), field, size, e, def).data| < MAX_BUFFER_SIZE
      modifies Repr()
      ensures Valid() && fresh(Repr() - old(Repr())) && State() == S.AddElement(old(State()), field, size, e, def)
    {
      hide Padding, PowerOfTwo, OffsetBytes, LocBytes, IsAlignment, Zeros, S.PushElement;
      if e == def && !forceDefaults {
        return;
      }
      var off := PushElement(size, e);
      TrackField(field, off);
    }

    method AddOffset(field: nat, off: nat)
      requires Valid() && off <= |State().data| && |S.AddOffset(State(), field, off).data| < MAX_BUFFER_SIZE
      modifies Repr()
      ensures Valid() && fresh(Repr() - old(Repr())) && State() == S.AddOffset(old(State()), field, off)
    {
      hide Padding, PowerOfTwo, OffsetBytes, LocBytes, IsAlignment, Zeros;
      if off == 0 {
        return;
      }
      PushOffsetGrows(State(), off);
      var distance := ReferTo(off);
      hide S.Align;
      AddElement(field, 4, distance, 0);
    }

    method StartTable() returns (start: nat)
      requires Valid() && !nested && numFieldLoc == 0
      modifies `nested
      ensures Valid() && State() == old(State()).(nested := true) && start == |State().data|
    {
      nested := true;
      start := GetSize();
    }

    // ---------------------------------------------------- strings and vectors

    method CreateString(chars: seq<byte>) returns (off: nat)
      requires Valid() && !nested && numFieldLoc == 0 && |S.CreateString(State(), chars).data| <= MAX_BUFFER_SIZE
      modifies Repr()
      ensures Valid() && fresh(Repr() - old(Repr()))
      ensures State() == S.CreateString(old(State()), chars) && off == |State().data|
    {
      hide Padding, PowerOfTwo, OffsetBytes, LocBytes, Zeros, S.PreAlign, S.Pad, S.PushBytes, S.PushElement;
      ghost var st := State();
      CreateStringGrows(st, chars);
      PreAlign(|chars| + 1, 4);
      Pad(1);
      PushBytes(chars);
      off := PushElement(4, |chars|);
    }

    method StartVector(len: nat, elemSize: nat)
      requires Valid() && !nested && numFieldLoc == 0 && IsAlignment(elemSize)
      requires |S.StartVector(State(), len, elemSize).data| < MAX_BUFFER_SIZE
      modifies Repr()
      ensures Valid() && fresh(Repr() - old(Repr())) && State() == S.StartVector(old(State()), len, elemSize)
    {
      hide Padding, PowerOfTwo, OffsetBytes, LocBytes, Zeros, S.PreAlign;
      nested := true;
      var bytes := len * elemSize;
      PreAlignGrows(State(), bytes, 4);
      PreAlignGrows(S.PreAlign(State(), bytes, 4), bytes, elemSize);
      PreAlign(bytes, 4);
      PreAlign(bytes, elemSize);
    }

    method EndVector(len: nat) returns (off: nat)
      requires Valid() && nested && |S.EndVector(State(), len).data| <= MAX_BUFFER_SIZE
      modifies Repr()
      ensures Valid() && fresh(Repr() - old(Repr()))
      ensures State() == S.EndVector(old(State()), len) && off == |State().data|
    {
      hide Padding, PowerOfTwo, OffsetBytes, LocBytes, IsAlignment, Zeros, S.PushElement;
      nested := false;
      off := PushElement(4, len);
    }

    // The elements' bytes, copied as they lie in memory.
    method CreateVector(size: nat, vals: seq<nat>) returns (off: nat)
      requires Valid() && !nested && numFieldLoc == 0 && S.ScalarSize(size)
      requires |S.CreateScalarVector(State(), size, vals).data| <= MAX_BUFFER_SIZE
      modifies Repr()
      ensures Valid() && fresh(Repr() - old(Repr()))
      ensures State() == S.CreateScalarVector(old(State()), size, vals) && off == |State().data|
    {
      hide Padding, PowerOfTwo, OffsetBytes, LocBytes, Zeros, S.ScalarBytes, S.StartVector;
      EndVectorGrows(S.PushBytes(S.StartVector(State(), |vals|, size), S.ScalarBytes(size, vals)), |vals|);
      StartVector(|vals|, size);
      PushBytes(S.ScalarBytes(size, vals));
      StartVectorNests(old(State()), |vals|, size);
      hide S.EndVector, S.PushBytes;
      off := EndVector(|vals|);
    }

    // Offsets are pushed last to first.
    method CreateVectorOfOffsets(refs: seq<nat>) returns (off: nat)
      requires Valid() && !nested && numFieldLoc == 0
      requires forall i :: 0 <= i < |refs| ==> 0 < refs[i] <= |State().data|
      requires |S.CreateOffsetVector(State(), refs).data| <= MAX_BUFFER_SIZE
      modifies Repr()
      ensures Valid() && fresh(Repr() - old(Repr()))
      ensures State() == S.CreateOffsetVector(old(State()), refs) && off == |State().data|
    {
      hide Padding, PowerOfTwo, OffsetBytes, LocBytes, Zeros, S.StartVector, S.EndVector, S.PushOffset;
      ghost var start := S.StartVector(State(), |refs|, 4);
      StartVectorNests(State(), |refs|, 4);
      EndVectorGrows(S.PushOffsets(start, refs), |refs|);
      StartVector(|refs|, 4);
      assert forall k :: 0 <= k < |refs| ==> refs[k] <= |start.data|;
      var i := |refs|;
      while i > 0
        invariant 0 <= i <= |refs| && Valid() && fresh(Repr() - old(Repr()))
        invariant State() == S.PushOffsets(start, refs[i..])
      {
        OffsetsGrow(start, refs, i - 1);
        assert refs[i - 1..][1..] == refs[i..];
        i := i - 1;
        var _ := PushOffset(refs[i]);
      }
      assert refs[0..] == refs;
      OffsetsNest(start, refs);
      off := EndVector(|refs|);
    }

    // ---------------------------------------------------------------- vtables

    // Overwrites bytes of the vtable `vt` in front of `rest`.
    method WriteInFront(k: nat, bytes: seq<byte>, ghost vt: seq<byte>, ghost rest: seq<byte>)
      requires Valid() && buf.Data() == vt + rest && k + |bytes| <= |vt|
      modifies buf.buf
      ensures Valid() && State() == old(State()).(data := S.WriteAt(vt, k, bytes) + rest)
    {
      hide PowerOfTwo, OffsetBytes, LocBytes, IsAlignment, S.WriteAt;
      WriteAtPrefix(vt, rest, k, bytes);
      var off := buf.Size() - k;
      assert |vt + rest| - off == k;
      buf.WriteAtOffset(off, bytes);
    }

    // Reads field location `k` back from the scratch area.
    method ReadLoc(k: nat, ghost o: nat, ghost n: nat) returns (off: nat, id: nat)
      requires Valid() && k < numFieldLoc && S.LocsFit(locs, n, o) && o < TWO_32 && n < 0x1_0000
      ensures off == locs[k].off && id == locs[k].id
    {
      hide PowerOfTwo, OffsetBytes, LocBytes, IsAlignment, LocImage, Bytes.FromLE, ToLE;
      assert locs[k] in locs;
      LocBytesAt(locs, k);
      var image := buf.ScratchAt(buf.scratch - 8 * numFieldLoc + 8 * k, 8);
      assert image == LocBytes(locs)[8 * k..8 * k + 8];
      LocReads(locs[k]);
      off := FromLE(image[..4]);
      id := FromLE(image[4..6]);
    }

    // Writes the position of field location `k`; its slot was not set before.
    method WritePosition(k: nat, o: nat, ghost vt: seq<byte>, ghost rest: seq<byte>) returns (ghost pos: nat)
      requires Valid() && buf.Data() == vt + rest && |vt| < 0x1_0000 && o < TWO_32
      requires S.LocsFit(locs, |vt|, o) && k < numFieldLoc && Unset(vt, locs[k].id)
      modifies buf.buf
      ensures pos == (o - locs[k].off) % 0x1_0000
      ensures Valid() && State() == old(State()).(data := S.WriteAt(vt, locs[k].id, ToLE(2, pos)) + rest)
    {
      hide PowerOfTwo, OffsetBytes, LocBytes, IsAlignment, ToLE, FromLE, S.WriteAt;
      var off, id := ReadLoc(k, o, |vt|);
      assert locs[k] in locs;
      var position := (o - off) % 0x1_0000;
      var before := buf.ReadAt(buf.Size() - id, 2);
      FrontRead(vt, rest, id);
      assert FromLE(before) == 0;
      WriteInFront(id, ToLE(2, position), vt, rest);
      pos := position;
    }

    // Writes the position of each tracked field into the vtable `blank` in front.
    method WritePositions(o: nat, ghost blank: seq<byte>, ghost rest: seq<byte>)
      requires Valid() && buf.Data() == blank + rest && |blank| < 0x1_0000 && o < TWO_32
      requires S.LocsFit(locs, |blank|, o) && T.DistinctIds(locs)
      requires forall k :: 0 <= k < |locs| ==> Unset(blank, locs[k].id)
      modifies buf.buf
      ensures Valid() && State() == old(State()).(data := S.WriteLocs(blank, o, locs) + rest)
    {
      hide PowerOfTwo, OffsetBytes, LocBytes, IsAlignment, ToLE, Unset, S.WriteAt, S.WriteLocs, T.DistinctIds;
      ghost var vt := blank;
      ghost var st := State();
      assert locs[0..] == locs;
      for k := 0 to numFieldLoc
        invariant Valid() && |vt| == |blank| && State() == st.(data := vt + rest)
        invariant S.WriteLocs(vt, o, locs[k..]) == S.WriteLocs(blank, o, locs)
        invariant forall j :: k <= j < |locs| ==> Unset(vt, locs[j].id)
      {
        ghost var pos := WritePosition(k, o, vt, rest);
        UnsetLater(vt, locs, k, ToLE(2, pos));
        WriteLocsStep(vt, o, locs, k, pos);
        vt := S.WriteAt(vt, locs[k].id, ToLE(2, pos));
      }
      WriteLocsNone(vt, o);
    }

    // Writes the vtable of the current table in front: sizes, then positions.
    method WriteVTable(n: nat, size: nat, o: nat)
      requires Valid() && |State().data| < MAX_BUFFER_SIZE
      requires 4 <= n < 0x1_0000 && o < TWO_32 && S.LocsFit(locs, n, o) && T.DistinctIds(locs)
      modifies buf.Repr()
      ensures Valid() && fresh(Repr() - old(Repr()))
      ensures State() == old(State()).(data := S.VTableBytes(n, size, o, locs) + old(buf.Data()))
    {
      hide PowerOfTwo, OffsetBytes, LocBytes, IsAlignment, ToLE, FromLE, Zeros, S.WriteAt, S.WriteLocs, T.DistinctIds, S.LocsFit;
      ghost var rest := buf.Data();
      ghost var vt0 := Zeros(n);
      Pad(n);
      WriteInFront(2, ToLE(2, size), vt0, rest);
      ghost var vt1 := S.WriteAt(vt0, 2, ToLE(2, size));
      WriteInFront(0, ToLE(2, n), vt1, rest);
      ghost var vt2 := S.WriteAt(vt1, 0, ToLE(2, n));
      BlankUnset(n, size, locs, o);
      WritePositions(o, vt2, rest);
    }

    method ClearOffsets()
      requires Valid()
      modifies this, buf
      ensures Valid() && Repr() == old(Repr()) && State() == old(State()).(locs := [], maxVoffset := 0)
    {
      hide PowerOfTwo, IsAlignment, LocImage;
      buf.ScratchPop(8 * numFieldLoc);
      numFieldLoc := 0;
      maxVoffset := 0;
      locs := [];
      assert OffsetBytes(vtables) + LocBytes([]) == OffsetBytes(vtables);
    }

    // Compares the vtable in front with remembered vtable `i`.
    method SameAsVTable(i: nat, ghost vt: seq<byte>, ghost d: seq<byte>) returns (same: bool, vtOffset: nat)
      requires Valid() && locs == [] && buf.Data() == vt + d && i < |vtables|
      requires |d| < TWO_32 && 2 <= |vt| && FromLE(vt[..2]) == |vt|
      requires S.VTableReadable(d, vtables[i])
      ensures vtOffset == vtables[i] && same == S.SameVTable(d, vtables[i], vt)
    {
      hide PowerOfTwo, IsAlignment, OffsetBytes, LocBytes, FromLE, ToLE;
      OffsetBytesAt(vtables, i);
      var image := buf.ScratchAt(4 * i, 4);
      assert image == ToLE(4, vtables[i]);
      OffsetReads(vtables[i]);
      vtOffset := FromLE(image);
      S.ExtendsBy(vt, d);
      S.AtStable(d, vt + d, vtOffset, 2);
      var size := buf.Size();
      var first := buf.ReadAt(size, 2);
      assert first == vt[..2];
      var second := buf.ReadAt(vtOffset, 2);
      var vt1Size, vt2Size := FromLE(first), FromLE(second);
      if vt1Size != vt2Size {
        return false, vtOffset;
      }
      S.AtStable(d, vt + d, vtOffset, vt1Size);
      var vt1 := buf.ReadAt(size, vt1Size);
      assert vt1 == vt;
      var vt2 := buf.ReadAt(vtOffset, vt1Size);
      same := vt1 == vt2;
    }

    // Looks for an equal vtable; if there is one the new one is dropped again.
    method ShareVTable(o: nat, ghost vt: seq<byte>, ghost d: seq<byte>, ghost none: nat) returns (vtUse: nat)
      requires Valid() && locs == [] && buf.Data() == vt + d && |d| == o < TWO_32
      requires 2 <= |vt| && FromLE(vt[..2]) == |vt| && none == o + |vt|
      requires forall v :: v in vtables ==> S.VTableReadable(d, v)
      modifies buf
      ensures Valid() && Repr() == old(Repr())
      ensures vtUse == if dedup then S.FindVTable(d, vtables, vt, none) else none
      ensures State() == old(State()).(data := (if vtUse == none then vt else []) + d)
    {
      hide PowerOfTwo, IsAlignment, OffsetBytes, LocBytes, FromLE, ToLE, S.SameVTable, S.VTableReadable;
      vtUse := buf.Size();
      if dedup {
        var count := buf.scratch / 4;
        assert vtables[0..] == vtables;
        for i := 0 to count
          invariant Valid() && Repr() == old(Repr()) && State() == old(State()) && count == |vtables|
          invariant S.FindVTable(d, vtables, vt, none) == S.FindVTable(d, vtables[i..], vt, none)
        {
          assert vtables[i] in vtables && vtables[i..][1..] == vtables[i + 1..];
          assert S.VTableReadable(d, vtables[i]);
          var same, vtOffset := SameAsVTable(i, vt, d);
          if same {
            vtUse := vtOffset;
            ReadableBelow(d, vtOffset);
            buf.Pop(buf.Size() - o);
            assert [] + d == d;
            return;
          }
        }
      }
    }

    method PushVTable(vtUse: nat)
      requires Valid() && locs == [] && |State().data| < MAX_BUFFER_SIZE
      modifies Repr()
      ensures Valid() && fresh(Repr() - old(Repr()))
      ensures State() == old(State()).(vtables := old(vtables) + [vtUse])
    {
      hide PowerOfTwo, IsAlignment, ToLE, LocBytes;
      OffsetBytesPush(vtables, vtUse);
      hide OffsetBytes;
      buf.ScratchPush(ToLE(4, vtUse));
      vtables := vtables + [vtUse];
    }

    // Remembers a vtable that lies in front of the data.
    method RememberVTable(vtUse: nat)
      requires Valid() && locs == [] && |State().data| < MAX_BUFFER_SIZE
      modifies Repr()
      ensures Valid() && fresh(Repr() - old(Repr()))
      ensures State() == Remembered(old(State()), vtUse)
    {
      hide PowerOfTwo, IsAlignment, OffsetBytes, LocBytes;
      if vtUse == buf.Size() {
        PushVTable(vtUse);
      }
    }

    // Fills in the offset from the table at `o` to its vtable.
    method LinkVTable(o: nat, vtUse: nat, ghost front: seq<byte>, ghost d: seq<byte>)
      requires Valid() && buf.Data() == front + d && |d| == o && 4 <= o
      modifies buf.buf
      ensures Valid() && State() == old(State()).(data := front + (S.SOffset(vtUse, o) + d[4..]))
    {
      hide PowerOfTwo, IsAlignment, OffsetBytes, LocBytes;
      LinkInFront(front, d, S.SOffset(vtUse, o));
      buf.WriteAtOffset(o, S.SOffset(vtUse, o));
    }

    method RememberAndLink(o: nat, vtUse: nat, ghost front: seq<byte>, ghost d: seq<byte>)
      requires Valid() && locs == [] && buf.Data() == front + d && 4 <= |d| == o && |front + d| < MAX_BUFFER_SIZE
      modifies Repr()
      ensures Valid() && fresh(Repr() - old(Repr()))
      ensures State() == Remembered(old(State()), vtUse).(data := front + (S.SOffset(vtUse, o) + d[4..]))
    {
      hide PowerOfTwo, IsAlignment, OffsetBytes, LocBytes, S.SOffset;
      RememberVTable(vtUse);
      LinkVTable(o, vtUse, front, d);
    }

    // Shares the vtable in front if possible, remembers it if it is new, and
    // links the table at `o` to the one in use.
    method UseVTable(o: nat, ghost vt: seq<byte>, ghost d: seq<byte>, ghost none: nat)
      requires Valid() && locs == [] && buf.Data() == vt + d && 4 <= |d| == o && |vt + d| < MAX_BUFFER_SIZE
      requires 2 <= |vt| && FromLE(vt[..2]) == |vt| && none == o + |vt|
      requires forall v :: v in vtables ==> S.VTableReadable(d, v)
      modifies Repr()
      ensures Valid() && fresh(Repr() - old(Repr()))
      ensures State() == Linked(old(State()), o, vt, d, none)
    {
      hide PowerOfTwo, IsAlignment, OffsetBytes, LocBytes, FromLE, S.VTableReadable, S.SOffset, S.FindVTable, Remembered;
      ghost var st := State();
      var vtUse := ShareVTable(o, vt, d, none);
      ghost var front := if vtUse == none then vt else [];
      LinkedIs(st, o, vt, d, none, vtUse, front);
      hide Linked;
      assert State() == st.(data := front + d);
      RememberAndLink(o, vtUse, front, d);
    }

    method BuildVTable(o: nat, start: nat)
      requires Valid() && |State().data| < MAX_BUFFER_SIZE && start <= o < TWO_32
      requires S.LocsFit(locs, S.VTableSize(maxVoffset), o) && T.DistinctIds(locs)
      modifies Repr()
      ensures Valid() && fresh(Repr() - old(Repr()))
      ensures State() == old(State()).(
        data := S.VTableBytes(S.VTableSize(old(maxVoffset)), (o - start) % 0x1_0000, o, old(locs)) + old(buf.Data()),
        locs := [], maxVoffset := 0)
    {
      hide PowerOfTwo, IsAlignment, OffsetBytes, LocBytes, S.VTableBytes, T.DistinctIds, S.LocsFit;
      maxVoffset := Max((maxVoffset + 2) % 0x1_0000, 4);
      var tableObjectSize := (o - start) % 0x1_0000;
      WriteVTable(maxVoffset, tableObjectSize, o);
      ClearOffsets();
    }

    // Writes the vtable of the table and links the two.
    method EndTable(start: nat) returns (o: nat)
      requires Valid() && nested && S.CanEndTable(State(), start)
      requires T.DistinctIds(locs) && forall l :: l in locs ==> 0 < l.off
      requires var size := |S.PushElement(State(), 4, 0).data|;
        size + S.VTableSize(maxVoffset) < MAX_BUFFER_SIZE && size - start < 0x1_0000
      modifies Repr()
      ensures Valid() && fresh(Repr() - old(Repr()))
      ensures State() == S.EndTable(old(State()), start) && o == old(|S.PushElement(State(), 4, 0).data|)
    {
      hide PowerOfTwo, IsAlignment, OffsetBytes, LocBytes, ToLE, FromLE, S.PushElement, S.VTableBytes, S.VTableReadable,
           T.DistinctIds, S.LocsFit, Linked;
      ghost var st := State();
      PushElementKeeps(st, 4, 0);
      ghost var vt := S.OwnVTable(st, start);
      ghost var none := |S.PushElement(st, 4, 0).data| + |vt|;
      EndTableLinks(st, start, none);
      o := PushElement(4, 0);
      ghost var d := buf.Data();
      T.VTableHeaderRead(S.VTableSize(st.maxVoffset), (o - start) % 0x1_0000, o, st.locs);
      BuildVTable(o, start);
      UseVTable(o, vt, d, none);
      SetNested(false);
    }

    // --------------------------------------------------------- shared strings

    method ReadStored(off: nat) returns (chars: seq<byte>)
      requires Valid()
      ensures chars == R.Stored(buf.Data(), off)
    {
      hide PowerOfTwo, IsAlignment, OffsetBytes, LocBytes, FromLE;
      chars := [];
      if 4 <= off <= buf.Size() {
        var image := buf.ReadAt(off, 4);
        var len := FromLE(image);
        if 4 + len <= off {
          chars := buf.ReadAt(off - 4, len);
        }
      }
    }

    // The pooled string equivalent to the one at `off`, or zero.
    method FindInPool(off: nat) returns (hit: nat)
      requires Valid()
      ensures hit == R.FindShared(buf.Data(), stringPool.offsets, off)
    {
      hide PowerOfTwo, IsAlignment, OffsetBytes, LocBytes, R.Stored, R.Equivalent;
      hit := 0;
      var pool := stringPool.offsets;
      assert pool[0..] == pool;
      for i := 0 to |pool|
        invariant R.FindShared(buf.Data(), pool, off) == R.FindShared(buf.Data(), pool[i..], off)
      {
        assert pool[i..][1..] == pool[i + 1..];
        var known := ReadStored(pool[i]);
        var chars := ReadStored(off);
        if R.Equivalent(known, chars) {
          return pool[i];
        }
      }
    }

    method PopBytes(amount: nat)
      requires Valid() && amount <= |State().data|
      modifies buf
      ensures Valid() && Repr() == old(Repr())
      ensures State() == old(State()).(data := old(buf.Data())[amount..])
    {
      hide PowerOfTwo, IsAlignment, OffsetBytes, LocBytes;
      buf.Pop(amount);
    }

    // Looks up the string in front; a known one is dropped, a new one pooled.
    method PoolString(off: nat, amount: nat) returns (used: nat)
      requires Valid() && amount <= |State().data|
      modifies buf, stringPool
      ensures Valid() && Repr() == old(Repr())
      ensures (State(), stringPool.offsets, used) == Pooled(old(State()), old(stringPool.offsets), off, amount)
    {
      hide PowerOfTwo, IsAlignment, OffsetBytes, LocBytes, R.FindShared;
      used := FindInPool(off);
      if used != 0 {
        PopBytes(amount);
      } else {
        stringPool.offsets := stringPool.offsets + [off];
        used := off;
      }
    }

    method CreateSharedString(chars: seq<byte>) returns (off: nat)
      requires Valid() && !nested && numFieldLoc == 0 && |S.CreateString(State(), chars).data| <= MAX_BUFFER_SIZE
      modifies Repr(), stringPool
      ensures Valid() && fresh(Repr() - old(Repr()))
      ensures (State(), stringPool.offsets, off) == R.CreateSharedString(old(State()), old(stringPool.offsets), chars)
    {
      hide PowerOfTwo, IsAlignment, OffsetBytes, LocBytes, S.CreateString, Pooled;
      ghost var st, pool := State(), stringPool.offsets;
      CreateStringGrows(st, chars);
      assert stringPool !in Repr();
      var sizeBeforeString := GetSize();
      off := CreateString(chars);
      var amount := off - sizeBeforeString;
      SharedStringIs(st, pool, chars, off, amount);
      hide R.CreateSharedString;
      assert stringPool.offsets == pool;
      off := PoolString(off, amount);
    }

    // ----------------------------------------------------------------- finish

    method ClearVTables()
      requires Valid() && locs == []
      modifies this, buf
      ensures Valid() && Repr() == old(Repr()) && State() == old(State()).(vtables := [])
    {
      hide PowerOfTwo, IsAlignment;
      buf.ClearScratch();
      vtables := [];
    }

    method PushSize()
      requires Valid() && |S.PushElement(State(), 4, |State().data|).data| <= MAX_BUFFER_SIZE
      modifies Repr()
      ensures Valid() && fresh(Repr() - old(Repr()))
      ensures State() == S.PushElement(old(State()), 4, |old(State()).data|)
    {
      hide PowerOfTwo, IsAlignment, OffsetBytes, LocBytes, S.PushElement;
      var size := GetSize();
      var _ := PushElement(4, size);
    }

    // Aligns everything, then the identifier and the root.
    method PushRoot(root: nat, fileIdentifier: seq<byte>, len: nat)
      requires Valid() && locs == [] && 0 < root <= |State().data|
      requires |PushedRoot(State(), root, fileIdentifier, len).data| <= MAX_BUFFER_SIZE
      modifies Repr()
      ensures Valid() && fresh(Repr() - old(Repr()))
      ensures State() == PushedRoot(old(State()), root, fileIdentifier, len)
    {
      hide Padding, PowerOfTwo, OffsetBytes, LocBytes, Zeros, S.PushOffset, ToLE, IsAlignment;
      PushedRootGrows(State(), root, fileIdentifier, len);
      hide S.PreAlign;
      PreAlign(len, minalign);
      PushBytes(fileIdentifier);
      hide S.PushBytes;
      var _ := PushOffset(root);
    }

    method Finish(root: nat, fileIdentifier: seq<byte>, sizePrefix: bool)
      requires Valid() && !nested && numFieldLoc == 0 && 0 < root <= |State().data|
      requires fileIdentifier == [] || |fileIdentifier| == 4
      requires |S.Finish(State(), root, fileIdentifier, sizePrefix).data| <= MAX_BUFFER_SIZE
      modifies Repr()
      ensures Valid() && fresh(Repr() - old(Repr()))
      ensures State() == S.Finish(old(State()), root, fileIdentifier, sizePrefix)
    {
      hide Padding, PowerOfTwo, OffsetBytes, LocBytes, Zeros, IsAlignment, PushedRoot, S.PushElement;
      var len := (if sizePrefix then 4 else 0) + 4 + |fileIdentifier|;
      FinishIs(State(), root, fileIdentifier, sizePrefix, len);
      hide S.Finish;
      ClearVTables();
      PushRoot(root, fileIdentifier, len);
      if sizePrefix {
        PushSize();
      }
      SetFinished();
    }
  }
}
