// The FlatBufferBuilder as a function on values.  The bytes written so far are
// a sequence with the lowest address first; new bytes go in front.  An
// "offset" is a distance from the end, so it stays valid while the buffer grows.
module BuilderSpec {
  import opened Bits
  import opened Bytes
  import opened Alignment

  // ---------------------------------------------------------------- offsets

  // The `n` bytes stored at offset `off`.
  function At(d: seq<byte>, off: nat, n: nat): (s: seq<byte>)
    requires n <= off <= |d|
    ensures |s| == n
  {
    d[|d| - off..][..n]
  }

  // `e` is `d` with more bytes in front.
  ghost predicate Extends(d: seq<byte>, e: seq<byte>) {
    |d| <= |e| && e[|e| - |d|..] == d
  }

  lemma ExtendsBy(x: seq<byte>, d: seq<byte>)
    ensures Extends(d, x + d)
  {
  }

  lemma ExtendsTransitive(d: seq<byte>, e: seq<byte>, f: seq<byte>)
    requires Extends(d, e) && Extends(e, f)
    ensures Extends(d, f)
  {
    assert f[|f| - |d|..] == f[|f| - |e|..][|e| - |d|..];
  }

  // What is stored at an offset never changes while the buffer grows.
  lemma AtStable(d: seq<byte>, e: seq<byte>, off: nat, n: nat)
    requires Extends(d, e) && n <= off <= |d|
    ensures At(e, off, n) == At(d, off, n)
  {
    assert d[|d| - off..] == e[|e| - off..];
  }

  lemma AtFront(x: seq<byte>, d: seq<byte>)
    ensures At(x + d, |x + d|, |x|) == x
  {
  }

  // ------------------------------------------------------------------ state

  datatype FieldLoc = FieldLoc(off: nat, id: nat)

  datatype State = State(
    data: seq<byte>,
    vtables: seq<nat>,
    locs: seq<FieldLoc>,
    maxVoffset: nat,
    nested: bool,
    finished: bool,
    minalign: nat,
    forceDefaults: bool,
    dedup: bool)

  const Initial: State := State([], [], [], 0, false, false, 1, false, true)

  predicate ScalarSize(s: nat) {
    s == 1 || s == 2 || s == 4 || s == 8
  }

  function Pad(st: State, n: nat): State {
    st.(data := Zeros(n) + st.data)
  }

  function Align(st: State, s: nat): State
    requires IsAlignment(s)
  {
    Pad(st.(minalign := Max(st.minalign, s)), Padding(|st.data|, s))
  }

  // Pads so that `len` bytes can follow and end on a multiple of `alignment`.
  function PreAlign(st: State, len: nat, alignment: nat): State
    requires IsAlignment(alignment)
  {
    Pad(st.(minalign := Max(st.minalign, alignment)), Padding(|st.data| + len, alignment))
  }

  function PushBytes(st: State, bytes: seq<byte>): State {
    st.(data := bytes + st.data)
  }

  function PushElement(st: State, s: nat, v: nat): State
    requires ScalarSize(s)
  {
    PushBytes(Align(st, s), ToLE(s, v))
  }

  // The distance from the next scalar to `off`, once the buffer is aligned.
  function ReferTo(st: State, off: nat): nat
    requires off <= |st.data|
  {
    |st.data| - off + 4
  }

  function PushOffset(st: State, off: nat): State
    requires off <= |st.data|
  {
    var a := Align(st, 4);
    PushElement(a, 4, ReferTo(a, off))
  }

  // ----------------------------------------------------------------- tables

  function TrackField(st: State, id: nat, off: nat): State {
    st.(locs := st.locs + [FieldLoc(off, id)], maxVoffset := Max(st.maxVoffset, id))
  }

  function AddElement(st: State, id: nat, s: nat, v: nat, def: nat): State
    requires ScalarSize(s)
  {
    if v == def && !st.forceDefaults then st
    else
      var p := PushElement(st, s, v);
      TrackField(p, id, |p.data|)
  }

  function AddOffset(st: State, id: nat, off: nat): State
    requires off <= |st.data|
  {
    if off == 0 then st
    else
      var a := Align(st, 4);
      AddElement(a, id, 4, ReferTo(a, off), 0)
  }

  function WriteAt(s: seq<byte>, i: nat, x: seq<byte>): (r: seq<byte>)
    requires i + |x| <= |s|
    ensures |r| == |s|
  {
    s[..i] + x + s[i + |x|..]
  }

  predicate LocsFit(locs: seq<FieldLoc>, n: nat, o: nat) {
    forall l :: l in locs ==> l.id + 2 <= n && l.off <= o
  }

  function WriteLocs(vt: seq<byte>, o: nat, locs: seq<FieldLoc>): (r: seq<byte>)
    requires LocsFit(locs, |vt|, o)
    ensures |r| == |vt|
    decreases |locs|
  {
    if locs == [] then vt
    else WriteLocs(WriteAt(vt, locs[0].id, ToLE(2, o - locs[0].off)), o, locs[1..])
  }

  function VTableSize(maxVoffset: nat): nat {
    Max((maxVoffset + 2) % 0x1_0000, 4)
  }

  // The vtable written for a table at offset `o` that occupies `size` bytes.
  function VTableBytes(n: nat, size: nat, o: nat, locs: seq<FieldLoc>): (r: seq<byte>)
    requires n >= 4 && LocsFit(locs, n, o)
    ensures |r| == n
  {
    WriteLocs(WriteAt(WriteAt(Zeros(n), 2, ToLE(2, size)), 0, ToLE(2, n)), o, locs)
  }

  // A remembered vtable can be compared when it lies inside the buffer.
  predicate VTableReadable(d: seq<byte>, v: nat) {
    2 <= v <= |d| && FromLE(At(d, v, 2)) <= v
  }

  predicate SameVTable(d: seq<byte>, v: nat, vt: seq<byte>)
    requires VTableReadable(d, v)
  {
    FromLE(At(d, v, 2)) == |vt| && At(d, v, |vt|) == vt
  }

  // The first remembered vtable equal to `vt`, or `none`.
  function FindVTable(d: seq<byte>, vtables: seq<nat>, vt: seq<byte>, none: nat): nat
    requires forall v :: v in vtables ==> VTableReadable(d, v)
  {
    if vtables == [] then none
    else if SameVTable(d, vtables[0], vt) then vtables[0]
    else FindVTable(d, vtables[1..], vt, none)
  }

  // The signed distance from a table to its vtable, as stored in the table.
  function SOffset(vtable: nat, table: nat): (s: seq<byte>)
    ensures |s| == 4
  {
    ToLE(4, Wrap(4, vtable - table))
  }

  predicate CanEndTable(st: State, start: nat) {
    var d1 := PushElement(st, 4, 0).data;
    && start <= |d1|
    && LocsFit(st.locs, VTableSize(st.maxVoffset), |d1|)
    && forall v :: v in st.vtables ==> VTableReadable(d1, v)
  }

  // The vtable of the table being ended.
  function OwnVTable(st: State, start: nat): seq<byte>
    requires CanEndTable(st, start)
  {
    var o := |PushElement(st, 4, 0).data|;
    VTableBytes(VTableSize(st.maxVoffset), (o - start) % 0x1_0000, o, st.locs)
  }

  // The offset of the vtable it will use: an equal one seen before, or its own.
  function UsedVTable(st: State, start: nat): nat
    requires CanEndTable(st, start)
  {
    var d := PushElement(st, 4, 0).data;
    var vt := OwnVTable(st, start);
    if st.dedup then FindVTable(d, st.vtables, vt, |d| + |vt|) else |d| + |vt|
  }

  function EndTable(st: State, start: nat): State
    requires CanEndTable(st, start)
  {
    var p := PushElement(st, 4, 0);
    var o := |p.data|;
    var vt := OwnVTable(st, start);
    var use := UsedVTable(st, start);
    var front := if use == o + |vt| then vt else [];
    var vtables := if use == |front| + o then st.vtables + [use] else st.vtables;
    p.(data := front + (SOffset(use, o) + p.data[4..]),
       vtables := vtables, locs := [], maxVoffset := 0, nested := false)
  }

  // ------------------------------------------------------ strings and vectors

  function CreateString(st: State, s: seq<byte>): State {
    PushElement(PushBytes(Pad(PreAlign(st, |s| + 1, 4), 1), s), 4, |s|)
  }

  function StartVector(st: State, len: nat, s: nat): State
    requires IsAlignment(s)
  {
    PreAlign(PreAlign(st.(nested := true), len * s, 4), len * s, s)
  }

  function EndVector(st: State, len: nat): State {
    PushElement(st.(nested := false), 4, len)
  }

  function ScalarBytes(s: nat, vals: seq<nat>): seq<byte> {
    if vals == [] then [] else ToLE(s, vals[0]) + ScalarBytes(s, vals[1..])
  }

  function CreateScalarVector(st: State, s: nat, vals: seq<nat>): State
    requires ScalarSize(s)
  {
    EndVector(PushBytes(StartVector(st, |vals|, s), ScalarBytes(s, vals)), |vals|)
  }

  // The elements are pushed last to first.
  function PushOffsets(st: State, refs: seq<nat>): (r: State)
    requires forall i :: 0 <= i < |refs| ==> refs[i] <= |st.data|
    ensures |st.data| <= |r.data|
  {
    if refs == [] then st else PushOffset(PushOffsets(st, refs[1..]), refs[0])
  }

  function CreateOffsetVector(st: State, refs: seq<nat>): State
    requires forall i :: 0 <= i < |refs| ==> refs[i] <= |st.data|
  {
    EndVector(PushOffsets(StartVector(st, |refs|, 4), refs), |refs|)
  }

  // ----------------------------------------------------------------- finish

  function Finish(st: State, root: nat, identifier: seq<byte>, sizePrefix: bool): State
    requires IsAlignment(st.minalign) && root <= |st.data|
  {
    var scratched := st.(vtables := []);
    var a := PreAlign(scratched, (if sizePrefix then 4 else 0) + 4 + |identifier|, st.minalign);
    var r := PushOffset(PushBytes(a, identifier), root);
    var p := if sizePrefix then PushElement(r, 4, |r.data|) else r;
    p.(finished := true)
  }
}
