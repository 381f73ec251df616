// Building one table: adding fields, writing the vtable, reusing an equal one.
module Tables {
  import opened Bits
  import opened Bytes
  import opened Alignment
  import opened BuilderSpec
  import opened Layout
  import opened Writing

  // A call a generated table builder makes between StartTable and EndTable.
  datatype Add =
    | AddScalar(id: nat, size: nat, value: nat, def: nat)
    | AddRef(id: nat, ref: nat)

  predicate AddOk(a: Add, limit: nat) {
    && FieldId(a.id)
    && match a
       case AddScalar(_, s, v, def) => ScalarSize(s) && v < Range(s)
       case AddRef(_, ref) => ref <= limit
  }

  // Null references, and defaults that are not forced, are not written.
  predicate Written(a: Add, forceDefaults: bool) {
    match a
    case AddScalar(_, _, v, def) => forceDefaults || v != def
    case AddRef(_, ref) => ref != 0
  }

  // A field may be written once.
  predicate AddsOk(adds: seq<Add>, limit: nat, forceDefaults: bool) {
    && (forall i :: 0 <= i < |adds| ==> AddOk(adds[i], limit))
    && (forall i, j :: 0 <= i < j < |adds| && Written(adds[i], forceDefaults) && Written(adds[j], forceDefaults) ==>
          adds[i].id != adds[j].id)
  }

  lemma AddOkMonotone(a: Add, m: nat, n: nat)
    requires AddOk(a, m) && m <= n
    ensures AddOk(a, n)
  {
  }

  function Apply(st: State, a: Add): (t: State)
    requires AddOk(a, |st.data|)
    ensures |st.data| <= |t.data| && t.forceDefaults == st.forceDefaults
  {
    match a
    case AddScalar(id, s, v, def) => AddElement(st, id, s, v, def)
    case AddRef(id, ref) => AddOffset(st, id, ref)
  }

  function AddAll(st: State, adds: seq<Add>): (t: State)
    requires forall i :: 0 <= i < |adds| ==> AddOk(adds[i], |st.data|)
    ensures |st.data| <= |t.data| && t.forceDefaults == st.forceDefaults
  {
    if adds == [] then st
    else
      var n := |adds| - 1;
      var before := AddAll(st, adds[..n]);
      assert AddOk(adds[n], |st.data|);
      AddOkMonotone(adds[n], |st.data|, |before.data|);
      Apply(before, adds[n])
  }

  // The fields a caller has given a value; null references are not stored, and
  // a default does not replace a value given before.
  function Fields(adds: seq<Add>): map<nat, FieldVal> {
    if adds == [] then map[]
    else
      var n := |adds| - 1;
      var rest := Fields(adds[..n]);
      match adds[n]
      case AddScalar(id, s, v, def) => if v == def && id in rest then rest else rest[id := FScalar(s, v, def)]
      case AddRef(id, ref) => if ref == 0 then rest else rest[id := FRef(ref)]
  }

  // Where field `f` was written, or zero.
  function FindLoc(locs: seq<FieldLoc>, f: nat): nat {
    if locs == [] then 0
    else if locs[|locs| - 1].id == f then locs[|locs| - 1].off
    else FindLoc(locs[..|locs| - 1], f)
  }

  ghost predicate LocHolds(d: seq<byte>, minalign: nat, off: nat, f: FieldVal) {
    match f
    case FScalar(s, v, def) =>
      && ScalarSize(s)
      && v < Range(s)
      && if off == 0 then v == def
         else s <= off <= |d| && Aligned(off, s) && Aligned(minalign, s) && At(d, off, s) == ToLE(s, v)
    case FRef(ref) => RefAt(d, off, ref)
  }

  ghost predicate GoodLocs(locs: seq<FieldLoc>, start: nat, size: nat, maxVoffset: nat) {
    && (forall l :: l in locs ==> FieldId(l.id) && start < l.off <= size && l.id <= maxVoffset)
    && (forall i, j :: 0 <= i < j < |locs| ==> locs[i].id != locs[j].id)
    && (maxVoffset == 0 || exists l :: l in locs && l.id == maxVoffset)
  }

  // The fields lie behind the place where the table started.
  ghost predicate Behind(locs: seq<FieldLoc>, start: nat, fields: map<nat, FieldVal>) {
    forall f :: f in fields && FindLoc(locs, f) != 0 ==> start + FieldSize(fields[f]) <= FindLoc(locs, f)
  }

  // The tracked locations hold exactly these fields.
  ghost predicate Located(d: seq<byte>, minalign: nat, locs: seq<FieldLoc>, fields: map<nat, FieldVal>) {
    && (forall l :: l in locs ==> l.id in fields)
    && (forall f :: f in fields ==> FieldId(f) && LocHolds(d, minalign, FindLoc(locs, f), fields[f]))
  }

  // The state between StartTable and EndTable.
  ghost predicate InTable(st: State, t: State, adds: seq<Add>) {
    && Grew(st, t.(locs := st.locs, maxVoffset := st.maxVoffset))
    && GoodLocs(t.locs, |st.data|, |t.data|, t.maxVoffset)
    && Located(t.data, t.minalign, t.locs, Fields(adds))
    && Behind(t.locs, |st.data|, Fields(adds))
  }

  lemma LocStable(d: seq<byte>, e: seq<byte>, m: nat, n: nat, off: nat, f: FieldVal)
    requires Extends(d, e) && LocHolds(d, m, off, f)
    requires IsAlignment(m) && IsAlignment(n) && m <= n
    ensures LocHolds(e, n, off, f)
  {
    match f
    case FScalar(s, v, def) =>
      if off != 0 {
        DivisibleTransitive(s, m, n);
        AtStable(d, e, off, s);
      }
    case FRef(ref) => RefStable(d, e, off, ref);
  }

  lemma {:induction false} FindLocIn(locs: seq<FieldLoc>, f: nat)
    ensures FindLoc(locs, f) != 0 ==> FieldLoc(FindLoc(locs, f), f) in locs
    ensures FindLoc(locs, f) == 0 && (forall l :: l in locs ==> l.off != 0) ==> forall l :: l in locs ==> l.id != f
  {
    if locs != [] {
      var n := |locs| - 1;
      FindLocIn(locs[..n], f);
      assert locs == locs[..n] + [locs[n]];
    }
  }

  lemma {:induction false} FieldsMembers(adds: seq<Add>, f: nat)
    ensures f in Fields(adds) ==> exists i :: 0 <= i < |adds| && adds[i].id == f
  {
    if adds != [] {
      var n := |adds| - 1;
      if f in Fields(adds[..n]) {
        FieldsMembers(adds[..n], f);
        var i :| 0 <= i < n && adds[..n][i].id == f;
        assert adds[i].id == f;
      } else if f in Fields(adds) {
        assert adds[n].id == f;
      }
    }
  }

  // Tracking one more field: `val` was just written at the front of `t`.
  lemma TrackKeeps(st: State, t: State, p: State, adds: seq<Add>, a: Add, val: FieldVal)
    requires IsAlignment(st.minalign) && InTable(st, t, adds) && Grew(t, p) && |t.data| < |p.data|
    requires FindLoc(t.locs, a.id) == 0 && FieldId(a.id)
    requires Fields(adds + [a]) == Fields(adds)[a.id := val]
    requires LocHolds(p.data, p.minalign, |p.data|, val) && |t.data| + FieldSize(val) <= |p.data|
    ensures InTable(st, TrackField(p, a.id, |p.data|), adds + [a])
  {
    hide LocHolds, Extends, Fields;
    var q := TrackField(p, a.id, |p.data|);
    BehindMore(t.locs, |st.data|, Fields(adds), FieldLoc(|p.data|, a.id), val);
    FindLocIn(t.locs, a.id);
    TrackedGood(t.locs, |st.data|, |t.data|, t.maxVoffset, FieldLoc(|p.data|, a.id));
    GrewTransitive(st, t.(locs := st.locs, maxVoffset := st.maxVoffset), q.(locs := st.locs, maxVoffset := st.maxVoffset));
    LocatedMore(t.data, p.data, t.minalign, p.minalign, t.locs, Fields(adds), FieldLoc(|p.data|, a.id), val);
    assert q.locs == t.locs + [FieldLoc(|p.data|, a.id)];
  }

  lemma BehindMore(locs: seq<FieldLoc>, start: nat, fields: map<nat, FieldVal>, l: FieldLoc, val: FieldVal)
    requires Behind(locs, start, fields) && start + FieldSize(val) <= l.off
    ensures Behind(locs + [l], start, fields[l.id := val])
  {
    assert (locs + [l])[..|locs|] == locs;
  }

  lemma TrackedGood(locs: seq<FieldLoc>, start: nat, size: nat, maxVoffset: nat, l: FieldLoc)
    requires GoodLocs(locs, start, size, maxVoffset) && FieldId(l.id) && start <= size < l.off
    requires forall k :: k in locs ==> k.id != l.id
    ensures GoodLocs(locs + [l], start, l.off, Max(maxVoffset, l.id))
  {
    if l.id > maxVoffset {
      assert l in locs + [l];
    } else {
      var k :| k in locs && k.id == maxVoffset;
      assert k in locs + [l];
    }
  }

  lemma LocatedMore(d: seq<byte>, e: seq<byte>, m: nat, n: nat, locs: seq<FieldLoc>,
                    fields: map<nat, FieldVal>, l: FieldLoc, val: FieldVal)
    requires Located(d, m, locs, fields) && Extends(d, e)
    requires IsAlignment(m) && IsAlignment(n) && m <= n
    requires FieldId(l.id) && LocHolds(e, n, l.off, val)
    ensures Located(e, n, locs + [l], fields[l.id := val])
  {
    hide LocHolds, Extends;
    var more := fields[l.id := val];
    assert (locs + [l])[..|locs|] == locs;
    forall f | f in more ensures FieldId(f) && LocHolds(e, n, FindLoc(locs + [l], f), more[f]) {
      if f != l.id {
        assert FindLoc(locs + [l], f) == FindLoc(locs, f);
        LocStable(d, e, m, n, FindLoc(locs, f), fields[f]);
      }
    }
  }

  // An omitted default is not tracked.
  lemma OmitKeeps(st: State, t: State, adds: seq<Add>, a: Add)
    requires InTable(st, t, adds) && AddOk(a, |t.data|)
    requires a.AddScalar? && a.value == a.def
    ensures InTable(st, t, adds + [a])
  {
    hide Extends;
    assert (adds + [a])[..|adds|] == adds;
    if a.id !in Fields(adds) {
      FindLocIn(t.locs, a.id);
      assert FindLoc(t.locs, a.id) == 0;
    }
  }

  lemma ApplyKeeps(st: State, t: State, adds: seq<Add>, a: Add)
    requires IsAlignment(st.minalign) && InTable(st, t, adds) && AddOk(a, |t.data|)
    requires Written(a, t.forceDefaults) ==> FindLoc(t.locs, a.id) == 0 && (a.AddScalar? && a.value == a.def ==> a.id !in Fields(adds))
    ensures InTable(st, Apply(t, a), adds + [a])
  {
    hide Extends, InTable, PushElement, Align;
    assert IsAlignment(t.minalign) by { assert InTable(st, t, adds); InTableAligned(st, t, adds); }
    assert (adds + [a])[..|adds|] == adds;
    match a
    case AddScalar(id, s, v, def) =>
      if v == def && !t.forceDefaults {
        OmitKeeps(st, t, adds, a);
      } else {
        var p := PushElement(t, s, v);
        PushElementWrites(t, s, v);
        TrackKeeps(st, t, p, adds, a, FScalar(s, v, def));
      }
    case AddRef(id, ref) =>
      if ref != 0 {
        var p := PushOffset(t, ref);
        PushOffsetWrites(t, ref);
        TrackKeeps(st, t, p, adds, a, FRef(ref));
      } else {
        assert Fields(adds + [a]) == Fields(adds);
        SameFieldsKeep(st, t, adds, a);
      }
  }

  lemma InTableAligned(st: State, t: State, adds: seq<Add>)
    requires InTable(st, t, adds)
    ensures IsAlignment(t.minalign)
  {
  }

  lemma SameFieldsKeep(st: State, t: State, adds: seq<Add>, a: Add)
    requires InTable(st, t, adds) && Fields(adds + [a]) == Fields(adds)
    ensures InTable(st, t, adds + [a])
  {
  }

  // Only fields that were written are tracked.
  lemma {:induction false} TrackedIsWritten(st: State, adds: seq<Add>, f: nat)
    requires st.locs == [] && forall i :: 0 <= i < |adds| ==> AddOk(adds[i], |st.data|)
    requires FindLoc(AddAll(st, adds).locs, f) != 0
    ensures exists i :: 0 <= i < |adds| && Written(adds[i], st.forceDefaults) && adds[i].id == f
  {
    hide PushElement, Align;
    if adds != [] {
      var n := |adds| - 1;
      var before := AddAll(st, adds[..n]);
      LocsAfter(before, adds[n], f);
      if FindLoc(before.locs, f) != 0 {
        TrackedIsWritten(st, adds[..n], f);
        var i :| 0 <= i < n && Written(adds[..n][i], st.forceDefaults) && adds[..n][i].id == f;
        assert adds[i] == adds[..n][i];
      } else {
        assert Written(adds[n], st.forceDefaults) && adds[n].id == f;
      }
    }
  }

  lemma LocsAfter(st: State, a: Add, f: nat)
    requires AddOk(a, |st.data|)
    ensures FindLoc(Apply(st, a).locs, f) != 0 && FindLoc(st.locs, f) == 0 ==> Written(a, st.forceDefaults) && a.id == f
  {
    hide Padding, ToLE;
    var l := FieldLoc(|Apply(st, a).data|, a.id);
    assert (st.locs + [l])[..|st.locs|] == st.locs;
  }

  // With forced defaults every scalar is written, so a field with a value is
  // one that was written.
  lemma {:induction false} FieldsWritten(adds: seq<Add>, f: nat)
    requires f in Fields(adds)
    ensures exists i :: 0 <= i < |adds| && Written(adds[i], true) && adds[i].id == f
  {
    var n := |adds| - 1;
    if f in Fields(adds[..n]) {
      FieldsWritten(adds[..n], f);
      var i :| 0 <= i < n && Written(adds[..n][i], true) && adds[..n][i].id == f;
      assert adds[i] == adds[..n][i];
    } else {
      assert Written(adds[n], true) && adds[n].id == f;
    }
  }

  lemma FirstWrite(st: State, adds: seq<Add>, a: Add)
    requires st.locs == [] && AddsOk(adds + [a], |st.data|, st.forceDefaults) && Written(a, st.forceDefaults)
    requires forall i :: 0 <= i < |adds| ==> AddOk(adds[i], |st.data|)
    ensures FindLoc(AddAll(st, adds).locs, a.id) == 0
    ensures a.AddScalar? && a.value == a.def ==> a.id !in Fields(adds)
  {
    hide AddAll, Fields, AddOk;
    var all := adds + [a];
    assert all[|adds|] == a && forall i :: 0 <= i < |adds| ==> all[i] == adds[i];
    if FindLoc(AddAll(st, adds).locs, a.id) != 0 {
      TrackedIsWritten(st, adds, a.id);
      assert false;
    }
    if a.AddScalar? && a.value == a.def && a.id in Fields(adds) {
      FieldsWritten(adds, a.id);
      assert false;
    }
  }

  lemma {:induction false} AddAllKeeps(st: State, adds: seq<Add>)
    requires IsAlignment(st.minalign) && st.locs == [] && st.maxVoffset == 0
    requires AddsOk(adds, |st.data|, st.forceDefaults)
    ensures InTable(st, AddAll(st, adds), adds)
  {
    hide InTable, Apply, Fields, FindLoc;
    if adds == [] {
      EmptyTable(st);
    } else {
      var n := |adds| - 1;
      var before := adds[..n];
      AddAllKeeps(st, before);
      assert before + [adds[n]] == adds;
      if Written(adds[n], st.forceDefaults) {
        FirstWrite(st, before, adds[n]);
      }
      ApplyKeeps(st, AddAll(st, before), before, adds[n]);
    }
  }

  lemma EmptyTable(st: State)
    requires IsAlignment(st.minalign) && st.locs == [] && st.maxVoffset == 0
    ensures InTable(st, st, [])
  {
  }

  // ------------------------------------------------------------- EndTable

  lemma WriteAtReads(vt: seq<byte>, i: nat, x: seq<byte>, f: nat)
    requires i + 2 <= |vt| && |x| == 2 && f + 2 <= |vt|
    ensures f == i ==> WriteAt(vt, i, x)[f..f + 2] == x
    ensures f + 2 <= i || i + 2 <= f ==> WriteAt(vt, i, x)[f..f + 2] == vt[f..f + 2]
  {
  }

  ghost predicate DistinctIds(locs: seq<FieldLoc>) {
    && (forall l :: l in locs ==> FieldId(l.id))
    && (forall i, j :: 0 <= i < j < |locs| ==> locs[i].id != locs[j].id)
  }

  lemma {:induction false} FindLocCons(locs: seq<FieldLoc>, f: nat)
    requires locs != [] && DistinctIds(locs) && forall l :: l in locs ==> l.off != 0
    ensures FindLoc(locs, f) == if locs[0].id == f then locs[0].off else FindLoc(locs[1..], f)
    ensures locs[0].id == f ==> FindLoc(locs[1..], f) == 0
  {
    if |locs| > 1 {
      var n := |locs| - 1;
      FindLocCons(locs[..n], f);
      assert locs[1..][..n - 1] == locs[..n][1..];
      assert locs[1..][n - 1] == locs[n];
    } else {
      assert locs[1..] == [];
    }
  }

  // Entry `f` of the vtable is the distance of the tracked field, and the
  // other bytes stay as they were.
  lemma {:induction false} WriteLocsReads(vt: seq<byte>, o: nat, locs: seq<FieldLoc>, f: nat)
    requires LocsFit(locs, |vt|, o) && DistinctIds(locs) && forall l :: l in locs ==> l.off != 0
    requires f + 2 <= |vt| && (f == 0 || f == 2 || FieldId(f))
    ensures FindLoc(locs, f) <= o
    ensures var loc := FindLoc(locs, f);
      WriteLocs(vt, o, locs)[f..f + 2] == if loc == 0 then vt[f..f + 2] else ToLE(2, o - loc)
    decreases |locs|
  {
    hide ToLE, WriteAt;
    if locs == [] {
    } else {
      var l := locs[0];
      var next := WriteAt(vt, l.id, ToLE(2, o - l.off));
      WriteAtReads(vt, l.id, ToLE(2, o - l.off), f);
      FindLocCons(locs, f);
      WriteLocsReads(next, o, locs[1..], f);
    }
  }

  lemma VTableHeaderRead(n: nat, size: nat, o: nat, locs: seq<FieldLoc>)
    requires 4 <= n < 0x1_0000 && LocsFit(locs, n, o) && DistinctIds(locs)
    requires forall l :: l in locs ==> 0 < l.off
    ensures var vt := VTableBytes(n, size, o, locs);
      FromLE(vt[..2]) == n && vt[2..4] == ToLE(2, size)
  {
    hide ToLE, WriteAt, LocsFit, FromLE;
    var a := WriteAt(Zeros(n), 2, ToLE(2, size));
    var b := WriteAt(a, 0, ToLE(2, n));
    var vt := VTableBytes(n, size, o, locs);
    RangeAt();
    NoHeaderLocs(locs);
    WriteLocsReads(b, o, locs, 0);
    WriteAtReads(a, 0, ToLE(2, n), 0);
    LEFits(2, n);
    assert vt[0..2] == vt[..2];
    WriteLocsReads(b, o, locs, 2);
    WriteAtReads(a, 0, ToLE(2, n), 2);
    WriteAtReads(Zeros(n), 2, ToLE(2, size), 2);
  }

  lemma VTableEntryRead(n: nat, size: nat, o: nat, locs: seq<FieldLoc>, f: nat)
    requires 4 <= n && LocsFit(locs, n, o) && DistinctIds(locs)
    requires forall l :: l in locs ==> 0 < l.off && o - l.off < 0x1_0000
    requires FieldId(f) && f + 2 <= n
    ensures FindLoc(locs, f) <= o
    ensures var vt := VTableBytes(n, size, o, locs);
      FromLE(vt[f..f + 2]) == if FindLoc(locs, f) == 0 then 0 else o - FindLoc(locs, f)
  {
    hide ToLE, WriteAt, LocsFit, FromLE;
    var a := WriteAt(Zeros(n), 2, ToLE(2, size));
    var b := WriteAt(a, 0, ToLE(2, n));
    RangeAt();
    WriteLocsReads(b, o, locs, f);
    if FindLoc(locs, f) != 0 {
      FindLocIn(locs, f);
      LEFits(2, o - FindLoc(locs, f));
    } else {
      WriteAtReads(a, 0, ToLE(2, n), f);
      WriteAtReads(Zeros(n), 2, ToLE(2, size), f);
      ZeroScalar(Zeros(n)[f..f + 2]);
    }
  }

  // Everything a reader looks up in a freshly built vtable.
  lemma VTableBytesRead(n: nat, size: nat, o: nat, locs: seq<FieldLoc>, f: nat)
    requires 4 <= n < 0x1_0000 && LocsFit(locs, n, o) && DistinctIds(locs)
    requires forall l :: l in locs ==> 0 < l.off && o - l.off < 0x1_0000
    requires FieldId(f)
    ensures FindLoc(locs, f) <= o
    ensures var vt := VTableBytes(n, size, o, locs);
      && FromLE(vt[..2]) == n
      && vt[2..4] == ToLE(2, size)
      && Entry(vt, f) == if FindLoc(locs, f) == 0 then 0 else o - FindLoc(locs, f)
  {
    hide ToLE, FromLE, VTableBytes, LocsFit;
    VTableHeaderRead(n, size, o, locs);
    if f + 2 <= n {
      VTableEntryRead(n, size, o, locs, f);
    } else {
      BeyondLocs(locs, n, o, f);
    }
  }

  lemma BeyondLocs(locs: seq<FieldLoc>, n: nat, o: nat, f: nat)
    requires LocsFit(locs, n, o) && f + 2 > n
    ensures FindLoc(locs, f) == 0
  {
    FindLocIn(locs, f);
  }

  lemma NoHeaderLocs(locs: seq<FieldLoc>)
    requires DistinctIds(locs)
    ensures FindLoc(locs, 0) == 0 && FindLoc(locs, 2) == 0
  {
    FindLocIn(locs, 0);
    FindLocIn(locs, 2);
  }

  lemma ZeroScalar(s: seq<byte>)
    requires |s| == 2 && s[0] == 0 && s[1] == 0
    ensures FromLE(s) == 0
  {
    var rest := s[1..];
    assert rest[1..] == [];
    assert FromLE(rest) == rest[0] + 256 * FromLE(rest[1..]);
  }

  lemma {:induction false} FindVTableFinds(d: seq<byte>, vtables: seq<nat>, vt: seq<byte>, none: nat)
    requires forall v :: v in vtables ==> VTableReadable(d, v)
    ensures var use := FindVTable(d, vtables, vt, none);
      || (use in vtables && SameVTable(d, use, vt))
      || (use == none && forall v :: v in vtables ==> !SameVTable(d, v, vt))
  {
    if vtables != [] {
      FindVTableFinds(d, vtables[1..], vt, none);
    }
  }

  ghost predicate LiveVTable(d: seq<byte>, v: nat) {
    VTableReadable(d, v) && VTableAt(d, v, At(d, v, FromLE(At(d, v, 2))))
  }

  ghost predicate LiveVTables(d: seq<byte>, vtables: seq<nat>) {
    forall v :: v in vtables ==> LiveVTable(d, v)
  }

  lemma LiveVTableStable(d: seq<byte>, e: seq<byte>, v: nat)
    requires Extends(d, e) && LiveVTable(d, v)
    ensures LiveVTable(e, v)
    ensures At(e, v, FromLE(At(e, v, 2))) == At(d, v, FromLE(At(d, v, 2)))
  {
    hide VTableAt, At;
    AtStable(d, e, v, 2);
    AtStable(d, e, v, FromLE(At(d, v, 2)));
    VTableStable(d, e, v, At(d, v, FromLE(At(d, v, 2))));
  }

  lemma LiveVTablesStable(d: seq<byte>, e: seq<byte>, vtables: seq<nat>)
    requires Extends(d, e) && LiveVTables(d, vtables)
    ensures LiveVTables(e, vtables)
  {
    hide LiveVTable, Extends;
    forall v | v in vtables ensures LiveVTable(e, v) {
      LiveVTableStable(d, e, v);
    }
  }

  lemma VTableIsLive(d: seq<byte>, v: nat, vt: seq<byte>)
    requires VTableAt(d, v, vt)
    ensures LiveVTable(d, v) && At(d, v, FromLE(At(d, v, 2))) == vt
  {
    assert At(d, v, 2) == At(d, v, |vt|)[..2];
  }

  ghost predicate Describes(vt: seq<byte>, o: nat, locs: seq<FieldLoc>) {
    forall f :: FieldId(f) ==>
      && FindLoc(locs, f) <= o
      && Entry(vt, f) == if FindLoc(locs, f) == 0 then 0 else o - FindLoc(locs, f)
  }

  // The vtable of a table that ends at offset `o`.
  lemma NewVTable(t: State, start: nat, o: nat)
    requires GoodLocs(t.locs, start, |t.data|, t.maxVoffset)
    requires start <= |t.data| < o < start + 0x1_0000
    ensures LocsFit(t.locs, VTableSize(t.maxVoffset), o)
    ensures var vt := VTableBytes(VTableSize(t.maxVoffset), o - start, o, t.locs);
      GoodVTable(vt, start, o, t.locs)
  {
    var n := VTableSize(t.maxVoffset);
    MaxIsLast(t.maxVoffset, t.locs, start, |t.data|);
    VTableSizeFits(t.maxVoffset);
    RangeAt();
    LEFits(2, o - start);
    hide VTableSize, VTableBytes, ToLE;
    assert LocsFit(t.locs, n, o);
    var vt := VTableBytes(n, o - start, o, t.locs);
    VTableBytesRead(n, o - start, o, t.locs, 4);
    forall f | FieldId(f)
      ensures FindLoc(t.locs, f) <= o
      ensures Entry(vt, f) == if FindLoc(t.locs, f) == 0 then 0 else o - FindLoc(t.locs, f)
    {
      VTableBytesRead(n, o - start, o, t.locs, f);
    }
    assert t.maxVoffset != 0 ==> Entry(vt, t.maxVoffset) == o - FindLoc(t.locs, t.maxVoffset);
  }

  // The largest field offset is that of a tracked field, and sets the size.
  lemma MaxIsLast(maxVoffset: nat, locs: seq<FieldLoc>, start: nat, size: nat)
    requires GoodLocs(locs, start, size, maxVoffset)
    ensures maxVoffset == 0 || (FieldId(maxVoffset) && 0 < FindLoc(locs, maxVoffset) <= size)
    ensures VTableSize(maxVoffset) == if maxVoffset == 0 then 4 else maxVoffset + 2
  {
    if maxVoffset != 0 {
      var l :| l in locs && l.id == maxVoffset;
      FindLocIn(locs, maxVoffset);
    }
  }

  lemma VTableSizeFits(maxVoffset: nat)
    requires maxVoffset == 0 || FieldId(maxVoffset)
    ensures var n := VTableSize(maxVoffset);
      4 <= n < 0x1_0000 && n % 2 == 0 && maxVoffset + 2 <= n
  {
  }

  lemma FieldFromLoc(d: seq<byte>, m: nat, o: nat, loc: nat, f: FieldVal)
    requires LocHolds(d, m, loc, f) && loc < o <= |d|
    ensures FieldAt(d, m, o, if loc == 0 then 0 else o - loc, f)
  {
  }

  // With its vtable in place, the table has exactly the fields that were added.
  lemma TableFromLocs(d: seq<byte>, e: seq<byte>, m: nat, locs: seq<FieldLoc>, fields: map<nat, FieldVal>,
                      start: nat, o: nat, v: nat, vt: seq<byte>)
    requires IsAlignment(m) && Located(e, m, locs, fields) && Behind(locs, start, fields)
    requires Extends(e, d) && |e| < o <= |d| && o % 4 == 0
    requires At(d, o, 4) == SOffset(v, o)
    requires VTableAt(d, v, vt) && GoodVTable(vt, start, o, locs)
    requires forall l :: l in locs ==> l.off < o
    ensures TableAt(d, Max(m, 4), o, fields, v, vt)
  {
    hide Extends, At, VTableAt, LocHolds, FieldAt, Entry, ToLE;
    var n := Max(m, 4);
    forall f | f in fields ensures FieldId(f) && FieldAt(d, n, o, Entry(vt, f), fields[f]) {
      var loc := FindLoc(locs, f);
      LocStable(e, d, m, n, loc, fields[f]);
      FindLocIn(locs, f);
      FieldFromLoc(d, n, o, loc, fields[f]);
    }
    forall f | FieldId(f) && f !in fields ensures Entry(vt, f) == 0 {
      FindLocIn(locs, f);
    }
  }

  ghost predicate TableFits(st: State, t: State) {
    |PushElement(t, 4, 0).data| < |st.data| + 0x1_0000
  }

  lemma CanEnd(st: State, t: State, adds: seq<Add>)
    requires InTable(st, t, adds) && LiveVTables(st.data, st.vtables) && TableFits(st, t)
    ensures CanEndTable(t, |st.data|)
  {
    hide LiveVTable, Extends;
    var p := PushElement(t, 4, 0);
    PushElementWrites(t, 4, 0);
    ExtendsTransitive(st.data, t.data, p.data);
    LiveVTablesStable(st.data, p.data, st.vtables);
    NewVTable(t, |st.data|, |p.data|);
    forall v | v in t.vtables ensures VTableReadable(p.data, v) {
      LiveReadable(p.data, v);
    }
  }

  lemma LiveReadable(d: seq<byte>, v: nat)
    requires LiveVTable(d, v)
    ensures VTableReadable(d, v)
  {
  }

  // Storing the vtable offset over the placeholder leaves everything below it alone.
  lemma PatchExtends(st: State, front: seq<byte>, soffset: seq<byte>)
    requires IsAlignment(st.minalign) && |soffset| == 4
    ensures var p := PushElement(st, 4, 0); var d := front + (soffset + p.data[4..]);
      && Extends(st.data, d) && |d| == |front| + |p.data|
      && At(d, |p.data|, 4) == soffset && At(d, |d|, |front|) == front
  {
    hide PaddingBytes, ToLE;
    var a := Align(st, 4);
    var p := PushElement(st, 4, 0);
    assert p.data[4..] == a.data;
    var x := front + (soffset + Zeros(Padding(|st.data|, 4)));
    assert front + (soffset + p.data[4..]) == x + st.data;
    ExtendsBy(x, st.data);
  }

  // The offset of the table that `EndTable` finishes.
  function TableOffset(t: State): nat {
    |PushElement(t, 4, 0).data|
  }

  // What `EndTable` leaves behind, whether it writes the vtable or reuses one.
  ghost predicate Ended(st: State, t: State, u: State, fields: map<nat, FieldVal>, v: nat, vt: seq<byte>) {
    && Grew(st, u.(vtables := st.vtables))
    && u.minalign >= 4
    && |st.data| + 4 <= TableOffset(t) <= |u.data|
    && TableAt(u.data, u.minalign, TableOffset(t), fields, v, vt)
    && v in u.vtables
    && LiveVTables(u.data, u.vtables)
    && (u.vtables == st.vtables || u.vtables == st.vtables + [v])
  }

  // `EndTable` patches the placeholder and puts `front` before it; nothing else changes.
  lemma EndShape(t: State, start: nat, vt: seq<byte>, use: nat)
    requires CanEndTable(t, start)
    requires vt == OwnVTable(t, start)
    requires use == UsedVTable(t, start)
    requires use == TableOffset(t) + |vt| || use < TableOffset(t)
    ensures var o := TableOffset(t); var front := if use == o + |vt| then vt else [];
      EndTable(t, start) == t.(
        data := front + (SOffset(use, o) + PushElement(t, 4, 0).data[4..]),
        minalign := Max(t.minalign, 4),
        vtables := if use == o + |vt| then t.vtables + [use] else t.vtables,
        locs := [], maxVoffset := 0, nested := false)
  {
    hide OwnVTable, UsedVTable, FindVTable, ToLE, Padding;
  }

  lemma EvenSum(o: nat, n: nat)
    requires o % 4 == 0 && n % 2 == 0
    ensures (o + n) % 2 == 0
  {
    DivModUnique(o + n, 2, 2 * (o / 4) + n / 2, 0);
  }

  lemma FrontVTable(d: seq<byte>, vt: seq<byte>, o: nat)
    requires |d| == |vt| + o && At(d, |d|, |vt|) == vt && o % 4 == 0
    requires 4 <= |vt| < 0x1_0000 && |vt| % 2 == 0 && FromLE(vt[..2]) == |vt|
    ensures VTableAt(d, o + |vt|, vt)
  {
    EvenSum(o, |vt|);
  }

  lemma InTableFacts(st: State, t: State, adds: seq<Add>)
    requires InTable(st, t, adds)
    ensures Extends(st.data, t.data) && |st.data| <= |t.data|
    ensures IsAlignment(t.minalign) && st.minalign <= t.minalign && IsAlignment(st.minalign)
    ensures forall l :: l in t.locs ==> l.off <= |t.data|
    ensures GoodLocs(t.locs, |st.data|, |t.data|, t.maxVoffset)
    ensures Located(t.data, t.minalign, t.locs, Fields(adds)) && Behind(t.locs, |st.data|, Fields(adds))
    ensures t == st.(data := t.data, minalign := t.minalign, locs := t.locs, maxVoffset := t.maxVoffset)
  {
    hide Extends, LocHolds, Fields;
  }

  // The vtable of a table from `start` to `o`: its own size, the table's size,
  // an entry for each field, and nothing behind the last field.
  ghost predicate GoodVTable(vt: seq<byte>, start: nat, o: nat, locs: seq<FieldLoc>) {
    && 4 <= |vt| < 0x1_0000 && |vt| % 2 == 0
    && FromLE(vt[..2]) == |vt|
    && start <= o && FromLE(vt[2..4]) == o - start
    && Describes(vt, o, locs)
    && Trimmed(vt)
  }

  lemma NewTableBytes(t: State, v: nat, vt: seq<byte>, d: seq<byte>)
    requires IsAlignment(t.minalign) && v == TableOffset(t) + |vt|
    requires 4 <= |vt| < 0x1_0000 && |vt| % 2 == 0 && FromLE(vt[..2]) == |vt|
    requires d == vt + (SOffset(v, TableOffset(t)) + PushElement(t, 4, 0).data[4..])
    ensures Extends(t.data, d) && |t.data| + 4 <= TableOffset(t) <= |d| && TableOffset(t) % 4 == 0
    ensures At(d, TableOffset(t), 4) == SOffset(v, TableOffset(t))
    ensures VTableAt(d, v, vt)
  {
    var p := PushElement(t, 4, 0);
    PushElementWrites(t, 4, 0);
    var x := SOffset(v, |p.data|);
    hide Extends, PushElement, SOffset, ToLE, At, VTableAt, FromLE;
    PatchExtends(t, vt, x);
    AtTail(d, vt, p.data, x, |p.data|);
    FrontVTable(d, vt, |p.data|);
  }

  lemma ReusedTableBytes(t: State, v: nat, d: seq<byte>)
    requires IsAlignment(t.minalign)
    requires d == SOffset(v, TableOffset(t)) + PushElement(t, 4, 0).data[4..]
    ensures Extends(t.data, d) && Extends(t.data, PushElement(t, 4, 0).data)
    ensures |t.data| + 4 <= TableOffset(t) <= |d| && TableOffset(t) % 4 == 0
    ensures At(d, TableOffset(t), 4) == SOffset(v, TableOffset(t))
  {
    var p := PushElement(t, 4, 0);
    PushElementWrites(t, 4, 0);
    var x := SOffset(v, |p.data|);
    hide Extends, PushElement, SOffset, ToLE, At;
    assert [] + (x + p.data[4..]) == d;
    PatchExtends(t, [], x);
    AtTail(d, [], p.data, x, |p.data|);
  }

  lemma ReusedVTableAt(d: seq<byte>, p: seq<byte>, e: seq<byte>, v: nat, vt: seq<byte>)
    requires Extends(d, p) && Extends(d, e) && LiveVTable(d, v)
    requires VTableReadable(p, v) && SameVTable(p, v, vt)
    ensures VTableAt(e, v, vt)
  {
    LiveVTableStable(d, p, v);
    LiveVTableStable(d, e, v);
  }

  lemma NewVTableFits(vt: seq<byte>, start: nat, o: nat, locs: seq<FieldLoc>)
    requires GoodVTable(vt, start, o, locs)
    ensures 4 <= |vt| < 0x1_0000 && |vt| % 2 == 0 && FromLE(vt[..2]) == |vt|
  {
    hide Trimmed;
  }

  // With the table linked to a vtable in place, all is as it should be.
  lemma EndLinked(st: State, t: State, adds: seq<Add>, o: nat, v: nat, vt: seq<byte>, u: State)
    requires InTable(st, t, adds) && LiveVTables(st.data, st.vtables) && GoodVTable(vt, |st.data|, o, t.locs)
    requires o == TableOffset(t) && |t.data| + 4 <= o <= |u.data| && o % 4 == 0
    requires Extends(t.data, u.data) && At(u.data, o, 4) == SOffset(v, o) && VTableAt(u.data, v, vt)
    requires u == st.(data := u.data, minalign := Max(t.minalign, 4), vtables := u.vtables)
    requires u.vtables == st.vtables + [v] || (u.vtables == st.vtables && v in st.vtables)
    ensures Ended(st, t, u, Fields(adds), v, vt)
  {
    hide Extends, TableAt, LiveVTable, InTable, Fields, TableOffset, VTableAt, SOffset, ToLE, At, GoodLocs, Located, Behind, GoodVTable;
    InTableFacts(st, t, adds);
    ExtendsTransitive(st.data, t.data, u.data);
    TableFromLocs(u.data, t.data, t.minalign, t.locs, Fields(adds), |st.data|, o, v, vt);
    VTableIsLive(u.data, v, vt);
    LiveVTablesStable(st.data, u.data, st.vtables);
  }

  // A new vtable goes in front of the table and is remembered.
  lemma EndWithNew(st: State, t: State, adds: seq<Add>, v: nat, vt: seq<byte>, u: State)
    requires InTable(st, t, adds) && LiveVTables(st.data, st.vtables) && GoodVTable(vt, |st.data|, TableOffset(t), t.locs)
    requires v == TableOffset(t) + |vt|
    requires u == st.(data := u.data, minalign := Max(t.minalign, 4), vtables := st.vtables + [v])
    requires u.data == vt + (SOffset(v, TableOffset(t)) + PushElement(t, 4, 0).data[4..])
    ensures Ended(st, t, u, Fields(adds), v, vt)
  {
    hide Extends, LiveVTables, InTable, Fields, TableOffset, VTableAt, SOffset, At, PushElement, GoodVTable, Ended;
    NewVTableFits(vt, |st.data|, TableOffset(t), t.locs);
    InTableFacts(st, t, adds);
    NewTableBytes(t, v, vt, u.data);
    EndLinked(st, t, adds, TableOffset(t), v, vt, u);
  }

  // A reused vtable stays where it is.
  lemma EndWithReused(st: State, t: State, adds: seq<Add>, v: nat, vt: seq<byte>, u: State)
    requires InTable(st, t, adds) && LiveVTables(st.data, st.vtables) && GoodVTable(vt, |st.data|, TableOffset(t), t.locs)
    requires v in st.vtables
    requires VTableReadable(PushElement(t, 4, 0).data, v) && SameVTable(PushElement(t, 4, 0).data, v, vt)
    requires u == st.(data := u.data, minalign := Max(t.minalign, 4))
    requires u.data == SOffset(v, TableOffset(t)) + PushElement(t, 4, 0).data[4..]
    ensures Ended(st, t, u, Fields(adds), v, vt)
  {
    hide Extends, LiveVTable, InTable, Fields, TableOffset, VTableAt, SOffset, At, PushElement, GoodVTable, Ended, SameVTable, VTableReadable,
      GoodLocs, Located, Behind;
    InTableFacts(st, t, adds);
    ReusedTableBytes(t, v, u.data);
    ExtendsTransitive(st.data, t.data, PushElement(t, 4, 0).data);
    ExtendsTransitive(st.data, t.data, u.data);
    ReusedVTableAt(st.data, PushElement(t, 4, 0).data, u.data, v, vt);
    EndLinked(st, t, adds, TableOffset(t), v, vt, u);
  }

  // No remembered vtable has these bytes.
  ghost predicate Novel(d: seq<byte>, vtables: seq<nat>, vt: seq<byte>) {
    forall v :: v in vtables && VTableReadable(d, v) ==> !SameVTable(d, v, vt)
  }

  // The vtable `EndTable` settles on: a new one, or with deduplication on an equal
  // one remembered before.
  ghost predicate Chosen(t: State, v: nat, vt: seq<byte>) {
    var d := PushElement(t, 4, 0).data;
    || (v == TableOffset(t) + |vt| && (t.dedup ==> Novel(d, t.vtables, vt)))
    || (t.dedup && v in t.vtables && v < TableOffset(t) && VTableReadable(d, v) && SameVTable(d, v, vt))
  }

  lemma ChooseVTable(t: State, vt: seq<byte>) returns (v: nat)
    requires forall v :: v in t.vtables ==> VTableReadable(PushElement(t, 4, 0).data, v) && v < TableOffset(t)
    ensures Chosen(t, v, vt)
    ensures v == if t.dedup then FindVTable(PushElement(t, 4, 0).data, t.vtables, vt, TableOffset(t) + |vt|) else TableOffset(t) + |vt|
  {
    hide PushElement, SameVTable, VTableReadable, FindVTable;
    var d := PushElement(t, 4, 0).data;
    FindVTableFinds(d, t.vtables, vt, TableOffset(t) + |vt|);
    v := if t.dedup then FindVTable(d, t.vtables, vt, TableOffset(t) + |vt|) else TableOffset(t) + |vt|;
  }

  lemma OwnVTableIsGood(st: State, t: State, adds: seq<Add>)
    requires InTable(st, t, adds) && TableFits(st, t) && CanEndTable(t, |st.data|)
    ensures GoodVTable(OwnVTable(t, |st.data|), |st.data|, TableOffset(t), t.locs)
  {
    InTableFacts(st, t, adds);
    TableOffsetGrows(t);
    NewVTable(t, |st.data|, TableOffset(t));
    hide VTableBytes, VTableSize, Describes, InTable, GoodLocs, Located, Extends, PushElement, FromLE;
    SmallModulo(TableOffset(t) - |st.data|);
  }

  lemma WrittenVTable(st: State, t: State, adds: seq<Add>) returns (v: nat, vt: seq<byte>)
    requires InTable(st, t, adds) && LiveVTables(st.data, st.vtables) && TableFits(st, t)
    ensures CanEndTable(t, |st.data|)
    ensures v == UsedVTable(t, |st.data|) && vt == OwnVTable(t, |st.data|)
    ensures GoodVTable(vt, |st.data|, TableOffset(t), t.locs) && Chosen(t, v, vt)
    ensures var o := TableOffset(t); var front := if v == o + |vt| then vt else [];
      EndTable(t, |st.data|) == t.(
        data := front + (SOffset(v, o) + PushElement(t, 4, 0).data[4..]),
        minalign := Max(t.minalign, 4),
        vtables := if v == o + |vt| then t.vtables + [v] else t.vtables,
        locs := [], maxVoffset := 0, nested := false)
  {
    hide OwnVTable, SOffset, GoodVTable, LiveVTable, SameVTable, EndTable, FindVTable, InTable, GoodLocs, Located, Behind, Extends, PushElement,
      VTableReadable, VTableSize, Fields;
    CanEnd(st, t, adds);
    InTableFacts(st, t, adds);
    TableOffsetGrows(t);
    LiveOffsets(st.data, st.vtables);
    OwnVTableIsGood(st, t, adds);
    vt := OwnVTable(t, |st.data|);
    v := ChooseVTable(t, vt);
    EndShape(t, |st.data|, vt, v);
  }

  lemma SmallModulo(n: nat)
    requires n < 0x1_0000
    ensures n % 0x1_0000 == n
  {
  }

  // Ending a table makes it readable with exactly the fields that were added,
  // keeps everything built before, and keeps every remembered vtable intact.
  // With deduplication on, a vtable is remembered only if no equal one was.
  lemma EndTableWrites(st: State, t: State, adds: seq<Add>) returns (v: nat, vt: seq<byte>)
    requires InTable(st, t, adds) && LiveVTables(st.data, st.vtables) && TableFits(st, t)
    requires st.locs == [] && st.maxVoffset == 0
    ensures CanEndTable(t, |st.data|)
    ensures v == UsedVTable(t, |st.data|) && vt == OwnVTable(t, |st.data|)
    ensures !EndTable(t, |st.data|).nested
    ensures Ended(st, t, EndTable(t, |st.data|).(nested := st.nested), Fields(adds), v, vt)
    ensures Chosen(t, v, vt)
  {
    v, vt := WrittenVTable(st, t, adds);
    InTableFacts(st, t, adds);
    hide PushElement, SOffset, ToLE, LiveVTable, SameVTable, EndTable, OwnVTable, UsedVTable, InTable, Ended, GoodLocs, Located, GoodVTable, CanEndTable, Extends;
    var u := EndTable(t, |st.data|).(nested := st.nested);
    if v == TableOffset(t) + |vt| {
      EndWithNew(st, t, adds, v, vt, u);
    } else {
      assert u.data == SOffset(v, TableOffset(t)) + PushElement(t, 4, 0).data[4..];
      EndWithReused(st, t, adds, v, vt, u);
    }
  }

  lemma TableOffsetGrows(t: State)
    requires IsAlignment(t.minalign)
    ensures |t.data| + 4 <= TableOffset(t)
  {
    PushElementWrites(t, 4, 0);
  }

  lemma LiveOffsets(d: seq<byte>, vtables: seq<nat>)
    requires LiveVTables(d, vtables)
    ensures forall v :: v in vtables ==> v <= |d|
  {
  }

  lemma AtTail(d: seq<byte>, front: seq<byte>, p: seq<byte>, x: seq<byte>, o: nat)
    requires o == |p| && |x| == 4 <= o && d == front + (x + p[4..])
    ensures |d| == |front| + o && At(d, o, 4) == x
  {
  }
}
