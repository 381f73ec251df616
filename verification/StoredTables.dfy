// What the vtable of a finished table says: the sizes in its header, which
// fields are stored, and whether it is shared.
module StoredTables {
  import opened Bits
  import opened Bytes
  import opened Alignment
  import opened BuilderSpec
  import opened Layout
  import opened Writing
  import opened Tables
  import opened Runs
  import opened RunInvariant

  // The table that a step makes.
  ghost function Made(w: World, adds: seq<Add>): (table: Obj)
    requires Inv(w) && CanStep(w, MakeTable(adds))
    ensures table.OTable?
  {
    TableCanEnd(w, adds);
    var t := AddAll(w.st, adds);
    OTable(Fields(adds), UsedVTable(t, |w.st.data|), OwnVTable(t, |w.st.data|))
  }

  lemma MadeIs(w: World, adds: seq<Add>)
    requires Inv(w) && CanStep(w, MakeTable(adds))
    ensures var t, o := AddAll(w.st, adds), Result(w, MakeTable(adds)); var x := Step(w, MakeTable(adds)); var table := Made(w, adds);
      && o == TableOffset(t) && o in x.objs && x.objs[o] == table
      && GoodVTable(table.vtable, |w.st.data|, o, t.locs)
      && Chosen(t, table.vtOff, table.vtable)
  {
    hide Extends, LiveVTable, AddAll, PushElement, TableAt, InTable, UsedVTable, OwnVTable, GoodVTable, Chosen, EndTable, ObjectsAt;
    InvFacts(w);
    TableCanEnd(w, adds);
    var v, vt := EndTableWrites(w.st, AddAll(w.st, adds), adds);
    OwnVTableIsGood(w.st, AddAll(w.st, adds), adds);
  }

  ghost function After(w: World, adds: seq<Add>): (x: World)
    requires Inv(w) && CanStep(w, MakeTable(adds))
    ensures Inv(x)
  {
    StepKeeps(w, MakeTable(adds));
    Step(w, MakeTable(adds))
  }

  // The header of the vtable has its own size and the size of the table; every
  // stored field ends within the table, and the vtable with the last of them.
  ghost predicate SizesStored(d: seq<byte>, table: Obj, size: nat)
    requires table.OTable?
  {
    var v, vt := table.vtOff, table.vtable;
    && 4 <= v <= |d|
    && FromLE(At(d, v, 2)) == |vt|
    && FromLE(At(d, v - 2, 2)) == size
    && (forall f :: f in table.fields && Entry(vt, f) != 0 ==> Entry(vt, f) + FieldSize(table.fields[f]) <= size)
    && (|vt| > 4 ==> Entry(vt, |vt| - 2) != 0)
  }

  lemma ObjectThere(w: World, o: nat)
    requires Inv(w) && o in w.objs && w.objs[o].OTable?
    ensures TableAt(w.st.data, w.st.minalign, o, w.objs[o].fields, w.objs[o].vtOff, w.objs[o].vtable)
  {
    assert ObjAt(w.st.data, w.st.minalign, o, w.objs[o]);
  }

  lemma SizesAt(d: seq<byte>, m: nat, start: nat, o: nat, table: Obj, locs: seq<FieldLoc>)
    requires table.OTable? && TableAt(d, m, o, table.fields, table.vtOff, table.vtable)
    requires GoodVTable(table.vtable, start, o, locs)
    ensures start <= o && SizesStored(d, table, o - start)
  {
    var v, vt := table.vtOff, table.vtable;
    assert At(d, v, |vt|)[..2] == At(d, v, 2) && At(d, v, |vt|)[2..4] == At(d, v - 2, 2);
    hide FieldAt, Describes, Entry, SOffset;
  }

  // After a table is made, and whatever is built later: the vtable it uses, its
  // own or one it shares, stores how far the table reaches from where it was
  // started.
  lemma TableSizeIsStored(w: World, adds: seq<Add>, ops: seq<Op>)
    requires Inv(w) && CanStep(w, MakeTable(adds)) && CanRun(After(w, adds), ops)
    ensures var o := Result(w, MakeTable(adds)); var x := Run(After(w, adds), ops);
      && o in x.objs && x.objs[o] == Made(w, adds) && o > |w.st.data|
      && SizesStored(x.st.data, x.objs[o], o - |w.st.data|)
  {
    var t, o, x := AddAll(w.st, adds), Result(w, MakeTable(adds)), Run(After(w, adds), ops);
    MadeIs(w, adds);
    RunPreserves(After(w, adds), ops);
    TableReaches(w, adds);
    hide Inv, CanStep, Step, CanRun, Run, AddAll, Made, Result, TableAt, GoodVTable, SizesStored, Chosen, Extends;
    ObjectThere(x, o);
    SizesAt(x.st.data, x.st.minalign, |w.st.data|, o, x.objs[o], t.locs);
  }

  lemma TableReaches(w: World, adds: seq<Add>)
    requires Inv(w) && CanStep(w, MakeTable(adds))
    ensures Result(w, MakeTable(adds)) > |w.st.data|
  {
    TableCanEnd(w, adds);
    InTableFacts(w.st, AddAll(w.st, adds), adds);
    TableOffsetGrows(AddAll(w.st, adds));
    hide Inv, CanStep, AddAll, TableOffset, InTable;
  }

  // ------------------------------------------------------ which fields are stored

  lemma {:induction false} WrittenIsTracked(st: State, adds: seq<Add>, i: nat)
    requires forall k :: 0 <= k < |adds| ==> AddOk(adds[k], |st.data|)
    requires i < |adds| && Written(adds[i], st.forceDefaults)
    ensures FindLoc(AddAll(st, adds).locs, adds[i].id) != 0
  {
    var n := |adds| - 1;
    var before := AddAll(st, adds[..n]);
    AddOkMonotone(adds[n], |st.data|, |before.data|);
    hide Apply, AddOk, FindLoc, Written;
    assert AddAll(st, adds) == Apply(before, adds[n]);
    hide AddAll;
    ApplyTracks(before, adds[n], adds[i].id);
    if i < n {
      WrittenIsTracked(st, adds[..n], i);
    }
  }

  lemma ApplyTracks(st: State, a: Add, f: nat)
    requires AddOk(a, |st.data|)
    ensures FindLoc(st.locs, f) != 0 ==> FindLoc(Apply(st, a).locs, f) != 0
    ensures Written(a, st.forceDefaults) ==> FindLoc(Apply(st, a).locs, a.id) != 0
  {
    hide Padding, ToLE;
    var l := FieldLoc(|Apply(st, a).data|, a.id);
    assert (st.locs + [l])[..|st.locs|] == st.locs;
  }

  // A field has a place in the table exactly when some call set it to something
  // other than its default or a null reference, or set it to a default while
  // defaults are forced.
  lemma StoredIff(w: World, adds: seq<Add>, f: nat)
    requires Inv(w) && CanStep(w, MakeTable(adds)) && FieldId(f)
    ensures Entry(Made(w, adds).vtable, f) != 0 <==>
      exists i :: 0 <= i < |adds| && adds[i].id == f &&
        (if adds[i].AddScalar? then w.st.forceDefaults || adds[i].value != adds[i].def else adds[i].ref != 0)
  {
    var t, o := AddAll(w.st, adds), Result(w, MakeTable(adds));
    MadeIs(w, adds);
    InvFacts(w);
    TableCanEnd(w, adds);
    InTableFacts(w.st, t, adds);
    TableOffsetGrows(t);
    hide Inv, AddAll, Made, InTable, Located, Extends, Chosen, TableOffset, LiveVTables;
    FindLocIn(t.locs, f);
    if FindLoc(t.locs, f) != 0 {
      TrackedIsWritten(w.st, adds, f);
    }
    forall i | 0 <= i < |adds| && adds[i].id == f && Written(adds[i], w.st.forceDefaults) ensures FindLoc(t.locs, f) != 0 {
      WrittenIsTracked(w.st, adds, i);
    }
  }

  // ------------------------------------------------------------ shared vtables

  // A table shares a remembered vtable exactly when deduplication is on and one
  // with the same bytes is remembered; otherwise it gets a new one in front of
  // everything, which is remembered.
  lemma SharesIff(w: World, adds: seq<Add>)
    requires Inv(w) && CanStep(w, MakeTable(adds))
    ensures var x, o, table := Step(w, MakeTable(adds)), Result(w, MakeTable(adds)), Made(w, adds);
      if w.st.dedup && exists v :: Remembers(w.st, v, table.vtable)
      then Remembers(w.st, table.vtOff, table.vtable) && x.st.vtables == w.st.vtables && |x.st.data| == o
      else table.vtOff == o + |table.vtable| == |x.st.data| && x.st.vtables == w.st.vtables + [table.vtOff]
  {
    InvFacts(w);
    TableCanEnd(w, adds);
    var t := AddAll(w.st, adds);
    InTableFacts(w.st, t, adds);
    var v, vt := WrittenVTable(w.st, t, adds);
    EndedShape(w, adds, t, v, vt);
    PushElementWrites(t, 4, 0);
    var d := PushElement(t, 4, 0).data;
    hide Inv, CanStep, AddAll, EndTable, PushElement, InTable, Located, Behind, GoodLocs, GoodVTable, Describes, LiveVTable, SameVTable,
      VTableReadable, UsedVTable, OwnVTable, Extends, Remembers, Step;
    ExtendsTransitive(w.st.data, t.data, d);
    forall u | u in w.st.vtables
      ensures VTableReadable(d, u) && (SameVTable(d, u, vt) <==> Remembers(w.st, u, vt))
    {
      SameRemembered(w.st, d, |w.st.data|, TableOffset(t), t.locs, u, vt);
    }
    if exists u :: Remembers(w.st, u, vt) {
      var u :| Remembers(w.st, u, vt);
      RemembersIn(w.st, u, vt);
    }
    if v in w.st.vtables && SameVTable(d, v, vt) {
      assert Remembers(w.st, v, vt);
    }
  }

  lemma RemembersIn(st: State, v: nat, vt: seq<byte>)
    requires Remembers(st, v, vt)
    ensures v in st.vtables
  {
  }

  lemma SameRemembered(st: State, d: seq<byte>, start: nat, o: nat, locs: seq<FieldLoc>, v: nat, vt: seq<byte>)
    requires v in st.vtables && LiveVTables(st.data, st.vtables) && Extends(st.data, d) && GoodVTable(vt, start, o, locs)
    ensures VTableReadable(d, v) && (SameVTable(d, v, vt) <==> Remembers(st, v, vt))
  {
    assert LiveVTable(st.data, v);
    hide Describes, Trimmed, VTableAt;
    AtStable(st.data, d, v, 2);
    if |vt| <= v {
      AtStable(st.data, d, v, |vt|);
      assert At(st.data, v, |vt|)[..2] == At(st.data, v, 2);
    }
  }

  // What the step leaves, by the vtable it settles on.
  lemma EndedShape(w: World, adds: seq<Add>, t: State, v: nat, vt: seq<byte>)
    requires Inv(w) && CanStep(w, MakeTable(adds)) && t == AddAll(w.st, adds)
    requires CanEndTable(t, |w.st.data|) && v == UsedVTable(t, |w.st.data|) && vt == OwnVTable(t, |w.st.data|)
    requires t.vtables == w.st.vtables && TableOffset(t) >= 4
    requires var o := TableOffset(t); var front := if v == o + |vt| then vt else [];
      EndTable(t, |w.st.data|) == t.(
        data := front + (SOffset(v, o) + PushElement(t, 4, 0).data[4..]),
        minalign := Max(t.minalign, 4),
        vtables := if v == o + |vt| then t.vtables + [v] else t.vtables,
        locs := [], maxVoffset := 0, nested := false)
    ensures var x, o, table := Step(w, MakeTable(adds)), Result(w, MakeTable(adds)), Made(w, adds);
      && o == TableOffset(t) && table.vtOff == v && table.vtable == vt
      && x.st.vtables == (if v == o + |vt| then w.st.vtables + [v] else w.st.vtables)
      && |x.st.data| == if v == o + |vt| then o + |vt| else o
  {
    hide Inv, AddAll, EndTable, PushElement, UsedVTable, OwnVTable, CanEndTable, SOffset;
  }

  ghost predicate Remembers(st: State, v: nat, vt: seq<byte>) {
    v in st.vtables && |vt| <= v <= |st.data| && At(st.data, v, |vt|) == vt
  }
}
