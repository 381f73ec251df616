// The builder object driven through whole tables, sorted vectors and runs: the
// methods can be called wherever the run is legal, and leave the state that the
// step of the run describes.
module BuilderRuns {
  import opened Bits
  import opened Bytes
  import opened Alignment
  import opened BuilderSpec
  import opened Writing
  import opened Tables
  import opened Runs
  import opened RunInvariant
  import opened Finishing
  import opened BuiltBuffers
  import opened SortedTables
  import opened FlatBufferBuilder
  import R = Reader

  // The object is in the state of the run, between constructions.
  ghost predicate At(b: Builder, w: World)
    reads b, b.buf, b.buf.buf, b.stringPool
  {
    b.Valid() && b.State() == w.st && b.stringPool.offsets == w.pool
  }

  // The limit on the buffer, the vtable that may be dropped again included.
  ghost predicate Below(w: World, op: Op)
    requires Inv(w) && CanStep(w, op)
  {
    && |Step(w, op).st.data| < MAX_BUFFER_SIZE
    && (op.MakeTable? ==>
          var t := AddAll(w.st, op.adds);
          TableOffset(t) + VTableSize(t.maxVoffset) < MAX_BUFFER_SIZE)
  }

  // ----------------------------------------------------------------- tables

  // Nesting is recorded, and makes no difference to what is written.
  lemma AlignNested(st: State, on: bool)
    ensures Align(st.(nested := on), 4) == Align(st, 4).(nested := on)
  {
    hide Padding;
  }

  lemma PushNested(st: State, size: nat, v: nat, on: bool)
    requires ScalarSize(size)
    ensures PushElement(st.(nested := on), size, v) == PushElement(st, size, v).(nested := on)
    ensures |st.data| <= |PushElement(st, size, v).data|
  {
    hide Padding, ToLE;
  }

  lemma AddElementNested(st: State, id: nat, size: nat, v: nat, def: nat, on: bool)
    requires ScalarSize(size)
    ensures AddElement(st.(nested := on), id, size, v, def) == AddElement(st, id, size, v, def).(nested := on)
  {
    PushNested(st, size, v, on);
    hide PushElement;
  }

  lemma AddOffsetNested(st: State, id: nat, off: nat, on: bool)
    requires off <= |st.data|
    ensures AddOffset(st.(nested := on), id, off) == AddOffset(st, id, off).(nested := on)
  {
    if off != 0 {
      var a := Align(st, 4);
      AlignNested(st, on);
      AddElementNested(a, id, 4, ReferTo(a, off), 0, on);
      hide Align, AddElement;
    }
  }

  lemma ApplyNested(st: State, a: Add, on: bool)
    requires AddOk(a, |st.data|)
    ensures Apply(st.(nested := on), a) == Apply(st, a).(nested := on)
  {
    hide AddElement, AddOffset;
    match a
    case AddScalar(id, size, v, def) => AddElementNested(st, id, size, v, def, on);
    case AddRef(id, ref) => AddOffsetNested(st, id, ref, on);
  }

  lemma {:induction false} AddAllNested(st: State, adds: seq<Add>, on: bool)
    requires forall i :: 0 <= i < |adds| ==> AddOk(adds[i], |st.data|)
    ensures AddAll(st.(nested := on), adds) == AddAll(st, adds).(nested := on)
  {
    hide Apply;
    if adds != [] {
      var n := |adds| - 1;
      AddAllNested(st, adds[..n], on);
      AddOkMonotone(adds[n], |st.data|, |AddAll(st, adds[..n]).data|);
      ApplyNested(AddAll(st, adds[..n]), adds[n], on);
    }
  }

  lemma OffsetNested(t: State, on: bool)
    ensures TableOffset(t.(nested := on)) == TableOffset(t) >= |t.data|
  {
    PushNested(t, 4, 0, on);
    hide PushElement;
  }

  lemma OwnNested(t: State, start: nat, on: bool)
    requires CanEndTable(t, start)
    ensures CanEndTable(t.(nested := on), start) && OwnVTable(t.(nested := on), start) == OwnVTable(t, start)
  {
    PushNested(t, 4, 0, on);
    hide PushElement, VTableBytes, VTableReadable, VTableSize, LocsFit;
  }

  lemma VTablesNested(t: State, start: nat, on: bool)
    requires CanEndTable(t, start)
    ensures CanEndTable(t.(nested := on), start)
    ensures OwnVTable(t.(nested := on), start) == OwnVTable(t, start)
    ensures UsedVTable(t.(nested := on), start) == UsedVTable(t, start)
  {
    OwnNested(t, start, on);
    PushNested(t, 4, 0, on);
    hide PushElement, OwnVTable, FindVTable, VTableReadable;
  }

  lemma EndTableNested(t: State, start: nat, on: bool)
    requires CanEndTable(t, start)
    ensures CanEndTable(t.(nested := on), start) && EndTable(t.(nested := on), start) == EndTable(t, start)
  {
    PushNested(t, 4, 0, on);
    VTablesNested(t, start, on);
    hide CanEndTable, PushElement, OwnVTable, UsedVTable, SOffset;
  }

  lemma {:induction false} AddAllGrows(st: State, adds: seq<Add>, i: nat)
    requires i < |adds| && forall i :: 0 <= i < |adds| ==> AddOk(adds[i], |st.data|)
    ensures AddOk(adds[i], |AddAll(st, adds[..i]).data|)
    ensures AddAll(st, adds[..i + 1]) == Apply(AddAll(st, adds[..i]), adds[i])
    ensures |AddAll(st, adds[..i + 1]).data| <= |AddAll(st, adds).data|
    decreases |adds| - i
  {
    hide Apply;
    assert adds[..i + 1][..i] == adds[..i];
    AddOkMonotone(adds[i], |st.data|, |AddAll(st, adds[..i]).data|);
    if i + 1 < |adds| {
      AddAllGrows(st, adds, i + 1);
    } else {
      assert adds[..i + 1] == adds;
    }
  }

  method Add1(b: Builder, a: Add)
    requires b.Valid() && AddOk(a, |b.State().data|) && |Apply(b.State(), a).data| < MAX_BUFFER_SIZE
    modifies b.Repr()
    ensures b.Valid() && fresh(b.Repr() - old(b.Repr())) && b.State() == Apply(old(b.State()), a)
  {
    match a
    case AddScalar(id, size, value, def) => b.AddElement(id, size, value, def);
    case AddRef(id, ref) => b.AddOffset(id, ref);
  }

  // What EndTable asks for.
  ghost predicate CanEndAt(t: State, start: nat) {
    && t.nested && CanEndTable(t, start) && |t.data| < MAX_BUFFER_SIZE
    && DistinctIds(t.locs) && (forall l :: l in t.locs ==> 0 < l.off)
    && TableOffset(t) + VTableSize(t.maxVoffset) < MAX_BUFFER_SIZE && TableOffset(t) - start < 0x1_0000
  }

  // It holds once the fields have been added.
  lemma TableReady(w: World, adds: seq<Add>)
    requires Inv(w) && CanStep(w, MakeTable(adds)) && Below(w, MakeTable(adds))
    ensures forall i :: 0 <= i < |adds| ==> AddOk(adds[i], |w.st.data|)
    ensures var start := |w.st.data|; var t := AddAll(w.st.(nested := true), adds);
      && CanEndAt(t, start)
      && EndTable(t, start) == Step(w, MakeTable(adds)).st && TableOffset(t) == Result(w, MakeTable(adds))
  {
    hide Inv, Below, Step, Result, AddAll, EndTable, CanEndTable, InTable, GoodLocs, VTableSize, TableOffset, CanEndAt, AddOk;
    var t := AddAll(w.st, adds);
    TableCanEnd(w, adds);
    InTableGood(w.st, t, adds);
    StepIsEndTable(w, adds);
    AddAllNested(w.st, adds, true);
    EndAtNested(t, |w.st.data|);
  }

  lemma EndAtNested(t: State, start: nat)
    requires CanEndTable(t, start) && GoodLocs(t.locs, start, |t.data|, t.maxVoffset)
    requires TableOffset(t) + VTableSize(t.maxVoffset) < MAX_BUFFER_SIZE && TableOffset(t) < start + 0x1_0000
    ensures var u := t.(nested := true);
      CanEndAt(u, start) && EndTable(u, start) == EndTable(t, start) && TableOffset(u) == TableOffset(t)
  {
    hide EndTable, CanEndTable, VTableSize, TableOffset, GoodLocs, DistinctIds;
    DistinctLocs(t.locs, start, |t.data|, t.maxVoffset);
    EndTableNested(t, start, true);
    OffsetNested(t, true);
  }

  lemma InTableGood(st: State, t: State, adds: seq<Add>)
    requires InTable(st, t, adds)
    ensures GoodLocs(t.locs, |st.data|, |t.data|, t.maxVoffset)
  {
    hide Located, Behind, Grew;
  }

  lemma StepIsEndTable(w: World, adds: seq<Add>)
    requires Inv(w) && CanStep(w, MakeTable(adds)) && Below(w, MakeTable(adds))
    ensures var t := AddAll(w.st, adds);
      && CanEndTable(t, |w.st.data|) && EndTable(t, |w.st.data|) == Step(w, MakeTable(adds)).st
      && TableOffset(t) == Result(w, MakeTable(adds))
      && TableOffset(t) + VTableSize(t.maxVoffset) < MAX_BUFFER_SIZE && TableOffset(t) < |w.st.data| + 0x1_0000
  {
    hide Inv, AddAll, EndTable, CanEndTable, VTableSize, PushElement, InTable, OwnVTable, UsedVTable, Fields, AddsOk, AddsKnown,
      CreateString, CreateSharedString, CreateOffsetVector, CreateScalarVector;
    TableCanEnd(w, adds);
  }

  lemma DistinctLocs(locs: seq<FieldLoc>, start: nat, size: nat, maxVoffset: nat)
    requires GoodLocs(locs, start, size, maxVoffset)
    ensures DistinctIds(locs) && forall l :: l in locs ==> 0 < l.off
  {
  }

  lemma IdleFacts(w: World)
    requires Inv(w)
    ensures !w.st.nested && w.st.locs == []
  {
    hide LiveVTables, ObjectsAt;
  }

  // A generated Create function: start the table, add the fields, end the table.
  method CreateTable(b: Builder, adds: seq<Add>, ghost w: World) returns (o: nat)
    requires At(b, w) && Inv(w) && CanStep(w, MakeTable(adds)) && Below(w, MakeTable(adds))
    modifies b.Repr()
    ensures fresh(b.Repr() - old(b.Repr()))
    ensures At(b, Step(w, MakeTable(adds))) && o == Result(w, MakeTable(adds))
  {
    hide Inv, CanStep, Below, Result, AddAll, EndTable, CanEndAt, TableOffset, PowerOfTwo, AddOk;
    TableReady(w, adds);
    IdleFacts(w);
    StepKeepsPool(w, adds);
    hide Step;
    o := BuildTable(b, adds);
  }

  lemma StepKeepsPool(w: World, adds: seq<Add>)
    requires Inv(w) && CanStep(w, MakeTable(adds))
    ensures Step(w, MakeTable(adds)).pool == w.pool
  {
    hide Inv, CanStep, AddAll, EndTable, OwnVTable, UsedVTable;
  }

  method BuildTable(b: Builder, adds: seq<Add>) returns (o: nat)
    requires b.Valid() && !b.State().nested && b.State().locs == []
    requires forall i :: 0 <= i < |adds| ==> AddOk(adds[i], |b.State().data|)
    requires CanEndAt(AddAll(b.State().(nested := true), adds), |b.State().data|)
    modifies b.Repr()
    ensures b.Valid() && fresh(b.Repr() - old(b.Repr())) && b.stringPool.offsets == old(b.stringPool.offsets)
    ensures var t := AddAll(old(b.State()).(nested := true), adds);
      b.State() == EndTable(t, old(|b.State().data|)) && o == TableOffset(t)
  {
    hide AddAll, EndTable, CanEndTable, DistinctIds, VTableSize, PowerOfTwo, IsAlignment, OffsetBytes, LocBytes, PushElement, AddOk;
    ghost var st, before := b.State(), b.Repr();
    var start := b.StartTable();
    AddFields(b, adds, st.(nested := true));
    ghost var between := b.Repr();
    o := b.EndTable(start);
    assert b.Repr() - before <= (b.Repr() - between) + (between - before);
  }

  // One call after another.
  method AddFields(b: Builder, adds: seq<Add>, ghost st: State)
    requires b.Valid() && b.State() == st && forall i :: 0 <= i < |adds| ==> AddOk(adds[i], |st.data|)
    requires |AddAll(st, adds).data| < MAX_BUFFER_SIZE
    modifies b.Repr()
    ensures b.Valid() && fresh(b.Repr() - old(b.Repr())) && b.State() == AddAll(st, adds)
    decreases |adds|
  {
    if adds != [] {
      var n := |adds| - 1;
      AddAllGrows(st, adds, n);
      assert adds[..n + 1] == adds;
      hide Apply, AddAll, AddOk, Builder.Valid, Builder.State, Builder.Repr;
      ghost var before := b.Repr();
      AddFields(b, adds[..n], st);
      ghost var between := b.Repr();
      Add1(b, adds[n]);
      assert b.Repr() - before <= (b.Repr() - between) + (between - before);
    }
  }

  // ------------------------------------------------------------- whole runs

  lemma StepStates(w: World, op: Op)
    requires Inv(w) && CanStep(w, op)
    ensures op.MakeString? ==> Step(w, op).st == CreateString(w.st, op.chars) && Step(w, op).pool == w.pool
                               && Result(w, op) == |Step(w, op).st.data|
    ensures op.MakeSharedString? ==>
      (Step(w, op).st, Step(w, op).pool, Result(w, op)) == Runs.CreateSharedString(w.st, w.pool, op.chars)
      && |CreateString(w.st, op.chars).data| < MAX_BUFFER_SIZE
    ensures op.MakeRefs? ==>
      && (forall i :: 0 <= i < |op.refs| ==> 0 < op.refs[i] <= |w.st.data|)
      && Step(w, op).st == CreateOffsetVector(w.st, op.refs) && Step(w, op).pool == w.pool
      && Result(w, op) == |Step(w, op).st.data|
    ensures op.MakeScalars? ==>
      && ScalarSize(op.size)
      && Step(w, op).st == CreateScalarVector(w.st, op.size, op.vals) && Step(w, op).pool == w.pool
      && Result(w, op) == |Step(w, op).st.data|
  {
    hide Inv, CreateString, CreateOffsetVector, CreateScalarVector, Runs.CreateSharedString;
    if op.MakeRefs? {
      RefsBelow(w, op.refs);
    }
  }

  // Any construction of a run.
  method Perform(b: Builder, op: Op, ghost w: World) returns (off: nat)
    requires At(b, w) && Inv(w) && CanStep(w, op) && Below(w, op)
    modifies b.Repr(), b.stringPool
    ensures fresh(b.Repr() - old(b.Repr()))
    ensures At(b, Step(w, op)) && off == Result(w, op)
  {
    hide Inv, CreateString, CreateOffsetVector, CreateScalarVector, Runs.CreateSharedString, PowerOfTwo;
    StepStates(w, op);
    IdleFacts(w);
    match op
    case MakeString(chars) => off := b.CreateString(chars);
    case MakeSharedString(chars) => off := b.CreateSharedString(chars);
    case MakeRefs(refs) => off := b.CreateVectorOfOffsets(refs);
    case MakeScalars(size, vals) => off := b.CreateVector(size, vals);
    case MakeTable(adds) => off := CreateTable(b, adds, w);
    case ForceDefaults(on) =>
      b.ForceDefaults(on);
      off := 0;
    case DedupVtables(on) =>
      b.DedupVtables(on);
      off := 0;
  }

  // Every buffer of the run is below the limit.
  ghost predicate AllBelow(w: World, ops: seq<Op>)
    requires Inv(w) && CanRun(w, ops)
    decreases |ops|
  {
    ops == [] || (Below(w, ops[0]) && (StepKeeps(w, ops[0]); AllBelow(Step(w, ops[0]), ops[1..])))
  }

  lemma EndTableSize(t: State, start: nat)
    requires CanEndTable(t, start)
    ensures TableOffset(t) <= |EndTable(t, start).data| && VTableSize(t.maxVoffset) < 0x1_0000
  {
    assert |PushElement(t, 4, 0).data| >= 4 by {
      hide Padding, ToLE;
    }
    hide PushElement, OwnVTable, UsedVTable, SOffset;
  }

  lemma StepBelow(w: World, op: Op)
    requires Inv(w) && CanStep(w, op) && |Step(w, op).st.data| + 0x1_0000 < MAX_BUFFER_SIZE
    ensures Below(w, op)
  {
    if op.MakeTable? {
      TableCanEnd(w, op.adds);
      EndTableSize(AddAll(w.st, op.adds), |w.st.data|);
      hide Inv, AddAll, EndTable, CanEndTable, VTableSize, TableOffset;
    }
  }

  // It is enough that the last buffer leaves room for one more vtable.
  lemma {:induction false} RunBelow(w: World, ops: seq<Op>)
    requires Inv(w) && CanRun(w, ops) && |Run(w, ops).st.data| + 0x1_0000 < MAX_BUFFER_SIZE
    ensures AllBelow(w, ops)
    decreases |ops|
  {
    hide Inv, CanStep, Step, Below;
    if ops != [] {
      StepKeeps(w, ops[0]);
      RunPreserves(Step(w, ops[0]), ops[1..]);
      StepBelow(w, ops[0]);
      RunBelow(Step(w, ops[0]), ops[1..]);
    }
  }

  // The object carries out every legal run.
  method PerformAll(b: Builder, ops: seq<Op>, ghost w: World)
    requires At(b, w) && Inv(w) && CanRun(w, ops) && AllBelow(w, ops)
    modifies b.Repr(), b.stringPool
    ensures fresh(b.Repr() - old(b.Repr()))
    ensures At(b, Run(w, ops))
    decreases |ops|
  {
    hide Inv, CanStep, Below, Step, At, Result;
    if ops != [] {
      ghost var before := b.Repr();
      var _ := Perform(b, ops[0], w);
      StepKeeps(w, ops[0]);
      ghost var between := b.Repr();
      PerformAll(b, ops[1..], Step(w, ops[0]));
      assert b.Repr() - before <= (b.Repr() - between) + (between - before);
    }
  }

  // From a new builder.
  method BuildRun(initialSize: nat, bufferMinalign: nat, ops: seq<Op>) returns (b: Builder)
    requires PowerOfTwo(bufferMinalign)
    requires (StartInv(); CanRun(Start, ops)) && AllBelow(Start, ops)
    ensures fresh(b.Repr()) && At(b, Run(Start, ops))
  {
    StartInv();
    hide Inv, CanRun, AllBelow, Run;
    b := new Builder(initialSize, bufferMinalign);
    PerformAll(b, ops, Start);
  }

  lemma FinishReady(ops: seq<Op>, root: nat, identifier: seq<byte>, sizePrefix: bool)
    requires CanFinishRun(ops, root, identifier, sizePrefix)
    ensures (StartInv(); CanRun(Start, ops))
    ensures var st := Run(Start, ops).st;
      && !st.nested && st.locs == [] && CanFinish(st, root, identifier)
      && |Finish(st, root, identifier, sizePrefix).data| < MAX_BUFFER_SIZE
      && Finish(st, root, identifier, sizePrefix).data == FinishedData(ops, root, identifier, sizePrefix)
  {
    hide Inv, CanRun, Run, CanFinish, Finish;
    StartInv();
    IdleFacts(Run(Start, ops));
  }

  // The bytes of a finished run, by the object: what `BuiltBuffers` proves of
  // finished runs is true of them.
  method BuildBuffer(initialSize: nat, bufferMinalign: nat, ops: seq<Op>, root: nat, identifier: seq<byte>, sizePrefix: bool)
    returns (d: seq<byte>)
    requires PowerOfTwo(bufferMinalign) && CanFinishRun(ops, root, identifier, sizePrefix)
    requires (StartInv(); CanRun(Start, ops)) && AllBelow(Start, ops)
    ensures d == FinishedData(ops, root, identifier, sizePrefix)
  {
    FinishReady(ops, root, identifier, sizePrefix);
    hide Inv, CanRun, AllBelow, Run, CanFinishRun, FinishedData, Finish, CanFinish, PowerOfTwo;
    var b := BuildRun(initialSize, bufferMinalign, ops);
    d := FinishBytes(b, Run(Start, ops).st, root, identifier, sizePrefix);
  }

  method FinishBytes(b: Builder, ghost st: State, root: nat, identifier: seq<byte>, sizePrefix: bool) returns (d: seq<byte>)
    requires b.Valid() && b.State() == st && !st.nested && st.locs == [] && CanFinish(st, root, identifier)
    requires |Finish(st, root, identifier, sizePrefix).data| < MAX_BUFFER_SIZE
    modifies b.Repr()
    ensures d == Finish(st, root, identifier, sizePrefix).data
  {
    hide Finish, PowerOfTwo, OffsetBytes, LocBytes, IsAlignment;
    b.Finish(root, identifier, sizePrefix);
    d := AllBytes(b);
  }

  method AllBytes(b: Builder) returns (d: seq<byte>)
    requires b.Valid()
    ensures d == b.State().data
  {
    hide PowerOfTwo, OffsetBytes, LocBytes, IsAlignment;
    var size := b.GetSize();
    d := b.buf.ReadAt(size, size);
  }

  // --------------------------------------------------------- sorted vectors

  // `std::sort` rearranges the caller's offsets, comparing keys in the unfinished
  // buffer.
  method SortOffsets(b: Builder, f: R.FieldSpec, v: array<nat>)
    requires b.Valid() && v !in b.Repr()
    modifies v
    ensures v[..] == SortByKey(b.State().data, f, old(v[..]))
  {
    hide SortByKey, PowerOfTwo, OffsetBytes, LocBytes, IsAlignment;
    var d := AllBytes(b);
    var sorted := SortByKey(d, f, v[..]);
    forall i | 0 <= i < v.Length {
      v[i] := sorted[i];
    }
    assert v[..] == sorted;
  }

  lemma IdleFields(b: Builder)
    requires b.Valid() && b.State().locs == []
    ensures b.numFieldLoc == 0
  {
    hide PowerOfTwo, OffsetBytes, LocBytes, IsAlignment;
  }

  // What CreateVectorOfSortedTables makes is a step of the run.
  lemma SortedIsStep(w: World, f: R.FieldSpec, refs: seq<nat>, sorted: seq<nat>)
    requires Inv(w) && CanStep(w, MakeRefs(refs)) && sorted == SortByKey(w.st.data, f, refs)
    ensures forall i :: 0 <= i < |refs| ==> refs[i] <= |w.st.data|
    ensures forall i :: 0 <= i < |sorted| ==> 0 < sorted[i] <= |w.st.data|
    ensures CanStep(w, MakeRefs(sorted)) && Step(w, MakeRefs(sorted)).pool == w.pool
    ensures var t := CreateOffsetVector(w.st, sorted);
      && t == SortedTables.CreateVectorOfSortedTables(w.st, f, refs) == Step(w, MakeRefs(sorted)).st
      && Result(w, MakeRefs(sorted)) == |t.data|
  {
    hide Inv, SortByKey, CreateOffsetVector;
    SortedStep(w, f, refs);
    StepStates(w, MakeRefs(sorted));
  }

  method CreateVectorOfSortedTables(b: Builder, f: R.FieldSpec, v: array<nat>, ghost w: World) returns (off: nat)
    requires At(b, w) && v !in b.Repr() && Inv(w) && CanStep(w, MakeRefs(v[..]))
    requires forall i :: 0 <= i < |v[..]| ==> v[..][i] <= |w.st.data|
    requires |SortedTables.CreateVectorOfSortedTables(w.st, f, v[..]).data| < MAX_BUFFER_SIZE
    modifies b.Repr(), v
    ensures fresh(b.Repr() - old(b.Repr()))
    ensures v[..] == SortByKey(w.st.data, f, old(v[..]))
    ensures CanStep(w, MakeRefs(v[..])) && At(b, Step(w, MakeRefs(v[..]))) && off == Result(w, MakeRefs(v[..]))
    ensures b.State() == SortedTables.CreateVectorOfSortedTables(w.st, f, old(v[..]))
  {
    hide Inv, CanStep, Step, Result, SortByKey, CreateOffsetVector, SortedTables.CreateVectorOfSortedTables, PowerOfTwo, OffsetBytes,
      LocBytes, IsAlignment, Builder.Valid;
    ghost var sorted := SortByKey(w.st.data, f, v[..]);
    SortedIsStep(w, f, v[..], sorted);
    IdleFacts(w);
    IdleFields(b);
    SortOffsets(b, f, v);
    assert v[..] == sorted;
    off := b.CreateVectorOfOffsets(v[..]);
  }
}
