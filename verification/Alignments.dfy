// The recorded alignment is the largest that anything in the buffer needs.
module Alignments {
  import opened Bits
  import opened Bytes
  import opened Alignment
  import opened BuilderSpec
  import opened Layout
  import opened Writing
  import opened Tables
  import opened Runs
  import opened RunInvariant

  // What the fields of a table need that are written, four for a reference.
  function FieldsNeed(adds: seq<Add>, forceDefaults: bool): nat {
    if adds == [] then 1
    else
      var n := |adds| - 1;
      var rest := FieldsNeed(adds[..n], forceDefaults);
      match adds[n]
      case AddScalar(_, s, v, def) => if v != def || forceDefaults then Max(rest, s) else rest
      case AddRef(_, ref) => if ref != 0 then Max(rest, 4) else rest
  }

  // Every object starts with four bytes; wide scalars need more.
  function Need(op: Op, forceDefaults: bool): nat {
    match op
    case MakeString(_) => 4
    case MakeSharedString(_) => 4
    case MakeRefs(_) => 4
    case MakeScalars(s, _) => Max(4, s)
    case MakeTable(adds) => Max(4, FieldsNeed(adds, forceDefaults))
    case ForceDefaults(_) => 1
    case DedupVtables(_) => 1
  }

  lemma ApplyNeeds(st: State, a: Add)
    requires IsAlignment(st.minalign) && AddOk(a, |st.data|)
    ensures IsAlignment(Apply(st, a).minalign)
    ensures Apply(st, a).minalign == match a
      case AddScalar(_, s, v, def) => if v != def || st.forceDefaults then Max(st.minalign, s) else st.minalign
      case AddRef(_, ref) => if ref != 0 then Max(st.minalign, 4) else st.minalign
  {
    hide Padding, ToLE;
  }

  lemma {:induction false} AddAllNeeds(st: State, adds: seq<Add>)
    requires IsAlignment(st.minalign) && forall i :: 0 <= i < |adds| ==> AddOk(adds[i], |st.data|)
    ensures IsAlignment(AddAll(st, adds).minalign)
    ensures AddAll(st, adds).minalign == Max(st.minalign, FieldsNeed(adds, st.forceDefaults))
  {
    if adds != [] {
      var n := |adds| - 1;
      var before := AddAll(st, adds[..n]);
      AddAllNeeds(st, adds[..n]);
      AddOkMonotone(adds[n], |st.data|, |before.data|);
      hide Apply, AddOk;
      assert AddAll(st, adds) == Apply(before, adds[n]);
      hide AddAll;
      ApplyNeeds(before, adds[n]);
    }
  }

  lemma TableNeeds(w: World, adds: seq<Add>)
    requires Inv(w) && CanStep(w, MakeTable(adds))
    ensures var x := Step(w, MakeTable(adds));
      && x.st.minalign == Max(w.st.minalign, Need(MakeTable(adds), w.st.forceDefaults))
      && x.st.forceDefaults == w.st.forceDefaults && x.st.dedup == w.st.dedup
  {
    InvFacts(w);
    TableCanEnd(w, adds);
    AddAllNeeds(w.st, adds);
    EndNeeds(AddAll(w.st, adds), |w.st.data|);
    hide Inv, AddAll, EndTable, FieldsNeed, InTable, LiveVTables;
  }

  lemma EndNeeds(t: State, start: nat)
    requires CanEndTable(t, start)
    ensures EndTable(t, start).minalign == Max(t.minalign, 4) && EndTable(t, start).forceDefaults == t.forceDefaults
    ensures EndTable(t, start).dedup == t.dedup
  {
    hide Padding, ToLE, OwnVTable, UsedVTable;
  }

  lemma SharedNeeds(w: World, s: seq<byte>)
    requires Inv(w) && CanStep(w, MakeSharedString(s))
    ensures var x := Step(w, MakeSharedString(s));
      x.st.minalign == Max(w.st.minalign, 4) && x.st.forceDefaults == w.st.forceDefaults && x.st.dedup == w.st.dedup
  {
    SharedStringShares(w, s);
    SharedStep(w, s);
    InvFacts(w);
    CreateStringWrites(w.st, s);
    hide CreateString, CreateSharedString, StringAt, Extends, ObjectsAt, LiveVTables, Closed, Step;
  }

  lemma StepNeeds(w: World, op: Op)
    requires Inv(w) && CanStep(w, op)
    ensures Step(w, op).st.minalign == Max(w.st.minalign, Need(op, w.st.forceDefaults))
    ensures Step(w, op).st.forceDefaults == if op.ForceDefaults? then op.on else w.st.forceDefaults
    ensures Step(w, op).st.dedup == if op.DedupVtables? then op.on else w.st.dedup
  {
    InvFacts(w);
    hide Inv, CreateString, CreateSharedString, CreateOffsetVector, CreateScalarVector, StringAt, RefsAt, ScalarsAt, LiveVTables, EndTable,
      AddAll;
    match op
    case MakeString(s) => CreateStringWrites(w.st, s);
    case MakeSharedString(s) => SharedNeeds(w, s);
    case MakeRefs(refs) =>
      RefsBelow(w, refs);
      CreateOffsetVectorWrites(w.st, refs);
    case MakeScalars(s, vals) => CreateScalarVectorWrites(w.st, s, vals);
    case MakeTable(adds) => TableNeeds(w, adds);
    case ForceDefaults(_) =>
    case DedupVtables(_) =>
  }

  // The most that any call of the run needs, with the switch as it is then.
  function RunNeeds(ops: seq<Op>, forceDefaults: bool): nat {
    if ops == [] then 1
    else Max(Need(ops[0], forceDefaults), RunNeeds(ops[1..], if ops[0].ForceDefaults? then ops[0].on else forceDefaults))
  }

  lemma {:induction false} RunMinalign(w: World, ops: seq<Op>)
    requires Inv(w) && CanRun(w, ops) && w.st.minalign >= 1
    ensures Run(w, ops).st.minalign == Max(w.st.minalign, RunNeeds(ops, w.st.forceDefaults))
    decreases |ops|
  {
    if ops != [] {
      StepKeeps(w, ops[0]);
      StepNeeds(w, ops[0]);
      hide Inv, CanStep, Step, Need;
      RunMinalign(Step(w, ops[0]), ops[1..]);
    }
  }
}
