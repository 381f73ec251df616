// Why the greatest table limit is no limit: a buffer whose tables share their
// children holds a tree with more tables than 32 bits can count.
module VerifierLimits {
  import opened Bits
  import opened Bytes
  import opened Alignment
  import opened BuilderSpec
  import opened Layout
  import opened Writing
  import opened Tables
  import opened Runs
  import opened RunInvariant
  import opened Finishing
  import opened ReadBack
  import opened BuiltBuffers
  import opened Programs
  import opened ProgramTrees
  import opened VerifierBudget
  import R = Reader
  import V = VerifierSpec

  // One table type, with a vector of tables of that type.
  const Nested: R.Schema := [[R.FieldSpec(4, R.KTables(0), false)]]

  // A table without children, and `n` times a table with the last one twice.
  function Chain(n: nat): (calls: seq<Call>)
    ensures |calls| == 2 * n + 1
  {
    if n == 0 then [NewTable([])]
    else Chain(n - 1) + [NewRefs([2 * n - 1, 2 * n - 1]), NewTable([AddRef(4, 2 * n)])]
  }

  lemma {:induction false} ChainAt(n: nat, k: nat)
    requires k <= n
    ensures Chain(n)[2 * k] == if k == 0 then NewTable([]) else NewTable([AddRef(4, 2 * k)])
    ensures k > 0 ==> Chain(n)[2 * k - 1] == NewRefs([2 * k - 1, 2 * k - 1])
  {
    if k < n {
      ChainAt(n - 1, k);
    }
  }

  // ------------------------------------------------------- the tree described

  lemma ChainThings(n: nat, k: nat)
    requires k <= n
    ensures var objs := Described(Chain(n));
      && 2 * k + 1 in objs && objs[2 * k + 1].OTable?
      && objs[2 * k + 1].fields == (if k == 0 then map[] else map[4 := FRef(2 * k)])
      && (k > 0 ==> 2 * k in objs && objs[2 * k] == ORefs([2 * k - 1, 2 * k - 1]))
  {
    ChainAt(n, k);
    hide Chain;
    if k > 0 {
      var adds := [AddRef(4, 2 * k)];
      assert adds[..0] == [] && Fields(adds[..0]) == map[];
      assert Fields(adds) == map[4 := FRef(2 * k)];
    }
  }

  lemma {:induction false} ChainTyped(n: nat, k: nat)
    requires k <= n
    ensures TypedTable(Nested, Described(Chain(n)), 0, 2 * k + 1)
    decreases k
  {
    var objs := Described(Chain(n));
    ChainThings(n, k);
    hide Described, Chain;
    if k > 0 {
      ChainTyped(n, k - 1);
      assert objs[2 * k].refs == [2 * k - 1, 2 * k - 1];
    }
    assert TypedField(Nested, objs, Nested[0][0], 2 * k + 1);
  }

  // A table with one field that holds a vector of tables, twice the same.
  lemma TwiceBuilt(objs: map<nat, Obj>, o: nat, v: nat, r: nat)
    requires TypedTable(Nested, objs, 0, o) && objs[o].fields == map[4 := FRef(v)]
    requires v in objs && objs[v] == ORefs([r, r])
    ensures r < o && TypedTable(Nested, objs, 0, r)
    ensures var t, u := Built(Nested, objs, 0, r), Built(Nested, objs, 0, o);
      R.Count(u) == 1 + 2 * R.Count(t) && R.Depth(u) == 1 + R.Depth(t)
  {
    var f := Nested[0][0];
    assert TypedField(Nested, objs, f, o) && objs[v].refs[0] == r;
    FieldsOfOne(objs, o, f);
    TwoTrees(objs, r, o);
    hide TypedTable, TypedField, BuiltTables;
    var t := Built(Nested, objs, 0, r);
    assert BuiltField(Nested, objs, f, o) == R.VTables([t, t]);
    OneVal(R.VTables([t, t]));
    TwiceCounts(t);
  }

  lemma FieldsOfOne(objs: map<nat, Obj>, o: nat, f: R.FieldSpec)
    requires Nested[0] == [f] && TypedTable(Nested, objs, 0, o) && TypedField(Nested, objs, f, o)
    ensures Built(Nested, objs, 0, o) == R.Node([BuiltField(Nested, objs, f, o)])
  {
    hide TypedField, BuiltField;
    var fs := Nested[0];
    assert fs[1..] == [] && fs[0] == f;
    assert BuiltFields(Nested, objs, fs[1..], o) == [];
  }

  lemma EmptyBuilt(objs: map<nat, Obj>, o: nat)
    requires TypedTable(Nested, objs, 0, o) && objs[o].fields == map[]
    ensures R.Count(Built(Nested, objs, 0, o)) == 1 && R.Depth(Built(Nested, objs, 0, o)) == 1
  {
    var f := Nested[0][0];
    assert TypedField(Nested, objs, f, o);
    FieldsOfOne(objs, o, f);
    assert BuiltField(Nested, objs, f, o) == R.VNull;
    OneVal(R.VNull);
  }

  // Each link doubles the number of tables.
  lemma {:induction false} ChainCount(n: nat, k: nat)
    requires k <= n && TypedTable(Nested, Described(Chain(n)), 0, 2 * k + 1)
    ensures var tree := Built(Nested, Described(Chain(n)), 0, 2 * k + 1);
      R.Count(tree) == Pow2(k + 1) - 1 && R.Depth(tree) == k + 1
    decreases k
  {
    var objs := Described(Chain(n));
    ChainThings(n, k);
    hide Described, Chain, TypedTable, Built;
    if k > 0 {
      TwiceBuilt(objs, 2 * k + 1, 2 * k, 2 * k - 1);
      ChainCount(n, k - 1);
    } else {
      EmptyBuilt(objs, 1);
      assert Pow2(1) == 2;
    }
  }

  lemma OneVal(v: R.Val)
    ensures R.DepthVals([v]) == R.DepthVal(v) && R.CountVals([v]) == R.CountVal(v)
  {
    var none: seq<R.Val> := [];
    R.ConsVals(v, none);
    assert [v] + none == [v] && R.CountVals(none) == 0 && R.DepthVals(none) == 0;
  }

  lemma TwoTrees(objs: map<nat, Obj>, r: nat, bound: nat)
    requires r < bound && TypedTable(Nested, objs, 0, r)
    ensures BuiltTables(Nested, objs, 0, [r, r], bound) == [Built(Nested, objs, 0, r), Built(Nested, objs, 0, r)]
  {
    hide TypedTable, Built;
    assert [r, r][1..] == [r] && [r][1..] == [];
    assert BuiltTables(Nested, objs, 0, [r][1..], bound) == [];
    assert BuiltTables(Nested, objs, 0, [r], bound) == [Built(Nested, objs, 0, r)];
  }

  lemma TwiceCounts(t: R.Tree)
    ensures R.DepthTrees([t, t]) == R.Depth(t) && R.CountTrees([t, t]) == 2 * R.Count(t)
  {
    R.ConsTrees(t, [t]);
    R.ConsTrees(t, []);
    assert [t] + [t] == [t, t] && [t] + [] == [t];
  }

  // ------------------------------------------------------------- it is built

  lemma {:induction false} RunAppends(w: World, ops: seq<Op>, op: Op)
    requires Inv(w) && CanRun(w, ops) && CanStep(Run(w, ops), op)
    ensures CanRun(w, ops + [op]) && Run(w, ops + [op]) == Step(Run(w, ops), op)
    decreases |ops|
  {
    hide Inv, CanStep, Step;
    if ops == [] {
      assert [op][1..] == [];
      StepKeeps(w, op);
      assert CanRun(Step(w, op), []);
    } else {
      StepKeeps(w, ops[0]);
      RunAppends(Step(w, ops[0]), ops[1..], op);
      assert (ops + [op])[1..] == ops[1..] + [op];
    }
  }

  lemma {:induction false} PlayAppends(w: World, rs: seq<nat>, calls: seq<Call>, ops: seq<Op>, c: Call, op: Op)
    requires Inv(w) && CanRun(w, ops) && Plays(w, rs, calls, ops) && CanStep(Run(w, ops), op)
    requires Names(c, |Results(w, rs, ops)|) && op == Lowered(c, Results(w, rs, ops), false)
    ensures CanRun(w, ops + [op]) && Plays(w, rs, calls + [c], ops + [op])
    ensures Results(w, rs, ops + [op]) == Results(w, rs, ops) + [Result(Run(w, ops), op)]
    decreases |ops|
  {
    hide Inv, CanStep, Step, Result, Names, Lowered;
    RunAppends(w, ops, op);
    LoweredIsNoSwitch(c, Results(w, rs, ops), false);
    if ops == [] {
      assert [op][1..] == [] && ([c] + calls)[1..] == [];
      StepKeeps(w, op);
      assert Plays(Step(w, op), rs + [Result(w, op)], [], []);
      assert ops + [op] == [op] && calls + [c] == [c];
    } else {
      StepKeeps(w, ops[0]);
      assert (ops + [op])[1..] == ops[1..] + [op];
      var x := Step(w, ops[0]);
      if Switch(ops[0]) {
        PlayAppends(x, rs, calls, ops[1..], c, op);
      } else {
        PlayAppends(x, rs + [Result(w, ops[0])], calls[1..], ops[1..], c, op);
        assert (calls + [c])[1..] == calls[1..] + [c];
      }
    }
  }

  lemma PushOffsetSize(st: State, r: nat)
    requires IsAlignment(st.minalign) && 0 < r <= |st.data|
    ensures |st.data| <= |PushOffset(st, r).data| <= |st.data| + 7 && IsAlignment(PushOffset(st, r).minalign)
  {
    PushOffsetWrites(st, r);
    hide PushOffset, Padding, Extends, RefAt;
  }

  lemma StartVectorSize(st: State)
    requires IsAlignment(st.minalign)
    ensures var a := StartVector(st, 2, 4); |st.data| <= |a.data| <= |st.data| + 6 && IsAlignment(a.minalign)
  {
    hide Padding;
  }

  lemma EndVectorSize(st: State)
    requires IsAlignment(st.minalign)
    ensures |EndVector(st, 2).data| <= |st.data| + 7
  {
    hide Padding, ToLE;
  }

  lemma PairSize(st: State, r: nat)
    requires IsAlignment(st.minalign) && 0 < r <= |st.data|
    ensures |CreateOffsetVector(st, [r, r]).data| <= |st.data| + 32
  {
    var a := StartVector(st, 2, 4);
    StartVectorSize(st);
    PushOffsetSize(a, r);
    var b := PushOffset(a, r);
    PushOffsetSize(b, r);
    EndVectorSize(PushOffset(b, r));
    PairPushed(a, r);
    hide StartVector, PushOffset, PushOffsets, EndVector;
  }

  lemma PairPushed(a: State, r: nat)
    requires r <= |a.data| && r <= |PushOffset(a, r).data|
    ensures PushOffsets(a, [r, r]) == PushOffset(PushOffset(a, r), r)
  {
    hide PushOffset;
    assert [r, r][1..] == [r] && [r][1..] == [];
    assert PushOffsets(a, [r][1..]) == a;
    assert PushOffsets(a, [r]) == PushOffset(a, r);
  }

  lemma OneRef(st: State, v: nat)
    requires IsAlignment(st.minalign) && st.maxVoffset == 0 && 0 < v <= |st.data|
    ensures var t := AddAll(st, [AddRef(4, v)]);
      |t.data| <= |st.data| + 8 && t.maxVoffset == 4 && IsAlignment(t.minalign)
  {
    var adds := [AddRef(4, v)];
    assert adds[..0] == [];
    assert AddAll(st, []) == st;
    hide Padding, PushElement, Extends;
    PushOffsetSize(st, v);
    assert AddAll(st, adds) == Apply(st, adds[0]);
  }

  lemma OneRefSize(st: State, t: State)
    requires IsAlignment(t.minalign) && |t.data| <= |st.data| + 8 && t.maxVoffset == 4 && CanEndTable(t, |st.data|)
    ensures |EndTable(t, |st.data|).data| <= |st.data| + 32
  {
    hide Padding, ToLE, UsedVTable, WriteLocs;
  }

  // One more link: a vector of the last table twice, and a table with it.
  lemma LinkRefs(w: World, r: nat)
    requires Inv(w) && r in w.objs
    ensures var a := MakeRefs([r, r]);
      CanStep(w, a) && |Step(w, a).st.data| <= |w.st.data| + 32 && Result(w, a) in Step(w, a).objs
  {
    RefsBelow(w, [r, r]);
    PairSize(w.st, r);
    RefsStepMakes(w, [r, r]);
    hide LiveVTables, ObjectsAt, CreateOffsetVector;
  }

  lemma OneRefFits(w: World, v: nat)
    requires Inv(w) && v in w.objs
    ensures CanStep(w, MakeTable([AddRef(4, v)]))
  {
    ObjectsBelow(w);
    InvFacts(w);
    hide Inv, LiveVTables;
    OneRef(w.st, v);
    var t := AddAll(w.st, [AddRef(4, v)]);
    hide PushElement, AddAll, Extends;
    PushElementWrites(t, 4, 0);
    OneRefOk(w, v);
  }

  lemma OneRefOk(w: World, v: nat)
    requires v in w.objs && 0 < v <= |w.st.data|
    ensures AddsOk([AddRef(4, v)], |w.st.data|, w.st.forceDefaults) && AddsKnown([AddRef(4, v)], w.objs)
  {
  }

  lemma LinkTable(w: World, v: nat)
    requires Inv(w) && v in w.objs
    ensures var b := MakeTable([AddRef(4, v)]);
      CanStep(w, b) && |Step(w, b).st.data| <= |w.st.data| + 32 && Result(w, b) in Step(w, b).objs
  {
    OneRefFits(w, v);
    TableStepMakes(w, [AddRef(4, v)]);
    ObjectsBelow(w);
    OneRef(w.st, v);
    TableCanEnd(w, [AddRef(4, v)]);
    hide Inv, AddAll, EndTable, InTable, CanEndTable, Fields, UsedVTable, OwnVTable, CanStep, Result;
    OneRefSize(w.st, AddAll(w.st, [AddRef(4, v)]));
  }

  lemma EmptyPlays() returns (ops: seq<Op>)
    ensures Inv(Start) && CanRun(Start, ops) && Plays(Start, [], Chain(0), ops)
    ensures var w := Run(Start, ops); var rs := Results(Start, [], ops);
      |w.st.data| <= 64 && |rs| == 1 && rs[0] in w.objs
  {
    hide Inv, CanStep, Step, Result, Plays, Run, CanRun, Results, Fields, CanFinish;
    StartInv();
    var root := EmptyTableStep();
    TableStepMakes(Start, []);
    NothingPlays(Start);
    assert PlacedAll([], []) == [];
    PlayAppends(Start, [], [], [], NewTable([]), MakeTable([]));
    RunAppends(Start, [], MakeTable([]));
    assert [] + [NewTable([])] == Chain(0);
    ops := [] + [MakeTable([])];
  }

  lemma NothingPlays(w: World)
    requires Inv(w)
    ensures CanRun(w, []) && Run(w, []) == w && Plays(w, [], [], []) && Results(w, [], []) == []
  {
    hide Inv;
  }

  // The chain can be played, in few bytes.
  lemma {:induction false} ChainPlays(n: nat) returns (ops: seq<Op>)
    ensures Inv(Start) && CanRun(Start, ops) && Plays(Start, [], Chain(n), ops)
    ensures var w := Run(Start, ops); var rs := Results(Start, [], ops);
      |w.st.data| <= 64 * (n + 1) && |rs| == 2 * n + 1 && rs[2 * n] in w.objs
    decreases n
  {
    hide Inv, CanStep, Step, Result, Plays, Run, CanRun, Results, Chain;
    if n == 0 {
      ops := EmptyPlays();
    } else {
      var before := ChainPlays(n - 1);
      ops := LinkPlays(n, before, Run(Start, before), Results(Start, [], before));
    }
  }

  lemma LinkPlays(n: nat, before: seq<Op>, w: World, rs: seq<nat>) returns (ops: seq<Op>)
    requires n > 0 && Inv(Start) && CanRun(Start, before) && Plays(Start, [], Chain(n - 1), before)
    requires w == Run(Start, before) && rs == Results(Start, [], before)
    requires |w.st.data| <= 64 * n && |rs| == 2 * n - 1 && rs[2 * n - 2] in w.objs
    ensures CanRun(Start, ops) && Plays(Start, [], Chain(n), ops)
    ensures var x := Run(Start, ops); var ts := Results(Start, [], ops);
      |x.st.data| <= 64 * (n + 1) && |ts| == 2 * n + 1 && ts[2 * n] in x.objs
  {
    hide Inv, CanStep, Step, Result, Plays, Run, CanRun, Results, Chain;
    var r := rs[2 * n - 2];
    var a := MakeRefs([r, r]);
    var refs := NewRefs([2 * n - 1, 2 * n - 1]);
    LinkRefs(w, r);
    assert Offsets(rs, [2 * n - 1, 2 * n - 1]) == [r, r];
    PlayAppends(Start, [], Chain(n - 1), before, refs, a);
    RunAppends(Start, before, a);
    var v := Result(w, a);
    var x := Step(w, a);
    var b := MakeTable([AddRef(4, v)]);
    var table := NewTable([AddRef(4, 2 * n)]);
    LinkTable(x, v);
    assert PlacedAll(rs + [v], [AddRef(4, 2 * n)]) == [AddRef(4, v)];
    PlayAppends(Start, [], Chain(n - 1) + [refs], before + [a], table, b);
    RunAppends(Start, before + [a], b);
    ops := before + [a] + [b];
    ChainGrows(n, refs, table);
  }

  lemma ChainGrows(n: nat, refs: Call, table: Call)
    requires n > 0 && refs == NewRefs([2 * n - 1, 2 * n - 1]) && table == NewTable([AddRef(4, 2 * n)])
    ensures Chain(n - 1) + [refs] + [table] == Chain(n)
  {
  }

  // ---------------------------------------------------------- main results

  lemma NestedIsOk()
    ensures R.SchemaOk(Nested) && |Nested| == 1
  {
  }

  lemma ChainCanPlay(n: nat, k: nat) returns (ops: seq<Op>)
    requires n < 1000 && k == 2 * n + 1
    ensures CanPlay(Nested, Chain(n), ops, 0, k, [], false) && Inv(Start) && CanRun(Start, ops)
  {
    hide Inv, Plays, Run, CanRun, Results, Chain, TypedTable, Root, CanFinish, Finish, Described, R.SchemaOk;
    NestedIsOk();
    ops := ChainPlays(n);
    ChainTyped(n, n);
    RootCanFinish(Nested, Chain(n), ops, 0, k, []);
    FinishSize(Run(Start, ops).st, Root(ops, k));
  }

  // A buffer for the chain of `n` links: with the greatest limits it is
  // accepted, after almost two to the power `n + 1` table starts.
  lemma ChainVerifies(n: nat, k: nat) returns (b: seq<byte>)
    requires n < 1000 && k == 2 * n + 1
    ensures R.SchemaOk(Nested) && |Nested| == 1 && |b| < MAX_BUFFER_SIZE
    ensures var r := V.VerifyBuffer(Nested, b, 0, false, [], V.Limits(V.MAX_32, V.MAX_32));
      r.ok && r.st.started == Pow2(n + 1) - 1
  {
    hide CanPlay, Chain, V.VerifyBuffer, Root, Buffer, Intended, CanBuild, TypedTable, Described, R.Depth, R.Count, R.SchemaOk,
      Built;
    NestedIsOk();
    var ops := ChainCanPlay(n, k);
    ChainTyped(n, n);
    ChainCount(n, n);
    PlayBuilds(Nested, Chain(n), ops, 0, k, [], false);
    var root := Root(ops, k);
    b := Buffer(Nested, ops, 0, root, [], false);
    BuiltBufferCounts(Nested, ops, 0, root, [], false, V.Limits(V.MAX_32, V.MAX_32));
    BufferBelow(Nested, ops, 0, root, [], false);
  }

  // When the table limit is the greatest number, the count of table starts can
  // pass it.
  lemma CountWraps() returns (b: seq<byte>)
    ensures R.SchemaOk(Nested) && |Nested| == 1 && |b| < MAX_BUFFER_SIZE
    ensures V.VerifyBuffer(Nested, b, 0, false, [], V.Limits(V.MAX_32, V.MAX_32)).st.started > V.MAX_32
  {
    var n := ThirtyTwo();
    hide V.VerifyBuffer, R.SchemaOk, Pow2;
    b := ChainVerifies(n, 2 * n + 1);
  }

  lemma ThirtyTwo() returns (n: nat)
    ensures n == 32 && Pow2(n + 1) > TWO_32
  {
    n :| n == 32;
    Doubles(n);
    hide Pow2;
    Pow2At(n);
  }

  lemma Doubles(n: nat)
    ensures Pow2(n + 1) == 2 * Pow2(n)
  {
  }

  lemma BufferBelow(sch: R.Schema, ops: seq<Op>, t: nat, root: nat, identifier: seq<byte>, sizePrefix: bool)
    requires CanBuild(sch, ops, t, root, identifier, sizePrefix)
    ensures |Buffer(sch, ops, t, root, identifier, sizePrefix)| < MAX_BUFFER_SIZE
  {
    hide CanRun, Run, TypedTable, CanFinish, Finish, R.SchemaOk;
  }

  // On every schema and all bytes, no more tables are started than allowed.
  ghost predicate TablesBounded(maxTables: V.uint32) {
    forall sch: R.Schema, b: seq<byte>, t: nat, sizePrefix: bool, identifier: seq<byte>, maxDepth: V.uint32 ::
      |b| < MAX_BUFFER_SIZE && R.SchemaOk(sch) && t < |sch| ==>
      V.VerifyBuffer(sch, b, t, sizePrefix, identifier, V.Limits(maxDepth, maxTables)).st.started <= maxTables
  }

  // The table limit holds for all input exactly when it is not the greatest
  // 32-bit number.
  lemma TableLimitHoldsIff(maxTables: V.uint32)
    ensures TablesBounded(maxTables) <==> maxTables < V.MAX_32
  {
    hide V.VerifyBuffer, R.SchemaOk;
    if maxTables < V.MAX_32 {
      forall sch: R.Schema, b: seq<byte>, t: nat, sizePrefix: bool, identifier: seq<byte>, maxDepth: V.uint32
        | |b| < MAX_BUFFER_SIZE && R.SchemaOk(sch) && t < |sch|
        ensures V.VerifyBuffer(sch, b, t, sizePrefix, identifier, V.Limits(maxDepth, maxTables)).st.started <= maxTables
      {
        BufferBudget(sch, b, t, sizePrefix, identifier, V.Limits(maxDepth, maxTables));
      }
    } else {
      var b := CountWraps();
      assert V.VerifyBuffer(Nested, b, 0, false, [], V.Limits(V.MAX_32, maxTables)).st.started > maxTables;
    }
  }
}
