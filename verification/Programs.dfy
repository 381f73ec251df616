// Programs name an object by the call that made it, so the same program can be
// played under any settings of the builder; what it describes does not depend
// on them.
module Programs {
  import opened Bytes
  import opened BuilderSpec
  import opened Layout
  import opened Tables
  import opened Runs
  import opened RunInvariant

  // ---------------------------------------------------------------- programs
  // Calls count from one, and zero is the null reference.  The references of
  // an `Add` are such numbers here.

  datatype Call =
    | NewString(chars: seq<byte>)
    | NewRefs(refs: seq<nat>)
    | NewScalars(size: nat, vals: seq<nat>)
    | NewTable(adds: seq<Add>)

  // The offset that call number `k` returned.
  function Offset(rs: seq<nat>, k: nat): nat {
    if 0 < k <= |rs| then rs[k - 1] else 0
  }

  function Offsets(rs: seq<nat>, ks: seq<nat>): (os: seq<nat>)
    ensures |os| == |ks|
  {
    seq(|ks|, i requires 0 <= i < |ks| => Offset(rs, ks[i]))
  }

  function Placed(rs: seq<nat>, a: Add): Add {
    match a
    case AddScalar(_, _, _, _) => a
    case AddRef(id, k) => AddRef(id, Offset(rs, k))
  }

  function PlacedAll(rs: seq<nat>, adds: seq<Add>): (r: seq<Add>)
    ensures |r| == |adds|
  {
    seq(|adds|, i requires 0 <= i < |adds| => Placed(rs, adds[i]))
  }

  // Call number `n + 1` may use the objects of the `n` calls before it.
  predicate Names(c: Call, n: nat) {
    match c
    case NewRefs(ks) => forall i :: 0 <= i < |ks| ==> 0 < ks[i] <= n
    case NewTable(adds) => forall i :: 0 <= i < |adds| && adds[i].AddRef? ==> adds[i].ref <= n
    case _ => true
  }

  // What the builder is asked to do for a call.  A string may be shared or not.
  function Lowered(c: Call, rs: seq<nat>, share: bool): Op {
    match c
    case NewString(s) => if share then MakeSharedString(s) else MakeString(s)
    case NewRefs(ks) => MakeRefs(Offsets(rs, ks))
    case NewScalars(size, vals) => MakeScalars(size, vals)
    case NewTable(adds) => MakeTable(PlacedAll(rs, adds))
  }

  predicate Switch(op: Op) {
    op.ForceDefaults? || op.DedupVtables?
  }

  // `ops` plays the calls: every reference is the offset the named call
  // returned, each string is shared or not as it likes, and the two switches
  // of the builder may be thrown anywhere.
  ghost predicate Plays(w: World, rs: seq<nat>, calls: seq<Call>, ops: seq<Op>)
    requires Inv(w) && CanRun(w, ops)
    decreases |ops|
  {
    if ops == [] then calls == []
    else
      StepKeeps(w, ops[0]);
      var x := Step(w, ops[0]);
      if Switch(ops[0]) then Plays(x, rs, calls, ops[1..])
      else
        && calls != []
        && Names(calls[0], |rs|)
        && (ops[0] == Lowered(calls[0], rs, true) || ops[0] == Lowered(calls[0], rs, false))
        && Plays(x, rs + [Result(w, ops[0])], calls[1..], ops[1..])
  }

  // The offsets the calls of a run returned.
  ghost function Results(w: World, rs: seq<nat>, ops: seq<Op>): seq<nat>
    requires Inv(w) && CanRun(w, ops)
    decreases |ops|
  {
    if ops == [] then rs
    else
      StepKeeps(w, ops[0]);
      Results(Step(w, ops[0]), if Switch(ops[0]) then rs else rs + [Result(w, ops[0])], ops[1..])
  }

  // ----------------------------------------------------------------- meaning

  // What a call describes, with objects named by call.
  function Thing(c: Call): Obj {
    match c
    case NewString(s) => OString(s)
    case NewRefs(ks) => ORefs(ks)
    case NewScalars(size, vals) => OScalars(size, vals)
    case NewTable(adds) => OTable(Fields(adds), 0, [])
  }

  function ThingOf(calls: seq<Call>, k: nat): Obj
    requires 0 < k <= |calls|
  {
    Thing(calls[k - 1])
  }

  function Described(calls: seq<Call>): map<nat, Obj> {
    map k: nat | 0 < k <= |calls| :: ThingOf(calls, k)
  }

  // ---------------------------------------------------------- correspondence

  ghost predicate SameField(rs: seq<nat>, a: FieldVal, b: FieldVal) {
    match b
    case FScalar(_, _, _) => a == b
    case FRef(k) => 0 < k <= |rs| && a == FRef(rs[k - 1])
  }

  ghost predicate SameFields(rs: seq<nat>, fs: map<nat, FieldVal>, gs: map<nat, FieldVal>) {
    fs.Keys == gs.Keys && forall f :: f in gs ==> SameField(rs, fs[f], gs[f])
  }

  // The elements `os` are the objects of the calls `ks`.
  ghost predicate Elements(rs: seq<nat>, os: seq<nat>, ks: seq<nat>) {
    |os| == |ks| && forall i :: 0 <= i < |ks| ==> 0 < ks[i] <= |rs| && os[i] == rs[ks[i] - 1]
  }

  // The object built is the thing described, at the offsets of the calls named.
  ghost predicate Same(rs: seq<nat>, obj: Obj, thing: Obj) {
    match thing
    case OString(_) => obj == thing
    case OScalars(_, _) => obj == thing
    case ORefs(ks) => obj.ORefs? && Elements(rs, obj.refs, ks)
    case OTable(fields, _, _) => obj.OTable? && SameFields(rs, obj.fields, fields)
  }

  // Every call so far returned the offset of an object that is what it describes.
  ghost predicate Carries(objs: map<nat, Obj>, rs: seq<nat>, calls: seq<Call>) {
    && |rs| == |calls|
    && forall i :: 0 <= i < |calls| ==>
         && Names(calls[i], i)
         && 0 < rs[i] && rs[i] in objs
         && Same(rs, objs[rs[i]], Thing(calls[i]))
  }

  lemma SameGrows(rs: seq<nat>, r: nat, obj: Obj, thing: Obj)
    requires Same(rs, obj, thing)
    ensures Same(rs + [r], obj, thing)
  {
  }

  lemma CarriesMore(objs: map<nat, Obj>, more: map<nat, Obj>, rs: seq<nat>, calls: seq<Call>, r: nat, c: Call)
    requires Carries(objs, rs, calls) && forall o :: o in objs ==> o in more && more[o] == objs[o]
    requires Names(c, |calls|) && 0 < r && r in more && Same(rs, more[r], Thing(c))
    ensures Carries(more, rs + [r], calls + [c])
  {
    hide Same, Names;
    var rs', calls' := rs + [r], calls + [c];
    forall i | 0 <= i < |calls'|
      ensures Names(calls'[i], i) && 0 < rs'[i] && rs'[i] in more && Same(rs', more[rs'[i]], Thing(calls'[i]))
    {
      if i < |calls| {
        SameGrows(rs, r, more[rs[i]], Thing(calls[i]));
      } else {
        SameGrows(rs, r, more[r], Thing(c));
      }
    }
  }

  lemma CarriesStill(objs: map<nat, Obj>, more: map<nat, Obj>, rs: seq<nat>, calls: seq<Call>)
    requires Carries(objs, rs, calls) && forall o :: o in objs ==> o in more && more[o] == objs[o]
    ensures Carries(more, rs, calls)
  {
    hide Same, Names;
  }

  // ------------------------------------------------------------- single calls

  lemma {:induction false} PlacedFields(rs: seq<nat>, adds: seq<Add>)
    requires Names(NewTable(adds), |rs|) && forall i :: 0 <= i < |rs| ==> 0 < rs[i]
    ensures SameFields(rs, Fields(PlacedAll(rs, adds)), Fields(adds))
  {
    if adds != [] {
      var n := |adds| - 1;
      PlacedFields(rs, adds[..n]);
      assert PlacedAll(rs, adds)[..n] == PlacedAll(rs, adds[..n]);
      assert PlacedAll(rs, adds)[n] == Placed(rs, adds[n]);
    }
  }

  // What the step for a call leaves at the offset it returns.
  lemma StringStepMakes(w: World, s: seq<byte>, share: bool)
    requires Inv(w) && CanStep(w, Lowered(NewString(s), [], share))
    ensures var op := Lowered(NewString(s), [], share);
      Result(w, op) in Step(w, op).objs && Step(w, op).objs[Result(w, op)] == OString(s)
  {
    hide Inv, CanStep, CreateSharedString, CreateString;
  }

  lemma RefsStepMakes(w: World, refs: seq<nat>)
    requires Inv(w) && CanStep(w, MakeRefs(refs))
    ensures var op := MakeRefs(refs);
      Result(w, op) in Step(w, op).objs && Step(w, op).objs[Result(w, op)] == ORefs(refs)
  {
    RefsBelow(w, refs);
    hide Inv, CanStep, CreateOffsetVector;
  }

  lemma ScalarsStepMakes(w: World, size: nat, vals: seq<nat>)
    requires Inv(w) && CanStep(w, MakeScalars(size, vals))
    ensures var op := MakeScalars(size, vals);
      Result(w, op) in Step(w, op).objs && Step(w, op).objs[Result(w, op)] == OScalars(size, vals)
  {
    hide Inv, CreateScalarVector;
  }

  lemma TableStepMakes(w: World, adds: seq<Add>)
    requires Inv(w) && CanStep(w, MakeTable(adds))
    ensures var op := MakeTable(adds); var r := Result(w, op); var x := Step(w, op);
      r in x.objs && x.objs[r].OTable? && x.objs[r].fields == Fields(adds)
  {
    TableCanEnd(w, adds);
    hide Inv, InTable, EndTable, AddAll, CanEndTable, UsedVTable, OwnVTable, TableOffset, Fields;
  }

  lemma ResultPositive(w: World, op: Op)
    requires Inv(w) && CanStep(w, op) && Result(w, op) in Step(w, op).objs
    ensures 0 < Result(w, op)
  {
    StepKeeps(w, op);
    ObjectsBelow(Step(w, op));
    hide Inv, CanStep, Step, Result;
  }

  lemma OffsetsAt(rs: seq<nat>, ks: seq<nat>)
    requires Names(NewRefs(ks), |rs|)
    ensures Same(rs, ORefs(Offsets(rs, ks)), ORefs(ks))
  {
  }

  lemma StepMakes(w: World, op: Op, rs: seq<nat>, c: Call, share: bool)
    requires Inv(w) && CanStep(w, op) && op == Lowered(c, rs, share) && Names(c, |rs|)
    requires forall i :: 0 <= i < |rs| ==> 0 < rs[i]
    ensures Result(w, op) in Step(w, op).objs && Same(rs, Step(w, op).objs[Result(w, op)], Thing(c))
  {
    hide Inv, CanStep, Step, Result, SameFields;
    match c
    case NewString(s) => StringStepMakes(w, s, share);
    case NewRefs(ks) =>
      RefsStepMakes(w, Offsets(rs, ks));
      OffsetsAt(rs, ks);
    case NewScalars(size, vals) => ScalarsStepMakes(w, size, vals);
    case NewTable(adds) =>
      TableStepMakes(w, PlacedAll(rs, adds));
      PlacedFields(rs, adds);
  }

  // -------------------------------------------------------------- whole plays

  lemma {:induction false} PlayCarries(w: World, rs: seq<nat>, done: seq<Call>, calls: seq<Call>, ops: seq<Op>)
    requires Inv(w) && CanRun(w, ops) && Plays(w, rs, calls, ops) && Carries(w.objs, rs, done)
    ensures Carries(Run(w, ops).objs, Results(w, rs, ops), done + calls)
    decreases |ops|
  {
    hide Inv, CanStep, Step, Result, Carries, Same, Names, Lowered;
    if ops == [] {
      assert done + calls == done;
    } else {
      StepKeeps(w, ops[0]);
      StepPreserves(w, ops[0]);
      var x := Step(w, ops[0]);
      if Switch(ops[0]) {
        CarriesStill(w.objs, x.objs, rs, done);
        PlayCarries(x, rs, done, calls, ops[1..]);
      } else {
        var r := Result(w, ops[0]);
        CallCarries(w, ops[0], rs, done, calls[0]);
        PlayCarries(x, rs + [r], done + [calls[0]], calls[1..], ops[1..]);
        assert done + [calls[0]] + calls[1..] == done + calls;
      }
    }
  }

  lemma CarriesFacts(objs: map<nat, Obj>, rs: seq<nat>, calls: seq<Call>)
    requires Carries(objs, rs, calls)
    ensures |rs| == |calls| && forall i :: 0 <= i < |rs| ==> 0 < rs[i]
  {
    hide Same, Names;
  }

  lemma CallCarries(w: World, op: Op, rs: seq<nat>, done: seq<Call>, c: Call)
    requires Inv(w) && CanStep(w, op) && Carries(w.objs, rs, done) && Names(c, |rs|)
    requires op == Lowered(c, rs, true) || op == Lowered(c, rs, false)
    ensures Carries(Step(w, op).objs, rs + [Result(w, op)], done + [c])
  {
    hide Inv, CanStep, Step, Result, Carries, Same, Names, Lowered, Extends;
    StepPreserves(w, op);
    CarriesFacts(w.objs, rs, done);
    StepMakes(w, op, rs, c, op == Lowered(c, rs, true));
    ResultPositive(w, op);
    CarriesMore(w.objs, Step(w, op).objs, rs, done, Result(w, op), c);
  }

  // ------------------------------------------------------ one set of settings

  datatype Settings = Settings(share: bool, dedup: bool, forceDefaults: bool)

  ghost function Prepared(f: Settings): (w: World)
    ensures Inv(w)
  {
    StartInv();
    StepKeeps(Start, DedupVtables(f.dedup));
    var w := Step(Start, DedupVtables(f.dedup));
    StepKeeps(w, ForceDefaults(f.forceDefaults));
    Step(w, ForceDefaults(f.forceDefaults))
  }

  // Each call stays within the limits the assertions of the builder set.
  ghost predicate Fits(w: World, rs: seq<nat>, calls: seq<Call>, share: bool)
    requires Inv(w)
    decreases |calls|
  {
    calls == [] ||
      var op := Lowered(calls[0], rs, share);
      && Names(calls[0], |rs|)
      && CanStep(w, op)
      && (StepKeeps(w, op); Fits(Step(w, op), rs + [Result(w, op)], calls[1..], share))
  }

  ghost function Compiled(w: World, rs: seq<nat>, calls: seq<Call>, share: bool): seq<Op>
    requires Inv(w) && Fits(w, rs, calls, share)
    decreases |calls|
  {
    if calls == [] then []
    else
      var op := Lowered(calls[0], rs, share);
      StepKeeps(w, op);
      [op] + Compiled(Step(w, op), rs + [Result(w, op)], calls[1..], share)
  }

  // The program under the settings.
  ghost function Played(calls: seq<Call>, f: Settings): seq<Op>
    requires Fits(Prepared(f), [], calls, f.share)
  {
    [DedupVtables(f.dedup)] + ([ForceDefaults(f.forceDefaults)] + Compiled(Prepared(f), [], calls, f.share))
  }

  lemma {:induction false} CompiledPlays(w: World, rs: seq<nat>, calls: seq<Call>, share: bool)
    requires Inv(w) && Fits(w, rs, calls, share)
    ensures CanRun(w, Compiled(w, rs, calls, share))
    ensures Plays(w, rs, calls, Compiled(w, rs, calls, share))
    decreases |calls|
  {
    hide Inv, CanStep, Step, Result, Lowered, Names;
    if calls != [] {
      var op := Lowered(calls[0], rs, share);
      StepKeeps(w, op);
      CompiledPlays(Step(w, op), rs + [Result(w, op)], calls[1..], share);
      var rest := Compiled(Step(w, op), rs + [Result(w, op)], calls[1..], share);
      assert ([op] + rest)[1..] == rest;
      LoweredIsNoSwitch(calls[0], rs, share);
    }
  }

  lemma LoweredIsNoSwitch(c: Call, rs: seq<nat>, share: bool)
    ensures !Switch(Lowered(c, rs, share))
  {
  }

  // Throwing a switch first is part of a play.
  lemma SwitchPlays(w: World, rs: seq<nat>, calls: seq<Call>, op: Op, ops: seq<Op>)
    requires Inv(w) && Switch(op) && CanStep(w, op) && Inv(Step(w, op))
    requires CanRun(Step(w, op), ops) && Plays(Step(w, op), rs, calls, ops)
    ensures CanRun(w, [op] + ops) && Plays(w, rs, calls, [op] + ops)
  {
    hide Inv, CanStep, Step, Result, Lowered, Names;
    assert ([op] + ops)[1..] == ops;
  }

  // A program that fits can be played under the settings.
  lemma PlayedPlays(calls: seq<Call>, f: Settings)
    requires Fits(Prepared(f), [], calls, f.share)
    ensures Inv(Start) && CanRun(Start, Played(calls, f)) && Plays(Start, [], calls, Played(calls, f))
  {
    hide Inv, Fits, CanRun, Plays, Compiled;
    StartInv();
    var a, b := DedupVtables(f.dedup), ForceDefaults(f.forceDefaults);
    StepKeeps(Start, a);
    StepKeeps(Step(Start, a), b);
    CompiledPlays(Prepared(f), [], calls, f.share);
    var ops := Compiled(Prepared(f), [], calls, f.share);
    SwitchPlays(Step(Start, a), [], calls, b, ops);
    SwitchPlays(Start, [], calls, a, [b] + ops);
  }

  // --------------------------------------------- every run plays some program

  // Every object so far is the result of a call.
  ghost predicate Covered(objs: map<nat, Obj>, rs: seq<nat>) {
    forall o :: o in objs ==> 0 < o && o in rs
  }

  // A call that returned the offset.
  function CallOf(rs: seq<nat>, o: nat): (k: nat)
    ensures k <= |rs|
    ensures o in rs ==> 0 < k && rs[k - 1] == o
  {
    if rs == [] then 0
    else if rs[|rs| - 1] == o then |rs|
    else CallOf(rs[..|rs| - 1], o)
  }

  function Named(rs: seq<nat>, a: Add): Add {
    match a
    case AddScalar(_, _, _, _) => a
    case AddRef(id, ref) => AddRef(id, if ref == 0 then 0 else CallOf(rs, ref))
  }

  function Raised(op: Op, rs: seq<nat>): Call
    requires !Switch(op)
  {
    match op
    case MakeString(s) => NewString(s)
    case MakeSharedString(s) => NewString(s)
    case MakeRefs(refs) => NewRefs(seq(|refs|, i requires 0 <= i < |refs| => CallOf(rs, refs[i])))
    case MakeScalars(size, vals) => NewScalars(size, vals)
    case MakeTable(adds) => NewTable(seq(|adds|, i requires 0 <= i < |adds| => Named(rs, adds[i])))
  }

  lemma RaisedLowers(w: World, op: Op, rs: seq<nat>)
    requires Covered(w.objs, rs) && !Switch(op) && CanStep(w, op)
    ensures Names(Raised(op, rs), |rs|)
    ensures op == Lowered(Raised(op, rs), rs, op.MakeSharedString?)
  {
    match op
    case MakeRefs(refs) =>
      assert Offsets(rs, Raised(op, rs).refs) == refs;
    case MakeTable(adds) =>
      var named := Raised(op, rs).adds;
      forall i | 0 <= i < |adds| ensures PlacedAll(rs, named)[i] == adds[i] {
        assert adds[i].AddRef? && adds[i].ref != 0 ==> adds[i].ref in w.objs;
      }
      assert PlacedAll(rs, named) == adds;
    case _ =>
  }

  lemma StepCovered(w: World, op: Op, rs: seq<nat>)
    requires Inv(w) && CanStep(w, op) && Covered(w.objs, rs) && !Switch(op)
    ensures Covered(Step(w, op).objs, rs + [Result(w, op)])
  {
    StepKeeps(w, op);
    ObjectsBelow(Step(w, op));
    hide Inv, CanStep, CreateString, CreateSharedString, CreateOffsetVector, CreateScalarVector, AddAll, EndTable,
      UsedVTable, OwnVTable, InTable, CanEndTable, TableOffset, Fields;
  }

  lemma {:induction false} EveryRunPlays(w: World, rs: seq<nat>, ops: seq<Op>) returns (calls: seq<Call>)
    requires Inv(w) && CanRun(w, ops) && Covered(w.objs, rs)
    ensures Plays(w, rs, calls, ops)
    decreases |ops|
  {
    hide Inv, CanStep, Step, Result, Lowered, Names, Covered, Raised;
    if ops == [] {
      calls := [];
    } else {
      StepKeeps(w, ops[0]);
      var x := Step(w, ops[0]);
      if Switch(ops[0]) {
        SwitchCovered(w, ops[0], rs);
        calls := EveryRunPlays(x, rs, ops[1..]);
      } else {
        RaisedLowers(w, ops[0], rs);
        StepCovered(w, ops[0], rs);
        var rest := EveryRunPlays(x, rs + [Result(w, ops[0])], ops[1..]);
        calls := [Raised(ops[0], rs)] + rest;
        assert calls[1..] == rest;
      }
    }
  }

  lemma SwitchCovered(w: World, op: Op, rs: seq<nat>)
    requires Inv(w) && CanStep(w, op) && Covered(w.objs, rs) && Switch(op)
    ensures Covered(Step(w, op).objs, rs)
  {
    hide Inv;
  }

  // Any legal run from the start is a play of a program.
  lemma RunsArePlays(ops: seq<Op>) returns (calls: seq<Call>)
    requires (StartInv(); CanRun(Start, ops))
    ensures Inv(Start) && Plays(Start, [], calls, ops)
  {
    StartInv();
    assert Covered(Start.objs, []);
    hide Inv, CanRun, Plays, Covered;
    calls := EveryRunPlays(Start, [], ops);
  }
}
