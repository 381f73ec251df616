// Every legal step keeps the invariant of a run, so every run does.
module RunInvariant {
  import opened Bytes
  import opened Alignment
  import opened Ordering
  import opened BuilderSpec
  import opened Layout
  import opened Writing
  import opened Tables
  import opened Runs

  lemma ObjectsKept(st: State, t: State, objs: map<nat, Obj>)
    requires ObjectsAt(st, objs) && Extends(st.data, t.data) && |st.data| <= |t.data|
    requires IsAlignment(st.minalign) && IsAlignment(t.minalign) && st.minalign <= t.minalign
    ensures ObjectsAt(t, objs)
  {
    hide ObjAt, Extends;
    forall o | o in objs ensures 4 <= o <= |t.data| && ObjAt(t.data, t.minalign, o, objs[o]) {
      ObjStable(st.data, t.data, st.minalign, t.minalign, o, objs[o]);
    }
  }

  // One more object at a fresh offset.
  lemma ObjectAdded(w: World, t: State, o: nat, obj: Obj)
    requires Inv(w) && Grew(w.st, t.(vtables := w.st.vtables)) && t.minalign >= 4
    requires |w.st.data| < o <= |t.data| && 4 <= o && ObjAt(t.data, t.minalign, o, obj)
    requires forall r :: r in Refs(obj) ==> r in w.objs
    requires LiveVTables(t.data, t.vtables) && forall v :: v in w.st.vtables ==> v in t.vtables
    requires obj.OTable? ==> obj.vtOff in t.vtables
    ensures Inv(w.(st := t, objs := w.objs[o := obj]))
  {
    hide ObjAt, Extends, LiveVTable, Refs;
    ObjectsBelow(w);
    ObjectsKept(w.st, t, w.objs);
    var objs := w.objs[o := obj];
    assert o !in w.objs;
    assert ObjectsAt(t, objs);
    assert Closed(objs);
    assert PoolKnown(w.pool, objs);
  }

  lemma InvFacts(w: World)
    requires Inv(w)
    ensures Idle(w.st) && LiveVTables(w.st.data, w.st.vtables)
  {
  }

  // A string or vector built at the front of the buffer.
  lemma NewObject(w: World, t: State, obj: Obj)
    requires Inv(w) && Grew(w.st, t) && t.minalign >= 4
    requires |w.st.data| < |t.data| && 4 <= |t.data| && ObjAt(t.data, t.minalign, |t.data|, obj) && !obj.OTable?
    requires forall r :: r in Refs(obj) ==> r in w.objs
    ensures Inv(w.(st := t, objs := w.objs[|t.data| := obj]))
  {
    hide ObjAt, Extends, LiveVTable, Refs;
    InvFacts(w);
    LiveVTablesStable(w.st.data, t.data, t.vtables);
    ObjectAdded(w, t, |t.data|, obj);
  }

  lemma MakeStringKeeps(w: World, s: seq<byte>)
    requires Inv(w) && CanStep(w, MakeString(s))
    ensures Inv(Step(w, MakeString(s)))
  {
    hide Extends, Inv, CreateString, LiveVTables;
    InvFacts(w);
    CreateStringWrites(w.st, s);
    NewObject(w, CreateString(w.st, s), OString(s));
  }

  lemma MakeRefsKeeps(w: World, refs: seq<nat>)
    requires Inv(w) && CanStep(w, MakeRefs(refs))
    ensures Inv(Step(w, MakeRefs(refs)))
  {
    hide Extends, Inv, CreateOffsetVector, LiveVTables;
    InvFacts(w);
    RefsBelow(w, refs);
    CreateOffsetVectorWrites(w.st, refs);
    NewObject(w, CreateOffsetVector(w.st, refs), ORefs(refs));
  }

  lemma MakeScalarsKeeps(w: World, s: nat, vals: seq<nat>)
    requires Inv(w) && CanStep(w, MakeScalars(s, vals))
    ensures Inv(Step(w, MakeScalars(s, vals)))
  {
    hide Extends, Inv, CreateScalarVector, LiveVTables;
    InvFacts(w);
    CreateScalarVectorWrites(w.st, s, vals);
    NewObject(w, CreateScalarVector(w.st, s, vals), OScalars(s, vals));
  }

  lemma {:induction false} FieldRefsKnown(adds: seq<Add>, objs: map<nat, Obj>, f: nat)
    requires AddsKnown(adds, objs) && f in Fields(adds) && Fields(adds)[f].FRef?
    ensures Fields(adds)[f].ref in objs
  {
    var n := |adds| - 1;
    var before := adds[..n];
    if f in Fields(before) && Fields(adds)[f] == Fields(before)[f] {
      assert AddsKnown(before, objs);
      FieldRefsKnown(before, objs, f);
    } else {
      assert adds[n].AddRef? && adds[n].ref != 0;
    }
  }

  lemma MakeTableKeeps(w: World, adds: seq<Add>)
    requires Inv(w) && CanStep(w, MakeTable(adds))
    ensures Inv(Step(w, MakeTable(adds)))
  {
    hide Extends, Inv, EndTable, LiveVTable, AddAll, PushElement, TableAt, InTable, UsedVTable, OwnVTable;
    InvFacts(w);
    TableCanEnd(w, adds);
    var t := AddAll(w.st, adds);
    var v, vt := EndTableWrites(w.st, t, adds);
    var u := EndTable(t, |w.st.data|);
    forall r | r in Refs(OTable(Fields(adds), v, vt)) ensures r in w.objs {
      var f :| f in Fields(adds) && Fields(adds)[f].FRef? && Fields(adds)[f].ref == r;
      FieldRefsKnown(adds, w.objs, f);
    }
    ObjectAdded(w, u, TableOffset(t), OTable(Fields(adds), v, vt));
  }

  // ------------------------------------------------------- shared strings

  lemma StoredString(d: seq<byte>, o: nat, s: seq<byte>)
    requires StringAt(d, o, s) && |d| < MAX_BUFFER_SIZE
    ensures Stored(d, o) == s
  {
    RangeAt();
    LEFits(4, |s|);
  }

  // Looking a string up finds the offset that holds the same contents, or nothing.
  lemma {:induction false} FindSharedFinds(d: seq<byte>, pool: seq<nat>, off: nat)
    ensures var hit := FindShared(d, pool, off);
      || (hit in pool && Stored(d, hit) == Stored(d, off))
      || (hit == 0 && forall p :: p in pool ==> Stored(d, p) != Stored(d, off))
  {
    if pool != [] {
      FindSharedFinds(d, pool[1..], off);
      StringOrderIsStrictTotal(Stored(d, pool[0]), Stored(d, off), []);
    }
  }

  // The pool knows exactly the contents it was given.
  lemma PoolContents(w: World, d: seq<byte>, p: nat)
    requires Inv(w) && p in w.pool && Extends(w.st.data, d) && |d| < MAX_BUFFER_SIZE
    ensures w.objs[p].OString? && Stored(d, p) == w.objs[p].chars && 0 < p
  {
    hide Extends, StringAt, LiveVTables, Closed;
    StringStable(w.st.data, d, p, w.objs[p].chars);
    StoredString(d, p, w.objs[p].chars);
  }

  ghost predicate Pooled(w: World, s: seq<byte>) {
    exists p :: p in w.pool && p in w.objs && w.objs[p] == OString(s)
  }

  lemma Lookup(w: World, d: seq<byte>, off: nat, s: seq<byte>)
    requires Stored(d, off) == s
    requires forall p :: p in w.pool ==> p in w.objs && w.objs[p].OString? && Stored(d, p) == w.objs[p].chars && 0 < p
    ensures var hit := FindShared(d, w.pool, off);
      && (hit != 0 <==> Pooled(w, s))
      && (hit != 0 ==> hit in w.pool && hit in w.objs && w.objs[hit] == OString(s))
  {
    hide FindShared, Stored;
    FindSharedFinds(d, w.pool, off);
  }

  lemma LookupAfterWrite(w: World, s: seq<byte>)
    requires Inv(w) && |s| < MAX_BUFFER_SIZE && |CreateString(w.st, s).data| < MAX_BUFFER_SIZE
    ensures var d := CreateString(w.st, s).data; var hit := FindShared(d, w.pool, |d|);
      && (hit != 0 <==> Pooled(w, s))
      && (hit != 0 ==> hit in w.pool && hit in w.objs && w.objs[hit] == OString(s))
    ensures Grew(w.st, CreateString(w.st, s))
    ensures Pooled(w, s) ==> CreateString(w.st, s).minalign == w.st.minalign
  {
    var d := CreateString(w.st, s).data;
    InvFacts(w);
    CreateStringWrites(w.st, s);
    hide Extends, StringAt, LiveVTables, Closed, CreateString, ObjectsAt, FindShared, Stored, VTablesKnown;
    StoredString(d, |d|, s);
    forall p | p in w.pool ensures p in w.objs && w.objs[p].OString? && Stored(d, p) == w.objs[p].chars && 0 < p {
      PoolContents(w, d, p);
    }
    Lookup(w, d, |d|, s);
  }

  // Same contents, same offset: a hit leaves the builder exactly as it was.
  // New contents get a new offset.
  lemma SharedStringShares(w: World, s: seq<byte>)
    requires Inv(w) && |s| < MAX_BUFFER_SIZE && |CreateString(w.st, s).data| < MAX_BUFFER_SIZE
    ensures var (t, pool, off) := CreateSharedString(w.st, w.pool, s);
      if Pooled(w, s)
      then off in w.pool && off in w.objs && w.objs[off] == OString(s) && t == w.st && pool == w.pool
      else off == |t.data| && t == CreateString(w.st, s) && pool == w.pool + [off]
  {
    var t := CreateString(w.st, s);
    var hit := FindShared(t.data, w.pool, |t.data|);
    hide Inv, Pooled, CreateString, FindShared, Grew;
    LookupAfterWrite(w, s);
    SharedResult(w.st, w.pool, s, t, hit);
    hide CreateSharedString;
    if Pooled(w, s) {
      PopRestores(w.st, t);
    }
  }

  lemma SharedResult(st: State, pool: seq<nat>, s: seq<byte>, t: State, hit: nat)
    requires t == CreateString(st, s) && |st.data| <= |t.data| && hit == FindShared(t.data, pool, |t.data|)
    ensures CreateSharedString(st, pool, s)
         == if hit != 0 then (t.(data := t.data[|t.data| - |st.data|..]), pool, hit)
            else (t, pool + [|t.data|], |t.data|)
  {
    hide CreateString, FindShared;
  }

  lemma PopRestores(st: State, t: State)
    requires Grew(st, t) && t.minalign == st.minalign
    ensures t.(data := t.data[|t.data| - |st.data|..]) == st
  {
  }

  lemma PoolGrows(w: World, t: State, o: nat, s: seq<byte>)
    requires Inv(w) && !Pooled(w, s) && o !in w.objs
    requires Inv(w.(st := t, objs := w.objs[o := OString(s)]))
    ensures Inv(w.(st := t, pool := w.pool + [o], objs := w.objs[o := OString(s)]))
  {
    hide ObjectsAt, LiveVTables, Closed, VTablesKnown, Idle;
    var pool, objs := w.pool + [o], w.objs[o := OString(s)];
    forall i, j | 0 <= i < j < |pool| ensures objs[pool[i]] != objs[pool[j]] {
      if j == |w.pool| {
        assert w.objs[pool[i]] != OString(s);
      }
    }
  }

  lemma MakeSharedStringKeeps(w: World, s: seq<byte>)
    requires Inv(w) && CanStep(w, MakeSharedString(s))
    ensures Inv(Step(w, MakeSharedString(s)))
  {
    SharedStringShares(w, s);
    MakeStringKeeps(w, s);
    FreshOffset(w, s);
    hide Inv, CreateSharedString, CreateString, Pooled;
    var (t, pool, off) := CreateSharedString(w.st, w.pool, s);
    if Pooled(w, s) {
      assert w.objs[off := OString(s)] == w.objs;
    } else {
      PoolGrows(w, t, off, s);
    }
  }

  lemma FreshOffset(w: World, s: seq<byte>)
    requires Inv(w) && |s| < MAX_BUFFER_SIZE
    ensures |CreateString(w.st, s).data| !in w.objs
  {
    InvFacts(w);
    CreateStringWrites(w.st, s);
    ObjectsBelow(w);
  }

  // ------------------------------------------------------------- whole runs

  lemma StepKeeps(w: World, op: Op)
    requires Inv(w) && CanStep(w, op)
    ensures Inv(Step(w, op))
  {
    hide Step, CanStep;
    match op
    case MakeString(s) => MakeStringKeeps(w, s);
    case MakeSharedString(s) => MakeSharedStringKeeps(w, s);
    case MakeRefs(refs) => MakeRefsKeeps(w, refs);
    case MakeScalars(s, vals) => MakeScalarsKeeps(w, s, vals);
    case MakeTable(adds) => MakeTableKeeps(w, adds);
    case ForceDefaults(on) => SwitchKeeps(w, op);
    case DedupVtables(on) => SwitchKeeps(w, op);
  }

  lemma SwitchKeeps(w: World, op: Op)
    requires Inv(w) && (op.ForceDefaults? || op.DedupVtables?)
    ensures Inv(Step(w, op))
  {
    hide ObjAt, LiveVTable, Refs;
  }

  // A run is legal when each call is, in the state the earlier calls left.
  ghost predicate CanRun(w: World, ops: seq<Op>)
    requires Inv(w)
    decreases |ops|
  {
    ops == [] || (CanStep(w, ops[0]) && (StepKeeps(w, ops[0]); CanRun(Step(w, ops[0]), ops[1..])))
  }

  ghost function Run(w: World, ops: seq<Op>): (r: World)
    requires Inv(w) && CanRun(w, ops)
    ensures Inv(r)
    decreases |ops|
  {
    if ops == [] then w
    else
      StepKeeps(w, ops[0]);
      Run(Step(w, ops[0]), ops[1..])
  }

  lemma StartInv()
    ensures Inv(Start)
  {
  }

  // ------------------------------------------- nothing built ever changes

  ghost predicate Preserves(w: World, x: World) {
    && Extends(w.st.data, x.st.data)
    && (forall o :: o in w.objs ==> o in x.objs && x.objs[o] == w.objs[o])
  }

  lemma PreservesTransitive(w: World, x: World, y: World)
    requires Preserves(w, x) && Preserves(x, y)
    ensures Preserves(w, y)
  {
    ExtendsTransitive(w.st.data, x.st.data, y.st.data);
  }

  lemma AddedPreserves(w: World, x: World, o: nat, obj: Obj)
    requires Inv(w) && Extends(w.st.data, x.st.data) && o > |w.st.data| && x.objs == w.objs[o := obj]
    ensures Preserves(w, x) && o in x.objs
  {
    ObjectsBelow(w);
    hide Inv, Extends;
  }

  lemma SamePreserves(w: World, x: World)
    requires x.st.data == w.st.data && x.objs == w.objs
    ensures Preserves(w, x)
  {
    ExtendsBy([], w.st.data);
    assert [] + w.st.data == w.st.data;
  }

  lemma StringPreserves(w: World, s: seq<byte>)
    requires Inv(w) && CanStep(w, MakeString(s))
    ensures Preserves(w, Step(w, MakeString(s)))
  {
    InvFacts(w);
    CreateStringWrites(w.st, s);
    hide Inv, CreateString, StringAt, Extends, Preserves;
    AddedPreserves(w, Step(w, MakeString(s)), |CreateString(w.st, s).data|, OString(s));
  }

  lemma SharedStep(w: World, s: seq<byte>)
    requires Inv(w) && CanStep(w, MakeSharedString(s))
    ensures var (t, pool, off) := CreateSharedString(w.st, w.pool, s);
      Step(w, MakeSharedString(s)) == w.(st := t, pool := pool, objs := w.objs[off := OString(s)])
  {
    hide Inv, CreateSharedString;
  }

  lemma AgainPreserves(w: World, x: World, o: nat, obj: Obj)
    requires o in w.objs && w.objs[o] == obj && x.st == w.st && x.objs == w.objs[o := obj]
    ensures Preserves(w, x)
  {
    assert w.objs[o := obj] == w.objs;
    SamePreserves(w, x);
  }

  lemma GrewExtends(st: State, t: State)
    requires Grew(st, t)
    ensures Extends(st.data, t.data)
  {
  }

  lemma SharedPreserves(w: World, s: seq<byte>)
    requires Inv(w) && CanStep(w, MakeSharedString(s))
    ensures Preserves(w, Step(w, MakeSharedString(s)))
  {
    SharedStringShares(w, s);
    var x := Step(w, MakeSharedString(s));
    var (t, pool, off) := CreateSharedString(w.st, w.pool, s);
    SharedStep(w, s);
    hide Inv, CreateString, CreateSharedString, StringAt, Extends, Pooled, Step, Preserves, CanStep, Grew;
    InvFacts(w);
    CreateStringWrites(w.st, s);
    GrewExtends(w.st, CreateString(w.st, s));
    if Pooled(w, s) {
      AgainPreserves(w, x, off, OString(s));
    } else {
      AddedPreserves(w, x, off, OString(s));
    }
  }

  lemma RefsPreserves(w: World, refs: seq<nat>)
    requires Inv(w) && CanStep(w, MakeRefs(refs))
    ensures Preserves(w, Step(w, MakeRefs(refs)))
  {
    InvFacts(w);
    RefsBelow(w, refs);
    CreateOffsetVectorWrites(w.st, refs);
    hide Inv, CreateOffsetVector, RefsAt, Extends, Preserves;
    AddedPreserves(w, Step(w, MakeRefs(refs)), |CreateOffsetVector(w.st, refs).data|, ORefs(refs));
  }

  lemma ScalarsPreserves(w: World, s: nat, vals: seq<nat>)
    requires Inv(w) && CanStep(w, MakeScalars(s, vals))
    ensures Preserves(w, Step(w, MakeScalars(s, vals)))
  {
    InvFacts(w);
    CreateScalarVectorWrites(w.st, s, vals);
    hide Inv, CreateScalarVector, ScalarsAt, Extends, Preserves;
    AddedPreserves(w, Step(w, MakeScalars(s, vals)), |CreateScalarVector(w.st, s, vals).data|, OScalars(s, vals));
  }

  lemma TablePreserves(w: World, adds: seq<Add>)
    requires Inv(w) && CanStep(w, MakeTable(adds))
    ensures Preserves(w, Step(w, MakeTable(adds)))
  {
    InvFacts(w);
    TableCanEnd(w, adds);
    var t := AddAll(w.st, adds);
    var v, vt := EndTableWrites(w.st, t, adds);
    var x := Step(w, MakeTable(adds));
    var u := EndTable(t, |w.st.data|);
    assert x.st == u && x.objs == w.objs[TableOffset(t) := OTable(Fields(adds), v, vt)];
    hide Extends, Inv, EndTable, AddAll, TableAt, InTable, UsedVTable, OwnVTable, LiveVTables, PushElement, Step, Preserves, CanStep;
    AddedPreserves(w, x, TableOffset(t), OTable(Fields(adds), v, vt));
  }

  lemma StepPreserves(w: World, op: Op)
    requires Inv(w) && CanStep(w, op)
    ensures Preserves(w, Step(w, op))
  {
    hide Inv, CanStep, Preserves;
    match op
    case MakeString(s) => StringPreserves(w, s);
    case MakeSharedString(s) => SharedPreserves(w, s);
    case MakeRefs(refs) => RefsPreserves(w, refs);
    case MakeScalars(s, vals) => ScalarsPreserves(w, s, vals);
    case MakeTable(adds) => TablePreserves(w, adds);
    case ForceDefaults(on) => SamePreserves(w, Step(w, op));
    case DedupVtables(on) => SamePreserves(w, Step(w, op));
  }

  // Over a whole run, every object keeps its offset and its bytes.
  lemma {:induction false} RunPreserves(w: World, ops: seq<Op>)
    requires Inv(w) && CanRun(w, ops)
    ensures Preserves(w, Run(w, ops))
    decreases |ops|
  {
    hide Inv, Step, CanStep, Extends;
    if ops == [] {
      ExtendsBy([], w.st.data);
      assert [] + w.st.data == w.st.data;
    } else {
      StepKeeps(w, ops[0]);
      var x := Step(w, ops[0]);
      StepPreserves(w, ops[0]);
      RunPreserves(x, ops[1..]);
      PreservesTransitive(w, x, Run(x, ops[1..]));
    }
  }

  // ------------------------------------------------- sharing over whole runs

  lemma StepPool(w: World, op: Op)
    requires Inv(w) && CanStep(w, op)
    ensures w.pool <= Step(w, op).pool
  {
    if op.MakeSharedString? {
      SharedStringShares(w, op.chars);
      hide Inv, CanStep, CreateSharedString, CreateString, Pooled;
    } else {
      hide Inv, CanStep;
    }
  }

  // The pool is never reordered and never forgets.
  lemma {:induction false} RunPool(w: World, ops: seq<Op>)
    requires Inv(w) && CanRun(w, ops)
    ensures w.pool <= Run(w, ops).pool
    decreases |ops|
  {
    hide Inv, Step, CanStep;
    if ops != [] {
      StepKeeps(w, ops[0]);
      StepPool(w, ops[0]);
      RunPool(Step(w, ops[0]), ops[1..]);
    }
  }

  // A shared string is in the pool at the offset the call returned.
  lemma SharedIsPooled(w: World, s: seq<byte>)
    requires Inv(w) && CanStep(w, MakeSharedString(s))
    ensures var op := MakeSharedString(s); var a := Step(w, op);
      Result(w, op) in a.pool && Result(w, op) in a.objs && a.objs[Result(w, op)] == OString(s)
  {
    SharedStringShares(w, s);
    hide Inv, CanStep, CreateSharedString, CreateString, Pooled;
  }

  lemma PooledElsewhere(w: World, p: nat, s: seq<byte>)
    requires Inv(w) && CanStep(w, MakeSharedString(s))
    requires p in w.pool && p in w.objs && w.objs[p] == OString(s)
    ensures Result(w, MakeSharedString(s)) == p && Step(w, MakeSharedString(s)).st == w.st
  {
    SharedStringShares(w, s);
    assert Pooled(w, s);
    var q := Result(w, MakeSharedString(s));
    assert q in w.pool && w.objs[q] == OString(s);
    assert PoolKnown(w.pool, w.objs);
    hide Inv, CanStep, CreateSharedString, CreateString, Pooled;
    var i :| 0 <= i < |w.pool| && w.pool[i] == p;
    var j :| 0 <= j < |w.pool| && w.pool[j] == q;
  }

  // Over a whole run the same contents always yield the same offset, and add
  // no byte; different contents never yield that offset.
  lemma StringsAreShared(w: World, s: seq<byte>, ops: seq<Op>, t: seq<byte>)
    requires Inv(w) && CanStep(w, MakeSharedString(s))
    requires (StepKeeps(w, MakeSharedString(s)); CanRun(Step(w, MakeSharedString(s)), ops))
    requires CanStep(Run(Step(w, MakeSharedString(s)), ops), MakeSharedString(t))
    ensures var b := Run(Step(w, MakeSharedString(s)), ops);
      && (s == t ==> Result(b, MakeSharedString(t)) == Result(w, MakeSharedString(s)))
      && (s == t ==> Step(b, MakeSharedString(t)).st == b.st)
      && (s != t ==> Result(b, MakeSharedString(t)) != Result(w, MakeSharedString(s)))
  {
    StepKeeps(w, MakeSharedString(s));
    var a := Step(w, MakeSharedString(s));
    var b := Run(a, ops);
    var p := Result(w, MakeSharedString(s));
    SharedIsPooled(w, s);
    RunPreserves(a, ops);
    RunPool(a, ops);
    hide Inv, CanStep, Step, Result, CanRun, Run, Extends;
    assert p in b.pool && p in b.objs && b.objs[p] == OString(s);
    if s == t {
      PooledElsewhere(b, p, s);
    } else {
      SharedIsPooled(b, t);
      StepPreserves(b, MakeSharedString(t));
    }
  }

  // ---------------------------------------------------------------- vtables

  ghost function VTableOf(d: seq<byte>, v: nat): seq<byte> {
    if VTableReadable(d, v) then At(d, v, FromLE(At(d, v, 2))) else []
  }

  ghost predicate DifferentVTables(d: seq<byte>, vtables: seq<nat>) {
    forall i, j :: 0 <= i < j < |vtables| ==> VTableOf(d, vtables[i]) != VTableOf(d, vtables[j])
  }

  ghost predicate VTablesUsed(w: World) {
    forall v :: v in w.st.vtables ==> exists o :: o in w.objs && w.objs[o].OTable? && w.objs[o].vtOff == v
  }

  // The remembered vtables are those of the tables, pairwise different if
  // deduplication was never switched off.
  ghost predicate Tidy(w: World) {
    && VTablesUsed(w)
    && (w.alwaysDedup ==> w.st.dedup && DifferentVTables(w.st.data, w.st.vtables))
  }

  lemma LiveVTableOf(d: seq<byte>, e: seq<byte>, v: nat)
    requires LiveVTable(d, v) && Extends(d, e)
    ensures VTableOf(e, v) == VTableOf(d, v)
  {
    LiveVTableStable(d, e, v);
  }

  lemma DifferentStable(d: seq<byte>, e: seq<byte>, vtables: seq<nat>)
    requires LiveVTables(d, vtables) && Extends(d, e) && DifferentVTables(d, vtables)
    ensures DifferentVTables(e, vtables)
  {
    hide LiveVTable, Extends, VTableOf;
    forall i | 0 <= i < |vtables| ensures VTableOf(e, vtables[i]) == VTableOf(d, vtables[i]) {
      LiveVTableOf(d, e, vtables[i]);
    }
  }

  lemma NovelIsDifferent(p: seq<byte>, vtables: seq<nat>, vt: seq<byte>, v: nat)
    requires Novel(p, vtables, vt) && v in vtables && LiveVTable(p, v)
    ensures VTableOf(p, v) != vt
  {
  }

  lemma MoreDifferent(d: seq<byte>, p: seq<byte>, e: seq<byte>, vtables: seq<nat>, v: nat, vt: seq<byte>)
    requires LiveVTables(d, vtables) && Extends(d, e) && Extends(d, p) && DifferentVTables(d, vtables)
    requires Novel(p, vtables, vt) && VTableAt(e, v, vt)
    ensures DifferentVTables(e, vtables + [v])
  {
    DifferentStable(d, e, vtables);
    VTableIsLive(e, v, vt);
    assert VTableOf(e, v) == vt;
    hide LiveVTable, Extends, VTableOf, Novel, VTableAt;
    forall i | 0 <= i < |vtables| ensures VTableOf(e, vtables[i]) != vt {
      LiveVTableOf(d, e, vtables[i]);
      LiveVTableOf(d, p, vtables[i]);
      LiveVTableStable(d, p, vtables[i]);
      NovelIsDifferent(p, vtables, vt, vtables[i]);
    }
  }

  lemma VTablesUsedKept(w: World, x: World)
    requires VTablesUsed(w) && x.st.vtables == w.st.vtables
    requires forall o :: o in w.objs ==> o in x.objs && x.objs[o] == w.objs[o]
    ensures VTablesUsed(x)
  {
    forall v | v in x.st.vtables ensures exists o :: o in x.objs && x.objs[o].OTable? && x.objs[o].vtOff == v {
      var o :| o in w.objs && w.objs[o].OTable? && w.objs[o].vtOff == v;
      assert o in x.objs && x.objs[o].OTable? && x.objs[o].vtOff == v;
    }
  }

  // Steps that build no table leave the remembered vtables alone.
  lemma SameVTablesTidy(w: World, x: World)
    requires Inv(w) && Tidy(w) && Preserves(w, x) && x.st.vtables == w.st.vtables
    requires x.alwaysDedup ==> w.alwaysDedup && x.st.dedup
    ensures Tidy(x)
  {
    VTablesUsedKept(w, x);
    if x.alwaysDedup {
      DifferentStable(w.st.data, x.st.data, w.st.vtables);
    }
  }

  lemma TableTidy(w: World, adds: seq<Add>)
    requires Inv(w) && Tidy(w) && CanStep(w, MakeTable(adds))
    ensures Tidy(Step(w, MakeTable(adds)))
  {
    TablePreserves(w, adds);
    TableCanEnd(w, adds);
    InvFacts(w);
    var t := AddAll(w.st, adds);
    var v, vt := EndTableWrites(w.st, t, adds);
    InTableFacts(w.st, t, adds);
    PushElementWrites(t, 4, 0);
    ExtendsTransitive(w.st.data, t.data, PushElement(t, 4, 0).data);
    var x := Step(w, MakeTable(adds));
    var table := OTable(Fields(adds), v, vt);
    assert x.objs[TableOffset(t)] == table;
    hide Extends, Inv, EndTable, AddAll, TableAt, InTable, UsedVTable, OwnVTable, LiveVTables, PushElement, Step, Novel, CanStep, TableOffset;
    if x.st.vtables == w.st.vtables {
      SameVTablesTidy(w, x);
    } else {
      NewVTableTidy(w, x, PushElement(t, 4, 0).data, TableOffset(t), v, vt);
    }
  }

  lemma NewVTableTidy(w: World, x: World, p: seq<byte>, o: nat, v: nat, vt: seq<byte>)
    requires Inv(w) && Tidy(w) && Preserves(w, x) && x.st.vtables == w.st.vtables + [v]
    requires o in x.objs && x.objs[o].OTable? && x.objs[o].vtOff == v
    requires x.alwaysDedup ==> w.alwaysDedup && x.st.dedup && Novel(p, w.st.vtables, vt)
    requires Extends(w.st.data, p) && VTableAt(x.st.data, v, vt)
    ensures Tidy(x)
  {
    hide LiveVTables, Extends, Novel, VTableAt, Idle, ObjectsAt, Closed, VTablesKnown, PoolKnown;
    forall u | u in x.st.vtables ensures exists o :: o in x.objs && x.objs[o].OTable? && x.objs[o].vtOff == u {
      if u in w.st.vtables {
        var q :| q in w.objs && w.objs[q].OTable? && w.objs[q].vtOff == u;
        assert q in x.objs && x.objs[q].OTable? && x.objs[q].vtOff == u;
      } else {
        assert o in x.objs && x.objs[o].OTable? && x.objs[o].vtOff == u;
      }
    }
    if x.alwaysDedup {
      MoreDifferent(w.st.data, p, x.st.data, w.st.vtables, v, vt);
    }
  }

  lemma StepTidy(w: World, op: Op)
    requires Inv(w) && Tidy(w) && CanStep(w, op)
    ensures Tidy(Step(w, op))
  {
    StepPreserves(w, op);
    if op.MakeTable? {
      TableTidy(w, op.adds);
    } else {
      OtherStepVTables(w, op);
      hide Inv, CanStep, Preserves, Step, Tidy;
      SameVTablesTidy(w, Step(w, op));
    }
  }

  lemma OtherStepVTables(w: World, op: Op)
    requires Inv(w) && CanStep(w, op) && !op.MakeTable?
    ensures var x := Step(w, op);
      && x.st.vtables == w.st.vtables
      && (x.alwaysDedup ==> w.alwaysDedup)
      && (w.st.dedup || op.DedupVtables? ==> x.alwaysDedup ==> x.st.dedup)
  {
    InvFacts(w);
    hide Inv, Extends, StringAt, RefsAt, ScalarsAt, CreateString, CreateSharedString, CreateOffsetVector, CreateScalarVector;
    match op
    case MakeString(s) => CreateStringWrites(w.st, s);
    case MakeSharedString(s) => SharedStringShares(w, s); CreateStringWrites(w.st, s);
    case MakeRefs(refs) => RefsBelow(w, refs); CreateOffsetVectorWrites(w.st, refs);
    case MakeScalars(s, vals) => CreateScalarVectorWrites(w.st, s, vals);
    case ForceDefaults(_) =>
    case DedupVtables(_) =>
  }

  // Between tables, over any run, the scratch area holds exactly the offsets
  // of the vtables in use, pairwise different while deduplication stays on.
  lemma {:induction false} RunTidy(w: World, ops: seq<Op>)
    requires Inv(w) && Tidy(w) && CanRun(w, ops)
    ensures Tidy(Run(w, ops))
    decreases |ops|
  {
    hide Inv, Step, CanStep, Tidy;
    if ops != [] {
      StepKeeps(w, ops[0]);
      StepTidy(w, ops[0]);
      RunTidy(Step(w, ops[0]), ops[1..]);
    }
  }
}
