// Whole runs of the builder: any sequence of legal object constructions keeps
// every finished object readable at its offset.
module Runs {
  import opened Bytes
  import opened Alignment
  import opened Ordering
  import opened BuilderSpec
  import opened Layout
  import opened Tables

  // ------------------------------------------------------- shared strings

  // The contents of the string stored at an offset.
  function Stored(d: seq<byte>, off: nat): seq<byte> {
    if 4 <= off <= |d| && 4 + FromLE(At(d, off, 4)) <= off
    then At(d, off - 4, FromLE(At(d, off, 4)))
    else []
  }

  // `std::set` treats two keys as the same when neither is less than the other.
  predicate Equivalent(a: seq<byte>, b: seq<byte>) {
    !StringLessThan(a, b) && !StringLessThan(b, a)
  }

  // The pooled string equivalent to the one at `off`, or zero.
  function FindShared(d: seq<byte>, pool: seq<nat>, off: nat): nat {
    if pool == [] then 0
    else if Equivalent(Stored(d, pool[0]), Stored(d, off)) then pool[0]
    else FindShared(d, pool[1..], off)
  }

  // Serialize first, look the result up, and drop it again if it was known.
  function CreateSharedString(st: State, pool: seq<nat>, s: seq<byte>): (State, seq<nat>, nat) {
    var t := CreateString(st, s);
    var off := |t.data|;
    var hit := FindShared(t.data, pool, off);
    if hit != 0 then (t.(data := t.data[|t.data| - |st.data|..]), pool, hit)
    else (t, pool + [off], off)
  }

  // ------------------------------------------------------------------ runs

  datatype Op =
    | MakeString(chars: seq<byte>)
    | MakeSharedString(chars: seq<byte>)
    | MakeRefs(refs: seq<nat>)
    | MakeScalars(size: nat, vals: seq<nat>)
    | MakeTable(adds: seq<Add>)
    | ForceDefaults(on: bool)
    | DedupVtables(on: bool)

  // The builder together with a record of what was built at each offset.
  datatype World = World(st: State, pool: seq<nat>, objs: map<nat, Obj>, alwaysDedup: bool)

  const Start: World := World(Initial, [], map[], true)

  function Refs(obj: Obj): set<nat> {
    match obj
    case OString(_) => {}
    case ORefs(refs) => set r | r in refs
    case OScalars(_, _) => {}
    case OTable(fields, _, _) => set f | f in fields && fields[f].FRef? :: fields[f].ref
  }

  ghost predicate Idle(st: State) {
    !st.nested && !st.finished && st.locs == [] && st.maxVoffset == 0 && IsAlignment(st.minalign)
  }

  ghost predicate ObjectsAt(st: State, objs: map<nat, Obj>) {
    forall o :: o in objs ==> 4 <= o <= |st.data| && ObjAt(st.data, st.minalign, o, objs[o])
  }

  ghost predicate Closed(objs: map<nat, Obj>) {
    forall o :: o in objs ==> forall r :: r in Refs(objs[o]) ==> r in objs && r < o
  }

  // Every table uses a remembered vtable.
  ghost predicate VTablesKnown(st: State, objs: map<nat, Obj>) {
    forall o :: o in objs && objs[o].OTable? ==> objs[o].vtOff in st.vtables
  }

  ghost predicate PoolKnown(pool: seq<nat>, objs: map<nat, Obj>) {
    && (forall p :: p in pool ==> p in objs && objs[p].OString?)
    && (forall i, j :: 0 <= i < j < |pool| ==> objs[pool[i]] != objs[pool[j]])
  }

  ghost predicate Inv(w: World) {
    && Idle(w.st)
    && (w.objs == map[] || w.st.minalign >= 4)
    && ObjectsAt(w.st, w.objs)
    && Closed(w.objs)
    && LiveVTables(w.st.data, w.st.vtables)
    && VTablesKnown(w.st, w.objs)
    && PoolKnown(w.pool, w.objs)
  }

  ghost predicate AddsKnown(adds: seq<Add>, objs: map<nat, Obj>) {
    forall i :: 0 <= i < |adds| && adds[i].AddRef? && adds[i].ref != 0 ==> adds[i].ref in objs
  }

  // What the assertions of the builder ask of each call.
  ghost predicate CanStep(w: World, op: Op) {
    match op
    case MakeString(s) => |s| < MAX_BUFFER_SIZE
    case MakeSharedString(s) => |s| < MAX_BUFFER_SIZE && |CreateString(w.st, s).data| < MAX_BUFFER_SIZE
    case MakeRefs(refs) => forall i :: 0 <= i < |refs| ==> refs[i] in w.objs
    case MakeScalars(s, vals) => ScalarSize(s)
    case MakeTable(adds) =>
      && AddsOk(adds, |w.st.data|, w.st.forceDefaults)
      && AddsKnown(adds, w.objs)
      && TableFits(w.st, AddAll(w.st, adds))
    case ForceDefaults(_) => true
    case DedupVtables(_) => true
  }

  // The offset a call returns.
  ghost function Result(w: World, op: Op): nat
    requires Inv(w) && CanStep(w, op)
  {
    match op
    case MakeString(s) => |CreateString(w.st, s).data|
    case MakeSharedString(s) => CreateSharedString(w.st, w.pool, s).2
    case MakeRefs(refs) => RefsBelow(w, refs); |CreateOffsetVector(w.st, refs).data|
    case MakeScalars(s, vals) => |CreateScalarVector(w.st, s, vals).data|
    case MakeTable(adds) => TableOffset(AddAll(w.st, adds))
    case ForceDefaults(_) => 0
    case DedupVtables(_) => 0
  }

  lemma ObjectsBelow(w: World)
    requires Inv(w)
    ensures forall o :: o in w.objs ==> 0 < o <= |w.st.data|
  {
    hide ObjAt, LiveVTables, Closed;
  }

  lemma RefsBelow(w: World, refs: seq<nat>)
    requires Inv(w) && forall i :: 0 <= i < |refs| ==> refs[i] in w.objs
    ensures forall i :: 0 <= i < |refs| ==> 0 < refs[i] <= |w.st.data|
  {
    ObjectsBelow(w);
  }

  lemma TableCanEnd(w: World, adds: seq<Add>)
    requires Inv(w) && CanStep(w, MakeTable(adds))
    ensures InTable(w.st, AddAll(w.st, adds), adds)
    ensures CanEndTable(AddAll(w.st, adds), |w.st.data|)
  {
    AddAllKeeps(w.st, adds);
    CanEnd(w.st, AddAll(w.st, adds), adds);
  }

  ghost function Step(w: World, op: Op): World
    requires Inv(w) && CanStep(w, op)
  {
    match op
    case MakeString(s) =>
      var t := CreateString(w.st, s);
      w.(st := t, objs := w.objs[|t.data| := OString(s)])
    case MakeSharedString(s) =>
      var (t, pool, off) := CreateSharedString(w.st, w.pool, s);
      w.(st := t, pool := pool, objs := w.objs[off := OString(s)])
    case MakeRefs(refs) =>
      RefsBelow(w, refs);
      var t := CreateOffsetVector(w.st, refs);
      w.(st := t, objs := w.objs[|t.data| := ORefs(refs)])
    case MakeScalars(s, vals) =>
      var t := CreateScalarVector(w.st, s, vals);
      w.(st := t, objs := w.objs[|t.data| := OScalars(s, vals)])
    case MakeTable(adds) =>
      TableCanEnd(w, adds);
      var t := AddAll(w.st, adds);
      var u := EndTable(t, |w.st.data|);
      var table := OTable(Fields(adds), UsedVTable(t, |w.st.data|), OwnVTable(t, |w.st.data|));
      w.(st := u, objs := w.objs[TableOffset(t) := table])
    case ForceDefaults(on) => w.(st := w.st.(forceDefaults := on))
    case DedupVtables(on) => w.(st := w.st.(dedup := on), alwaysDedup := w.alwaysDedup && on)
  }
}
