// The tables of the reflection schema, and the generated functions that create them.
module Reflection {
  import opened Bytes
  import opened Alignment
  import opened BuilderSpec
  import opened Layout
  import opened Writing
  import opened Tables
  import opened Runs
  import opened RunInvariant
  import opened ReadBack
  import R = Reader

  const TYPE: nat := 0
  const KEY_VALUE: nat := 1
  const ENUM_VAL: nat := 2
  const ENUM: nat := 3
  const FIELD: nat := 4
  const OBJECT: nat := 5
  const RPC_CALL: nat := 6
  const SERVICE: nat := 7
  const SCHEMA: nat := 8

  // "BFBS"
  const IDENTIFIER: seq<byte> := [0x42, 0x46, 0x42, 0x53]

  function Scalar(id: nat, size: nat, def: nat): R.FieldSpec {
    R.FieldSpec(id, R.KScalar(size, def), false)
  }

  const ReflectionSchema: R.Schema := [
    [Scalar(4, 1, 0), Scalar(6, 1, 0), Scalar(8, 4, 0xFFFF_FFFF), Scalar(10, 2, 0)],
    [R.FieldSpec(4, R.KString, true), R.FieldSpec(6, R.KString, false)],
    [R.FieldSpec(4, R.KString, true), Scalar(6, 8, 0), R.FieldSpec(8, R.KTable(OBJECT), false),
     R.FieldSpec(10, R.KTable(TYPE), false), R.FieldSpec(12, R.KStrings, false)],
    [R.FieldSpec(4, R.KString, true), R.FieldSpec(6, R.KTables(ENUM_VAL), true), Scalar(8, 1, 0),
     R.FieldSpec(10, R.KTable(TYPE), true), R.FieldSpec(12, R.KTables(KEY_VALUE), false), R.FieldSpec(14, R.KStrings, false)],
    [R.FieldSpec(4, R.KString, true), R.FieldSpec(6, R.KTable(TYPE), true), Scalar(8, 2, 0), Scalar(10, 2, 0),
     Scalar(12, 8, 0), Scalar(14, 8, 0), Scalar(16, 1, 0), Scalar(18, 1, 0), Scalar(20, 1, 0),
     R.FieldSpec(22, R.KTables(KEY_VALUE), false), R.FieldSpec(24, R.KStrings, false)],
    [R.FieldSpec(4, R.KString, true), R.FieldSpec(6, R.KTables(FIELD), true), Scalar(8, 1, 0), Scalar(10, 4, 0),
     Scalar(12, 4, 0), R.FieldSpec(14, R.KTables(KEY_VALUE), false), R.FieldSpec(16, R.KStrings, false)],
    [R.FieldSpec(4, R.KString, true), R.FieldSpec(6, R.KTable(OBJECT), true), R.FieldSpec(8, R.KTable(OBJECT), true),
     R.FieldSpec(10, R.KTables(KEY_VALUE), false), R.FieldSpec(12, R.KStrings, false)],
    [R.FieldSpec(4, R.KString, true), R.FieldSpec(6, R.KTables(RPC_CALL), false),
     R.FieldSpec(8, R.KTables(KEY_VALUE), false), R.FieldSpec(10, R.KStrings, false)],
    [R.FieldSpec(4, R.KTables(OBJECT), true), R.FieldSpec(6, R.KTables(ENUM), true), R.FieldSpec(8, R.KString, false),
     R.FieldSpec(10, R.KString, false), R.FieldSpec(12, R.KTable(OBJECT), false), R.FieldSpec(14, R.KTables(SERVICE), false)]
  ]

  // The order in which the generated Create functions add the fields.
  const Orders: seq<seq<nat>> := [
    [2, 3, 1, 0],
    [1, 0],
    [1, 4, 3, 2, 0],
    [5, 4, 3, 1, 0, 2],
    [5, 4, 10, 9, 1, 0, 3, 2, 8, 7, 6],
    [6, 5, 4, 3, 1, 0, 2],
    [4, 3, 2, 1, 0],
    [3, 2, 1, 0],
    [5, 4, 3, 2, 1, 0]
  ]

  ghost predicate Permutation(order: seq<nat>) {
    && (forall j :: 0 <= j < |order| ==> order[j] < |order|)
    && (forall i, j :: 0 <= i < j < |order| ==> order[i] != order[j])
    && (forall k: nat :: k < |order| ==> k in order)
  }

  // Field `k` of a table sits at vtable offset `4 + 2 * k`.
  ghost predicate InOrder(fs: seq<R.FieldSpec>) {
    |fs| <= 16 && forall k :: 0 <= k < |fs| ==> fs[k].id == 4 + 2 * k
  }

  lemma SchemaIsOk()
    ensures R.SchemaOk(ReflectionSchema) && |ReflectionSchema| == 9
  {
    RangeAt();
  }

  lemma FieldOrder()
    ensures Permutation([5, 4, 10, 9, 1, 0, 3, 2, 8, 7, 6])
  {
    var order := [5, 4, 10, 9, 1, 0, 3, 2, 8, 7, 6];
    assert order[5] == 0 && order[4] == 1 && order[7] == 2 && order[6] == 3 && order[1] == 4 && order[0] == 5;
    assert order[10] == 6 && order[9] == 7 && order[8] == 8 && order[3] == 9 && order[2] == 10;
  }

  lemma ObjectOrders()
    ensures Permutation([5, 4, 3, 1, 0, 2]) && Permutation([6, 5, 4, 3, 1, 0, 2])
  {
  }

  lemma ShortOrders()
    ensures Permutation([2, 3, 1, 0]) && Permutation([1, 0]) && Permutation([1, 4, 3, 2, 0])
    ensures Permutation([4, 3, 2, 1, 0]) && Permutation([3, 2, 1, 0]) && Permutation([5, 4, 3, 2, 1, 0])
  {
  }

  lemma OrderIsPermutation(t: nat)
    requires t < 9
    ensures |Orders| == 9 && Permutation(Orders[t])
  {
    FieldOrder();
    ObjectOrders();
    ShortOrders();
    hide Permutation;
  }

  lemma TablesInOrder(t: nat)
    requires t < 9
    ensures |ReflectionSchema| == 9 && |Orders| == 9 && |Orders[t]| == |ReflectionSchema[t]|
    ensures InOrder(ReflectionSchema[t])
  {
  }

  // ------------------------------------------------ the Create functions

  datatype Arg = AScalar(value: nat) | ARef(ref: nat)

  function ToAdd(f: R.FieldSpec, a: Arg): Add {
    match a
    case AScalar(v) => AddScalar(f.id, if f.kind.KScalar? then f.kind.size else 1, v, if f.kind.KScalar? then f.kind.def else 0)
    case ARef(ref) => AddRef(f.id, ref)
  }

  function AddsFor(fs: seq<R.FieldSpec>, args: seq<Arg>, order: seq<nat>): (adds: seq<Add>)
    requires |args| == |fs| && forall j :: 0 <= j < |order| ==> order[j] < |fs|
    ensures |adds| == |order|
    ensures forall j :: 0 <= j < |order| ==> adds[j] == ToAdd(fs[order[j]], args[order[j]])
  {
    seq(|order|, j requires 0 <= j < |order| => ToAdd(fs[order[j]], args[order[j]]))
  }

  // What the parameter types of a Create function, and its Required checks, ask for.
  ghost predicate ArgOk(sch: R.Schema, objs: map<nat, Obj>, f: R.FieldSpec, a: Arg) {
    match f.kind
    case KScalar(s, def) => a.AScalar? && a.value < Range(s)
    case KString => a.ARef? && (a.ref == 0 || IsString(objs, a.ref)) && (f.required ==> a.ref != 0)
    case KStrings =>
      && a.ARef? && (f.required ==> a.ref != 0)
      && (a.ref == 0 || (IsRefs(objs, a.ref) && forall i :: 0 <= i < |objs[a.ref].refs| ==> IsString(objs, objs[a.ref].refs[i])))
    case KScalars(s) => false
    case KTable(t) => a.ARef? && (f.required ==> a.ref != 0) && (a.ref == 0 || TypedTable(sch, objs, t, a.ref))
    case KTables(t) =>
      && a.ARef? && (f.required ==> a.ref != 0)
      && (a.ref == 0 || (IsRefs(objs, a.ref) && forall i :: 0 <= i < |objs[a.ref].refs| ==> TypedTable(sch, objs, t, objs[a.ref].refs[i])))
  }

  ghost predicate ArgsOk(sch: R.Schema, objs: map<nat, Obj>, fs: seq<R.FieldSpec>, args: seq<Arg>) {
    |args| == |fs| && forall k :: 0 <= k < |fs| ==> ArgOk(sch, objs, fs[k], args[k])
  }

  // The value a field gets from distinct additions.
  lemma {:induction false} FieldsLookup(adds: seq<Add>, i: nat)
    requires i < |adds| && forall j, k :: 0 <= j < k < |adds| ==> adds[j].id != adds[k].id
    ensures match adds[i]
      case AddScalar(id, s, v, def) => id in Fields(adds) && Fields(adds)[id] == FScalar(s, v, def)
      case AddRef(id, ref) => if ref == 0 then id !in Fields(adds) else id in Fields(adds) && Fields(adds)[id] == FRef(ref)
  {
    var n := |adds| - 1;
    if i < n {
      FieldsLookup(adds[..n], i);
      assert adds[..n][i] == adds[i];
    } else if adds[n].id in Fields(adds[..n]) {
      FieldsMembers(adds[..n], adds[n].id);
      assert false;
    }
  }

  lemma ArgKnown(sch: R.Schema, w: World, f: R.FieldSpec, a: Arg)
    requires Inv(w) && ArgOk(sch, w.objs, f, a) && a.ARef?
    ensures a.ref != 0 ==> a.ref in w.objs
    ensures a.ref <= |w.st.data|
  {
    ObjectsBelow(w);
    hide Inv;
  }

  lemma CreateAddsOk(w: World, fs: seq<R.FieldSpec>, args: seq<Arg>, order: seq<nat>, sch: R.Schema)
    requires Inv(w) && ArgsOk(sch, w.objs, fs, args) && InOrder(fs) && R.SpecsOk(sch, fs)
    requires Permutation(order) && |order| == |fs|
    ensures AddsOk(AddsFor(fs, args, order), |w.st.data|, w.st.forceDefaults) && AddsKnown(AddsFor(fs, args, order), w.objs)
  {
    hide Inv, ArgOk, R.KindOk;
    var adds := AddsFor(fs, args, order);
    forall j | 0 <= j < |adds|
      ensures AddOk(adds[j], |w.st.data|)
      ensures adds[j].AddRef? && adds[j].ref != 0 ==> adds[j].ref in w.objs
    {
      AddFromArg(sch, w, fs[order[j]], args[order[j]]);
      assert R.SpecOk(sch, fs[order[j]]);
    }
  }

  lemma AddFromArg(sch: R.Schema, w: World, f: R.FieldSpec, a: Arg)
    requires Inv(w) && ArgOk(sch, w.objs, f, a) && R.SpecOk(sch, f)
    ensures AddOk(ToAdd(f, a), |w.st.data|)
    ensures a.ARef? && a.ref != 0 ==> a.ref in w.objs
  {
    if a.ARef? {
      ArgKnown(sch, w, f, a);
    }
    hide Inv;
  }

  // Each addition writes at most two scalars and their padding.
  lemma ApplyBound(st: State, a: Add)
    requires IsAlignment(st.minalign) && AddOk(a, |st.data|)
    ensures IsAlignment(Apply(st, a).minalign) && |Apply(st, a).data| <= |st.data| + 16
  {
    hide Padding, Extends, At;
    match a
    case AddScalar(id, s, v, def) => PushElementWrites(st, s, v);
    case AddRef(id, ref) =>
      if ref != 0 {
        PushOffsetWrites(st, ref);
      }
  }

  lemma {:induction false} AddAllBound(st: State, adds: seq<Add>)
    requires IsAlignment(st.minalign) && forall i :: 0 <= i < |adds| ==> AddOk(adds[i], |st.data|)
    ensures IsAlignment(AddAll(st, adds).minalign) && |AddAll(st, adds).data| <= |st.data| + 16 * |adds|
  {
    hide Apply;
    if adds != [] {
      var n := |adds| - 1;
      AddAllBound(st, adds[..n]);
      AddOkMonotone(adds[n], |st.data|, |AddAll(st, adds[..n]).data|);
      ApplyBound(AddAll(st, adds[..n]), adds[n]);
    }
  }

  // The size assertion of EndTable cannot fire for a generated table.
  lemma SmallTableFits(st: State, adds: seq<Add>)
    requires IsAlignment(st.minalign) && AddsOk(adds, |st.data|, st.forceDefaults) && |adds| <= 16
    ensures TableFits(st, AddAll(st, adds))
  {
    AddAllBound(st, adds);
    hide AddAll, Extends, At;
    PushElementWrites(AddAll(st, adds), 4, 0);
  }

  ghost predicate Included(objs: map<nat, Obj>, more: map<nat, Obj>) {
    forall o :: o in objs ==> o in more && more[o] == objs[o]
  }

  // Types survive whatever is built later.
  lemma {:induction false} TypedStable(sch: R.Schema, objs: map<nat, Obj>, more: map<nat, Obj>, t: nat, o: nat)
    requires TypedTable(sch, objs, t, o) && Included(objs, more)
    ensures TypedTable(sch, more, t, o)
    decreases o, 1
  {
    forall i | 0 <= i < |sch[t]| ensures TypedField(sch, more, sch[t][i], o) {
      TypedFieldStable(sch, objs, more, sch[t][i], o);
    }
  }

  lemma {:induction false} TypedFieldStable(sch: R.Schema, objs: map<nat, Obj>, more: map<nat, Obj>, f: R.FieldSpec, o: nat)
    requires Included(objs, more) && o in objs && objs[o].OTable? && TypedField(sch, objs, f, o)
    ensures TypedField(sch, more, f, o)
    decreases o, 0
  {
    var fields := objs[o].fields;
    if f.id in fields && f.kind.KTable? {
      TypedStable(sch, objs, more, f.kind.table, fields[f.id].ref);
    } else if f.id in fields && f.kind.KTables? {
      var refs := objs[fields[f.id].ref].refs;
      forall i | 0 <= i < |refs| ensures refs[i] < o && TypedTable(sch, more, f.kind.table, refs[i]) {
        TypedStable(sch, objs, more, f.kind.table, refs[i]);
      }
    } else if f.id in fields && f.kind.KStrings? {
      var refs := objs[fields[f.id].ref].refs;
      forall i | 0 <= i < |refs| ensures IsString(more, refs[i]) {
        assert IsString(objs, refs[i]);
      }
    }
  }

  // An argument of the right type makes a field of the right type.
  lemma ArgTypesField(sch: R.Schema, objs: map<nat, Obj>, more: map<nat, Obj>, f: R.FieldSpec, a: Arg, o: nat)
    requires ArgOk(sch, objs, f, a) && Included(objs, more) && o in more && more[o].OTable?
    requires forall p :: p in objs ==> p < o
    requires match ToAdd(f, a)
      case AddScalar(id, s, v, def) => id in more[o].fields && more[o].fields[id] == FScalar(s, v, def)
      case AddRef(id, ref) => if ref == 0 then id !in more[o].fields else id in more[o].fields && more[o].fields[id] == FRef(ref)
    ensures TypedField(sch, more, f, o)
  {
    if a.ARef? && a.ref != 0 {
      match f.kind
      case KTable(t) => TypedStable(sch, objs, more, t, a.ref);
      case KTables(t) =>
        var refs := objs[a.ref].refs;
        forall i | 0 <= i < |refs| ensures refs[i] < o && TypedTable(sch, more, t, refs[i]) {
          TypedStable(sch, objs, more, t, refs[i]);
        }
      case KStrings =>
        var refs := objs[a.ref].refs;
        forall i | 0 <= i < |refs| ensures IsString(more, refs[i]) {
          assert IsString(objs, refs[i]);
        }
      case _ =>
    }
  }

  // A call of the generated Create function of table type `t`.
  function Create(t: nat, args: seq<Arg>): Op
    requires t < 9 && |args| == |ReflectionSchema[t]|
    requires forall j :: 0 <= j < |Orders[t]| ==> Orders[t][j] < |ReflectionSchema[t]|
  {
    MakeTable(AddsFor(ReflectionSchema[t], args, Orders[t]))
  }

  lemma CreateDefined(t: nat)
    requires t < 9
    ensures |ReflectionSchema| == 9 && |Orders| == 9
    ensures forall j :: 0 <= j < |Orders[t]| ==> Orders[t][j] < |ReflectionSchema[t]|
  {
    OrderIsPermutation(t);
    TablesInOrder(t);
  }

  lemma CreateCanStep(sch: R.Schema, w: World, fs: seq<R.FieldSpec>, args: seq<Arg>, order: seq<nat>)
    requires Inv(w) && ArgsOk(sch, w.objs, fs, args) && InOrder(fs) && R.SpecsOk(sch, fs)
    requires Permutation(order) && |order| == |fs|
    ensures CanStep(w, MakeTable(AddsFor(fs, args, order)))
  {
    var adds := AddsFor(fs, args, order);
    InvFacts(w);
    CreateAddsOk(w, fs, args, order, sch);
    hide Inv, ArgsOk, TableFits, AddsOk, AddsKnown;
    SmallTableFits(w.st, adds);
  }

  lemma FieldsTyped(sch: R.Schema, objs: map<nat, Obj>, more: map<nat, Obj>, fs: seq<R.FieldSpec>, args: seq<Arg>,
                    order: seq<nat>, o: nat)
    requires ArgsOk(sch, objs, fs, args) && Permutation(order) && |order| == |fs|
    requires Included(objs, more) && o in more && more[o].OTable? && forall p :: p in objs ==> p < o
    requires more[o].fields == Fields(AddsFor(fs, args, order)) && InOrder(fs)
    ensures forall k :: 0 <= k < |fs| ==> TypedField(sch, more, fs[k], o)
  {
    var adds := AddsFor(fs, args, order);
    hide ArgOk, TypedField, Fields;
    forall k | 0 <= k < |fs| ensures TypedField(sch, more, fs[k], o) {
      assert k in order;
      var j :| 0 <= j < |order| && order[j] == k;
      assert adds[j] == ToAdd(fs[k], args[k]);
      FieldsLookup(adds, j);
      ArgTypesField(sch, objs, more, fs[k], args[k], o);
    }
  }

  // With arguments of the declared types and the required ones set, a Create
  // call meets every assertion of the builder and yields a table of its type.
  lemma TypedCreate(sch: R.Schema, w: World, t: nat, args: seq<Arg>, order: seq<nat>)
    requires Inv(w) && R.SchemaOk(sch) && t < |sch| && ArgsOk(sch, w.objs, sch[t], args)
    requires InOrder(sch[t]) && Permutation(order) && |order| == |sch[t]|
    ensures var op := MakeTable(AddsFor(sch[t], args, order));
      CanStep(w, op) && TypedTable(sch, Step(w, op).objs, t, Result(w, op))
  {
    var adds := AddsFor(sch[t], args, order);
    CreateCanStep(sch, w, sch[t], args, order);
    StepPreserves(w, MakeTable(adds));
    NewTable(w, adds);
    hide Inv, CanStep, Step, Result, ArgsOk, InOrder, Permutation, Fields;
    FieldsTyped(sch, w.objs, Step(w, MakeTable(adds)).objs, sch[t], args, order, Result(w, MakeTable(adds)));
  }

  // The nine generated Create functions are such calls.
  lemma GeneratedCreateIsTyped(w: World, t: nat, args: seq<Arg>)
    requires Inv(w) && t < 9 && |ReflectionSchema| == 9
    requires ArgsOk(ReflectionSchema, w.objs, ReflectionSchema[t], args)
    ensures |Orders| == 9 && forall j :: 0 <= j < |Orders[t]| ==> Orders[t][j] < |ReflectionSchema[t]|
    ensures CanStep(w, Create(t, args))
    ensures TypedTable(ReflectionSchema, Step(w, Create(t, args)).objs, t, Result(w, Create(t, args)))
  {
    SchemaIsOk();
    OrderIsPermutation(t);
    TablesInOrder(t);
    CreateDefined(t);
    hide Inv, CanStep, Step, Result, ArgsOk, InOrder, Permutation, ReflectionSchema, Orders;
    TypedCreate(ReflectionSchema, w, t, args, Orders[t]);
  }

  lemma NewTable(w: World, adds: seq<Add>)
    requires Inv(w) && CanStep(w, MakeTable(adds))
    ensures var x, o := Step(w, MakeTable(adds)), Result(w, MakeTable(adds));
      && o in x.objs && x.objs[o].OTable? && x.objs[o].fields == Fields(adds)
      && (forall p :: p in w.objs ==> p < o)
  {
    ObjectsBelow(w);
    TableCanEnd(w, adds);
    InTableFacts(w.st, AddAll(w.st, adds), adds);
    TableOffsetGrows(AddAll(w.st, adds));
    hide Inv, InTable;
  }
}
