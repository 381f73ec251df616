// Reading a finished buffer gives back exactly what was built.
module ReadBack {
  import opened Bytes
  import opened Alignment
  import opened BuilderSpec
  import opened Layout
  import opened Options
  import R = Reader

  // --------------------------------------------------- what was built, typed

  // The object at `o` is a value of the declared type, and so is everything it
  // refers to; required fields are set.  This is what the typed `Offset<T>`
  // parameters of the generated builders enforce.
  ghost predicate TypedTable(sch: R.Schema, objs: map<nat, Obj>, t: nat, o: nat)
    decreases o, 1
  {
    && t < |sch| && o in objs && objs[o].OTable?
    && forall i :: 0 <= i < |sch[t]| ==> TypedField(sch, objs, sch[t][i], o)
  }

  ghost predicate TypedField(sch: R.Schema, objs: map<nat, Obj>, f: R.FieldSpec, o: nat)
    requires o in objs && objs[o].OTable?
    decreases o, 0
  {
    var fields := objs[o].fields;
    if f.id !in fields then !f.required
    else
      match f.kind
      case KScalar(s, def) => fields[f.id].FScalar? && fields[f.id].size == s && fields[f.id].def == def
      case KString =>
        fields[f.id].FRef? && IsString(objs, fields[f.id].ref)
      case KStrings =>
        && fields[f.id].FRef? && IsRefs(objs, fields[f.id].ref)
        && forall i :: 0 <= i < |objs[fields[f.id].ref].refs| ==> IsString(objs, objs[fields[f.id].ref].refs[i])
      case KScalars(s) =>
        && fields[f.id].FRef? && fields[f.id].ref in objs
        && objs[fields[f.id].ref].OScalars? && objs[fields[f.id].ref].size == s
        && forall v :: v in objs[fields[f.id].ref].vals ==> v < Range(s)
      case KTable(t) =>
        fields[f.id].FRef? && fields[f.id].ref < o && TypedTable(sch, objs, t, fields[f.id].ref)
      case KTables(t) =>
        && fields[f.id].FRef? && IsRefs(objs, fields[f.id].ref)
        && forall i :: 0 <= i < |objs[fields[f.id].ref].refs| ==>
             && objs[fields[f.id].ref].refs[i] < o
             && TypedTable(sch, objs, t, objs[fields[f.id].ref].refs[i])
  }

  ghost predicate IsString(objs: map<nat, Obj>, o: nat) {
    o in objs && objs[o].OString?
  }

  ghost predicate IsRefs(objs: map<nat, Obj>, o: nat) {
    o in objs && objs[o].ORefs?
  }

  // The tree built at `o`; absent scalars stand for their defaults.
  ghost function Built(sch: R.Schema, objs: map<nat, Obj>, t: nat, o: nat): R.Tree
    requires TypedTable(sch, objs, t, o)
    decreases o, 2, 0
  {
    R.Node(BuiltFields(sch, objs, sch[t], o))
  }

  ghost function BuiltFields(sch: R.Schema, objs: map<nat, Obj>, fs: seq<R.FieldSpec>, o: nat): seq<R.Val>
    requires o in objs && objs[o].OTable?
    requires forall i :: 0 <= i < |fs| ==> TypedField(sch, objs, fs[i], o)
    decreases o, 1, |fs|
  {
    if fs == [] then []
    else [BuiltField(sch, objs, fs[0], o)] + BuiltFields(sch, objs, fs[1..], o)
  }

  ghost function BuiltField(sch: R.Schema, objs: map<nat, Obj>, f: R.FieldSpec, o: nat): R.Val
    requires o in objs && objs[o].OTable? && TypedField(sch, objs, f, o)
    decreases o, 0, 1
  {
    var fields := objs[o].fields;
    if f.id !in fields then (if f.kind.KScalar? then R.VScalar(f.kind.def) else R.VNull)
    else
      match f.kind
      case KScalar(_, _) => R.VScalar(fields[f.id].value)
      case KString => R.VString(objs[fields[f.id].ref].chars)
      case KStrings => R.VStrings(BuiltStrings(objs, objs[fields[f.id].ref].refs))
      case KScalars(_) => R.VScalars(objs[fields[f.id].ref].vals)
      case KTable(t) => R.VTable(Built(sch, objs, t, fields[f.id].ref))
      case KTables(t) => R.VTables(BuiltTables(sch, objs, t, objs[fields[f.id].ref].refs, o))
  }

  ghost function BuiltStrings(objs: map<nat, Obj>, refs: seq<nat>): seq<seq<byte>>
    requires forall i :: 0 <= i < |refs| ==> IsString(objs, refs[i])
  {
    if refs == [] then []
    else assert IsString(objs, refs[0]); [objs[refs[0]].chars] + BuiltStrings(objs, refs[1..])
  }

  ghost function BuiltTables(sch: R.Schema, objs: map<nat, Obj>, t: nat, refs: seq<nat>, bound: nat): seq<R.Tree>
    requires forall i :: 0 <= i < |refs| ==> refs[i] < bound && TypedTable(sch, objs, t, refs[i])
    decreases bound, 0, 0, |refs|
  {
    if refs == [] then []
    else [Built(sch, objs, t, refs[0])] + BuiltTables(sch, objs, t, refs[1..], bound)
  }

  // ----------------------------------------------------------- single reads

  // The finished bytes, with everything that was built in place.
  ghost predicate Holds(d: seq<byte>, m: nat, objs: map<nat, Obj>) {
    && |d| < MAX_BUFFER_SIZE
    && IsAlignment(m)
    && forall o :: o in objs ==> 4 <= o <= |d| && ObjAt(d, m, o, objs[o])
  }

  lemma ReadAt(d: seq<byte>, off: nat, n: nat)
    requires n <= off <= |d|
    ensures R.ReadU(d, |d| - off, n) == Some(FromLE(At(d, off, n)))
  {
    assert d[|d| - off..][..n] == d[|d| - off..|d| - off + n];
  }

  lemma ReadScalarAt(d: seq<byte>, off: nat, n: nat, v: nat)
    requires n <= off <= |d| && At(d, off, n) == ToLE(n, v) && v < Range(n)
    ensures R.ReadU(d, |d| - off, n) == Some(v)
  {
    ReadAt(d, off, n);
    LEFits(n, v);
  }

  lemma ReadsString(d: seq<byte>, o: nat, s: seq<byte>)
    requires StringAt(d, o, s) && |d| < MAX_BUFFER_SIZE
    ensures R.ReadString(d, |d| - o) == Some(s)
  {
    hide ToLE, FromLE;
    RangeAt();
    ReadScalarAt(d, o, 4, |s|);
    assert d[|d| - (o - 4)..][..|s|] == d[|d| - o + 4..|d| - o + 4 + |s|];
    assert d[|d| - (o - 4 - |s|)..][..1][0] == d[|d| - o + 4 + |s|];
  }

  // A stored reference leads to the object it was made for.
  lemma ReadsRef(d: seq<byte>, off: nat, ref: nat)
    requires RefAt(d, off, ref) && |d| < MAX_BUFFER_SIZE
    ensures R.ReadU(d, |d| - off, 4) == Some(off - ref)
  {
    RangeAt();
    ReadScalarAt(d, off, 4, off - ref);
  }

  lemma ReadsSOffset(d: seq<byte>, o: nat, v: nat)
    requires 4 <= o <= |d| && v <= |d| < MAX_BUFFER_SIZE && At(d, o, 4) == SOffset(v, o)
    ensures R.ReadSOffset(d, |d| - o) == Some(v - o)
  {
    RangeAt();
    ReadScalarAt(d, o, 4, Wrap(4, v - o));
    SignedInverse(4, v - o);
  }

  // GetOptionalFieldOffset finds the entry of the vtable, or zero.
  lemma ReadsFieldOffset(d: seq<byte>, m: nat, o: nat, fields: map<nat, FieldVal>, v: nat, vt: seq<byte>, f: nat)
    requires TableAt(d, m, o, fields, v, vt) && |d| < MAX_BUFFER_SIZE && FieldId(f)
    ensures R.FieldOffset(d, |d| - o, f) == Some(Entry(vt, f))
  {
    hide FieldAt, FromLE, SOffset;
    ReadsSOffset(d, o, v);
    VTableEntries(d, v, vt, f);
  }

  lemma VTableEntries(d: seq<byte>, v: nat, vt: seq<byte>, f: nat)
    requires VTableAt(d, v, vt) && f % 2 == 0
    ensures R.ReadU(d, |d| - v, 2) == Some(|vt|)
    ensures f < |vt| ==> f + 2 <= |vt| && R.ReadU(d, |d| - v + f, 2) == Some(FromLE(vt[f..f + 2]))
  {
    hide FromLE;
    VTableSlice(d, |d| - v, vt, 0);
    if f < |vt| {
      EvenBelow(f, |vt|);
      VTableSlice(d, |d| - v, vt, f);
    }
  }

  lemma VTableSlice(d: seq<byte>, p: nat, vt: seq<byte>, f: nat)
    requires p + |vt| <= |d| && d[p..][..|vt|] == vt && f + 2 <= |vt|
    ensures d[p + f..p + f + 2] == vt[f..f + 2]
  {
    assert forall i :: 0 <= i < |vt| ==> d[p + i] == d[p..][..|vt|][i];
  }

  lemma EvenBelow(f: nat, n: nat)
    requires f % 2 == 0 && n % 2 == 0 && f < n
    ensures f + 2 <= n
  {
    var d := n / 2 - f / 2;
    assert n - f == 2 * d;
  }

  // ------------------------------------------------------- table accessors

  // A field that was set is found where it was written, and only then.
  lemma ReadsScalarField(d: seq<byte>, m: nat, o: nat, fields: map<nat, FieldVal>, v: nat, vt: seq<byte>,
                         f: nat, s: nat, def: nat)
    requires TableAt(d, m, o, fields, v, vt) && |d| < MAX_BUFFER_SIZE && FieldId(f)
    requires f in fields ==> fields[f].FScalar? && fields[f].size == s && fields[f].def == def
    ensures R.GetField(d, |d| - o, f, s, def) == Some(if f in fields then fields[f].value else def)
  {
    ReadsFieldOffset(d, m, o, fields, v, vt, f);
    assert f in fields ==> FieldAt(d, m, o, Entry(vt, f), fields[f]);
    assert f !in fields ==> Entry(vt, f) == 0;
    hide TableAt, FromLE, ToLE, Entry, Aligned, R.FieldOffset;
    var e := Entry(vt, f);
    if f in fields && e != 0 {
      ReadScalarAt(d, o - e, s, fields[f].value);
      assert |d| - o + e == |d| - (o - e);
    }
  }

  lemma ReadsRefField(d: seq<byte>, m: nat, o: nat, fields: map<nat, FieldVal>, v: nat, vt: seq<byte>, f: nat)
    requires TableAt(d, m, o, fields, v, vt) && |d| < MAX_BUFFER_SIZE && FieldId(f)
    requires f in fields ==> fields[f].FRef?
    ensures R.GetPointer(d, |d| - o, f) == Some(if f in fields then R.To(|d| - fields[f].ref) else R.Null)
  {
    ReadsFieldOffset(d, m, o, fields, v, vt, f);
    assert f in fields ==> FieldAt(d, m, o, Entry(vt, f), fields[f]);
    assert f !in fields ==> Entry(vt, f) == 0;
    hide TableAt, FromLE, Entry, RefAt, R.FieldOffset, R.ReadU;
    if f in fields {
      PointerFrom(d, o, f, Entry(vt, f), fields[f].ref);
    }
  }

  lemma PointerFrom(d: seq<byte>, o: nat, f: nat, e: nat, ref: nat)
    requires R.FieldOffset(d, |d| - o, f) == Some(e)
    requires 0 < e < o && RefAt(d, o - e, ref) && |d| < MAX_BUFFER_SIZE
    ensures R.GetPointer(d, |d| - o, f) == Some(R.To(|d| - ref))
  {
    hide R.FieldOffset, R.ReadU;
    RefInside(d, o - e, ref);
    ReadsRef(d, o - e, ref);
    assert |d| - o + e == |d| - (o - e);
  }

  lemma RefInside(d: seq<byte>, off: nat, ref: nat)
    requires RefAt(d, off, ref)
    ensures 4 <= off <= |d| && 0 < ref < off
  {
  }

  lemma ReadsElement(d: seq<byte>, o: nat, refs: seq<nat>, i: nat)
    requires RefsAt(d, o, refs) && |d| < MAX_BUFFER_SIZE && i < |refs|
    ensures R.ElementPos(d, |d| - o, i) == Some(|d| - refs[i])
  {
    var off := o - 4 - 4 * i;
    assert RefAt(d, off, refs[i]);
    ReadsRef(d, off, refs[i]);
    assert |d| - o + 4 + 4 * i == |d| - off;
  }

  lemma ReadsRefsLength(d: seq<byte>, o: nat, refs: seq<nat>)
    requires RefsAt(d, o, refs) && |d| < MAX_BUFFER_SIZE
    ensures R.ReadU(d, |d| - o, 4) == Some(|refs|)
  {
    RangeAt();
    ReadScalarAt(d, o, 4, |refs|);
  }

  lemma {:induction false} ReadsStrings(d: seq<byte>, m: nat, objs: map<nat, Obj>, o: nat, refs: seq<nat>, i: nat)
    requires Holds(d, m, objs) && RefsAt(d, o, refs) && i <= |refs|
    requires forall j :: 0 <= j < |refs| ==> IsString(objs, refs[j])
    ensures R.ReadStrings(d, |d| - o, i, |refs|) == Some(BuiltStrings(objs, refs[i..]))
    decreases |refs| - i
  {
    hide RefsAt, R.ReadString, R.ElementPos, StringAt;
    if i < |refs| {
      ReadsElement(d, o, refs, i);
      assert IsString(objs, refs[i]);
      ReadsString(d, refs[i], objs[refs[i]].chars);
      ReadsStrings(d, m, objs, o, refs, i + 1);
      assert refs[i..][1..] == refs[i + 1..];
    }
  }

  lemma {:induction false} ReadsScalars(d: seq<byte>, m: nat, o: nat, s: nat, vals: seq<nat>, i: nat)
    requires ScalarsAt(d, m, o, s, vals) && i <= |vals| && forall v :: v in vals ==> v < Range(s)
    ensures R.ReadScalars(d, |d| - o, s, i, |vals|) == Some(vals[i..])
    decreases |vals| - i
  {
    hide Aligned, ToLE, FromLE;
    if i < |vals| {
      var at := o - 4 - s * i;
      assert ScalarAt(d, o - 4, s, i, vals[i]) && vals[i] in vals;
      ReadScalarAt(d, at, s, vals[i]);
      assert |d| - o + 4 + s * i == |d| - at;
      ReadsScalars(d, m, o, s, vals, i + 1);
      assert vals[i..] == [vals[i]] + vals[i + 1..];
    }
  }

  lemma ReadsScalarsLength(d: seq<byte>, m: nat, o: nat, s: nat, vals: seq<nat>)
    requires ScalarsAt(d, m, o, s, vals) && |d| < MAX_BUFFER_SIZE
    ensures R.ReadU(d, |d| - o, 4) == Some(|vals|)
  {
    RangeAt();
    assert |vals| <= s * |vals|;
    ReadScalarAt(d, o, 4, |vals|);
  }

  // ----------------------------------------------------------- whole tables

  lemma {:induction false} ReadsTable(sch: R.Schema, d: seq<byte>, m: nat, objs: map<nat, Obj>, t: nat, o: nat, fuel: nat)
    requires R.SchemaOk(sch) && Holds(d, m, objs) && TypedTable(sch, objs, t, o)
    requires fuel >= R.Depth(Built(sch, objs, t, o))
    ensures R.ReadTable(sch, d, t, |d| - o, fuel) == Some(Built(sch, objs, t, o))
    decreases o, 2, 0
  {
    hide Holds, TypedField, BuiltFields, R.ReadFields, R.DepthVals, R.SpecsOk;
    ReadsFields(sch, d, m, objs, sch[t], o, fuel - 1);
  }

  lemma {:induction false} ReadsFields(sch: R.Schema, d: seq<byte>, m: nat, objs: map<nat, Obj>,
                                       fs: seq<R.FieldSpec>, o: nat, fuel: nat)
    requires R.SpecsOk(sch, fs) && R.SchemaOk(sch) && Holds(d, m, objs)
    requires o in objs && objs[o].OTable?
    requires forall i :: 0 <= i < |fs| ==> TypedField(sch, objs, fs[i], o)
    requires fuel >= R.DepthVals(BuiltFields(sch, objs, fs, o))
    ensures R.ReadFields(sch, d, fs, |d| - o, fuel) == Some(BuiltFields(sch, objs, fs, o))
    decreases o, 1, |fs|
  {
    hide Holds, TypedField, R.SchemaOk, R.SpecOk;
    if fs != [] {
      assert R.SpecOk(sch, fs[0]);
      var vals := BuiltFields(sch, objs, fs, o);
      assert vals[1..] == BuiltFields(sch, objs, fs[1..], o);
      ReadsField(sch, d, m, objs, fs[0], o, fuel);
      ReadsFields(sch, d, m, objs, fs[1..], o, fuel);
    }
  }

  lemma {:induction false} ReadsField(sch: R.Schema, d: seq<byte>, m: nat, objs: map<nat, Obj>,
                                      f: R.FieldSpec, o: nat, fuel: nat)
    requires R.SpecOk(sch, f) && R.SchemaOk(sch) && Holds(d, m, objs)
    requires o in objs && objs[o].OTable? && TypedField(sch, objs, f, o)
    requires fuel >= R.DepthVal(BuiltField(sch, objs, f, o))
    ensures R.ReadFieldVal(sch, d, f, |d| - o, fuel) == Some(BuiltField(sch, objs, f, o))
    decreases o, 0, 1
  {
    hide Holds, TableAt, R.SchemaOk, R.ReadFieldVal, R.ReadReferenced, BuiltField, TypedField, R.DepthVal;
    if f.kind.KScalar? {
      ReadsScalarVal(sch, d, m, objs, f, o, fuel);
    } else {
      var ptr := ReadsPointer(sch, d, m, objs, f, o);
      FollowPointer(sch, d, f, |d| - o, fuel, ptr);
      if f.id in objs[o].fields {
        ReadsReferenced(sch, d, m, objs, f, o, objs[o].fields[f.id].ref, fuel);
      } else {
        AbsentIsNull(sch, objs, f, o);
      }
    }
  }

  lemma ReadsScalarVal(sch: R.Schema, d: seq<byte>, m: nat, objs: map<nat, Obj>, f: R.FieldSpec, o: nat, fuel: nat)
    requires R.SpecOk(sch, f) && Holds(d, m, objs) && f.kind.KScalar?
    requires o in objs && objs[o].OTable? && TypedField(sch, objs, f, o)
    ensures R.ReadFieldVal(sch, d, f, |d| - o, fuel) == Some(BuiltField(sch, objs, f, o))
  {
    FieldTable(d, m, objs, o);
    hide TableAt, Holds, R.GetField;
    ReadsScalarField(d, m, o, objs[o].fields, objs[o].vtOff, objs[o].vtable, f.id, f.kind.size, f.kind.def);
  }

  // A reference field is null when unset, and is otherwise followed.
  lemma ReadsPointer(sch: R.Schema, d: seq<byte>, m: nat, objs: map<nat, Obj>, f: R.FieldSpec, o: nat) returns (ptr: R.Pointer)
    requires R.SpecOk(sch, f) && Holds(d, m, objs) && !f.kind.KScalar?
    requires o in objs && objs[o].OTable? && TypedField(sch, objs, f, o)
    ensures R.GetPointer(d, |d| - o, f.id) == Some(ptr)
    ensures f.id !in objs[o].fields ==> ptr == R.Null
    ensures f.id in objs[o].fields ==> objs[o].fields[f.id].FRef? && ptr == R.To(|d| - objs[o].fields[f.id].ref)
  {
    FieldTable(d, m, objs, o);
    FieldIsRef(sch, objs, f, o);
    SpecFieldId(sch, f);
    hide TableAt, Holds, TypedField, R.GetPointer, R.SpecOk, FieldId;
    ptr := TablePointer(d, m, o, objs[o].fields, objs[o].vtOff, objs[o].vtable, f.id);
  }

  lemma TablePointer(d: seq<byte>, m: nat, o: nat, fields: map<nat, FieldVal>, v: nat, vt: seq<byte>, f: nat) returns (ptr: R.Pointer)
    requires TableAt(d, m, o, fields, v, vt) && |d| < MAX_BUFFER_SIZE && FieldId(f)
    requires f in fields ==> fields[f].FRef?
    ensures R.GetPointer(d, |d| - o, f) == Some(ptr)
    ensures ptr == if f in fields then R.To(|d| - fields[f].ref) else R.Null
  {
    hide TableAt, R.GetPointer, FieldId;
    ReadsRefField(d, m, o, fields, v, vt, f);
    ptr := if f in fields then R.To(|d| - fields[f].ref) else R.Null;
  }

  lemma SpecFieldId(sch: R.Schema, f: R.FieldSpec)
    requires R.SpecOk(sch, f)
    ensures FieldId(f.id)
  {
  }

  lemma FollowPointer(sch: R.Schema, d: seq<byte>, f: R.FieldSpec, p: int, fuel: nat, ptr: R.Pointer)
    requires !f.kind.KScalar? && R.GetPointer(d, p, f.id) == Some(ptr)
    ensures R.ReadFieldVal(sch, d, f, p, fuel)
         == if ptr.Null? then Some(R.VNull) else R.ReadReferenced(sch, d, f.kind, ptr.pos, fuel)
  {
    hide R.GetPointer, R.ReadReferenced;
  }

  lemma FieldTable(d: seq<byte>, m: nat, objs: map<nat, Obj>, o: nat)
    requires Holds(d, m, objs) && o in objs && objs[o].OTable?
    ensures TableAt(d, m, o, objs[o].fields, objs[o].vtOff, objs[o].vtable) && |d| < MAX_BUFFER_SIZE
  {
    hide TableAt;
    assert ObjAt(d, m, o, objs[o]);
  }

  lemma FieldIsRef(sch: R.Schema, objs: map<nat, Obj>, f: R.FieldSpec, o: nat)
    requires o in objs && objs[o].OTable? && TypedField(sch, objs, f, o) && !f.kind.KScalar?
    ensures f.id in objs[o].fields ==> objs[o].fields[f.id].FRef?
  {
  }

  lemma AbsentIsNull(sch: R.Schema, objs: map<nat, Obj>, f: R.FieldSpec, o: nat)
    requires o in objs && objs[o].OTable? && TypedField(sch, objs, f, o)
    requires !f.kind.KScalar? && f.id !in objs[o].fields
    ensures BuiltField(sch, objs, f, o) == R.VNull
  {
  }

  lemma {:induction false} ReadsReferenced(sch: R.Schema, d: seq<byte>, m: nat, objs: map<nat, Obj>,
                                           f: R.FieldSpec, o: nat, r: nat, fuel: nat)
    requires !f.kind.KScalar? && R.SchemaOk(sch) && Holds(d, m, objs)
    requires o in objs && objs[o].OTable? && TypedField(sch, objs, f, o)
    requires f.id in objs[o].fields && objs[o].fields[f.id] == FRef(r)
    requires fuel >= R.DepthVal(BuiltField(sch, objs, f, o))
    ensures R.ReadReferenced(sch, d, f.kind, |d| - r, fuel) == Some(BuiltField(sch, objs, f, o))
    decreases o, 0, 0
  {
    hide RefsAt, ScalarsAt, StringAt, TableAt, R.SchemaOk;
    match f.kind
    case KString => ReadsString(d, r, objs[r].chars);
    case KStrings =>
      ReadsRefsLength(d, r, objs[r].refs);
      ReadsStrings(d, m, objs, r, objs[r].refs, 0);
      assert objs[r].refs[0..] == objs[r].refs;
    case KScalars(s) =>
      ReadsScalarsLength(d, m, r, s, objs[r].vals);
      ReadsScalars(d, m, r, s, objs[r].vals, 0);
      assert objs[r].vals[0..] == objs[r].vals;
    case KTable(t) => ReadsTable(sch, d, m, objs, t, r, fuel);
    case KTables(t) =>
      ReadsRefsLength(d, r, objs[r].refs);
      ReadsTables(sch, d, m, objs, t, r, objs[r].refs, 0, o, fuel);
      assert objs[r].refs[0..] == objs[r].refs;
  }

  lemma {:induction false} ReadsTables(sch: R.Schema, d: seq<byte>, m: nat, objs: map<nat, Obj>,
                                       t: nat, r: nat, refs: seq<nat>, i: nat, bound: nat, fuel: nat)
    requires R.SchemaOk(sch) && Holds(d, m, objs) && |d| < MAX_BUFFER_SIZE && RefsAt(d, r, refs) && i <= |refs|
    requires forall j :: 0 <= j < |refs| ==> refs[j] < bound && TypedTable(sch, objs, t, refs[j])
    requires fuel >= R.DepthTrees(BuiltTables(sch, objs, t, refs[i..], bound))
    ensures R.ReadTables(sch, d, t, |d| - r, i, |refs|, fuel) == Some(BuiltTables(sch, objs, t, refs[i..], bound))
    decreases bound, 0, 0, |refs| - i
  {
    hide Holds, RefsAt, TypedTable, R.SchemaOk;
    if i < |refs| {
      ReadsElement(d, r, refs, i);
      assert refs[i..][1..] == refs[i + 1..];
      var trees := BuiltTables(sch, objs, t, refs[i..], bound);
      assert trees[1..] == BuiltTables(sch, objs, t, refs[i + 1..], bound);
      ReadsTable(sch, d, m, objs, t, refs[i], fuel);
      ReadsTables(sch, d, m, objs, t, r, refs, i + 1, bound, fuel);
    }
  }
}
