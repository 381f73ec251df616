// Every buffer the builder makes is accepted by the verifier exactly when the
// tree in it is within the depth and table limits.
module VerifierCompleteness {
  import opened Options
  import opened Bits
  import opened Bytes
  import opened Alignment
  import opened BuilderSpec
  import opened Layout
  import opened ReadBack
  import R = Reader
  import V = VerifierSpec

  // A finished buffer: everything built lies below a header of at least four bytes.
  ghost predicate Sealed(d: seq<byte>, m: nat, objs: map<nat, Obj>) {
    && Holds(d, m, objs)
    && m >= 4 && Aligned(|d|, m)
    && forall o :: o in objs ==> o + 4 <= |d| && (objs[o].OTable? ==> objs[o].vtOff + 4 <= |d|)
  }

  lemma SealedFacts(d: seq<byte>, m: nat, objs: map<nat, Obj>)
    requires Sealed(d, m, objs)
    ensures |d| % 4 == 0 && |d| < MAX_BUFFER_SIZE
  {
  }

  lemma MaskFour(n: nat)
    ensures V.AlignedTo(n, 4) <==> n % 4 == 0
  {
    assert Pow2(2) == 4;
    AndLowMask(n, 2);
  }

  // Multiples of four from the end are multiples of four from the start.
  lemma PositionAligned(n: nat, off: nat)
    requires n % 4 == 0 && off % 4 == 0 && off <= n
    ensures V.AlignedTo(n - off, 4)
  {
    DivModUnique(n - off, 4, n / 4 - off / 4, 0);
    MaskFour(n - off);
  }

  lemma PositionEven(n: nat, off: nat)
    requires n % 4 == 0 && off % 2 == 0 && off <= n
    ensures V.AlignedTo(n - off, 2)
  {
    DivModUnique(n - off, 2, 2 * (n / 4) - off / 2, 0);
    V.EvenMask(n - off);
  }

  lemma UAt(d: seq<byte>, off: nat, n: nat)
    requires n <= off <= |d|
    ensures V.U(d, |d| - off, n) == FromLE(At(d, off, n))
  {
    assert d[|d| - off..][..n] == d[|d| - off..|d| - off + n];
  }

  lemma UScalar(d: seq<byte>, off: nat, n: nat, v: nat)
    requires n <= off <= |d| && At(d, off, n) == ToLE(n, v) && v < Range(n)
    ensures V.U(d, |d| - off, n) == v
  {
    UAt(d, off, n);
    LEFits(n, v);
  }

  lemma OffsetVerifies(d: seq<byte>, off: nat, ref: nat)
    requires RefAt(d, off, ref) && off + 4 <= |d| < MAX_BUFFER_SIZE && |d| % 4 == 0
    ensures V.VerifyOffset(d, |d| - off) != 0 && V.Target(d, |d| - off) == |d| - ref
  {
    hide FromLE, ToLE, V.AlignedTo;
    RangeAt();
    PositionAligned(|d|, off);
    UScalar(d, off, 4, off - ref);
  }

  lemma StringVerifies(d: seq<byte>, o: nat, s: seq<byte>)
    requires StringAt(d, o, s) && o + 4 <= |d| < MAX_BUFFER_SIZE && |d| % 4 == 0
    ensures V.VerifyString(d, |d| - o)
  {
    hide FromLE, ToLE, V.AlignedTo;
    RangeAt();
    PositionAligned(|d|, o);
    UScalar(d, o, 4, |s|);
    assert d[|d| - (o - 4 - |s|)..][..1][0] == d[|d| - o + 4 + |s|];
  }

  lemma RefsVerify(d: seq<byte>, o: nat, refs: seq<nat>)
    requires RefsAt(d, o, refs) && o + 4 <= |d| < MAX_BUFFER_SIZE && |d| % 4 == 0
    ensures V.VerifyVector(d, |d| - o, 4) && V.Length(d, |d| - o) == |refs|
  {
    hide FromLE, ToLE, V.AlignedTo, RefAt;
    RangeAt();
    PositionAligned(|d|, o);
    UScalar(d, o, 4, |refs|);
  }

  lemma ScalarsVerify(d: seq<byte>, m: nat, o: nat, s: nat, vals: seq<nat>)
    requires ScalarsAt(d, m, o, s, vals) && o + 4 <= |d| < MAX_BUFFER_SIZE && |d| % 4 == 0
    ensures V.VerifyVector(d, |d| - o, s)
  {
    hide FromLE, ToLE, V.AlignedTo, ScalarAt;
    RangeAt();
    PositionAligned(|d|, o);
    ElementsFit(s, |vals|, |d|);
    UScalar(d, o, 4, |vals|);
  }

  lemma ElementsFit(s: nat, n: nat, size: nat)
    requires ScalarSize(s) && s * n + 8 <= size < MAX_BUFFER_SIZE
    ensures n < MAX_BUFFER_SIZE / s && n < MAX_BUFFER_SIZE
  {
    if s == 1 {
    } else if s == 2 {
      assert 2 * n + 8 <= size;
    } else if s == 4 {
      assert 4 * n + 8 <= size;
    } else {
      assert 8 * n + 8 <= size;
    }
  }

  lemma ElementVerifies(d: seq<byte>, o: nat, refs: seq<nat>, i: nat)
    requires RefsAt(d, o, refs) && o + 4 <= |d| < MAX_BUFFER_SIZE && |d| % 4 == 0 && i < |refs|
    ensures V.Element(d, |d| - o, i) == |d| - refs[i]
  {
    var off := o - 4 - 4 * i;
    assert RefAt(d, off, refs[i]);
    OffsetVerifies(d, off, refs[i]);
    assert |d| - o + 4 + 4 * i == |d| - off;
  }

  // The elements of a vector of offsets lead to these objects.
  ghost predicate ElementsAre(d: seq<byte>, vec: nat, refs: seq<nat>) {
    && vec + 4 + 4 * |refs| <= |d|
    && forall i :: 0 <= i < |refs| ==> refs[i] <= |d| && V.Element(d, vec, i) == |d| - refs[i]
  }

  lemma VectorOfOffsets(d: seq<byte>, r: nat, refs: seq<nat>, vec: nat)
    requires RefsAt(d, r, refs) && r + 4 <= |d| < MAX_BUFFER_SIZE && |d| % 4 == 0 && vec == |d| - r
    ensures V.VerifyVector(d, vec, 4) && V.Length(d, vec) == |refs|
    ensures ElementsAre(d, vec, refs)
  {
    hide V.VerifyVector, V.Length;
    RefsVerify(d, r, refs);
    forall i | 0 <= i < |refs| ensures refs[i] <= |d| && V.Element(d, vec, i) == |d| - refs[i] {
      ElementVerifies(d, r, refs, i);
      RefInside(d, r - 4 - 4 * i, refs[i]);
    }
  }

  lemma SealedString(d: seq<byte>, m: nat, objs: map<nat, Obj>, o: nat)
    requires Sealed(d, m, objs) && IsString(objs, o)
    ensures o <= |d| && V.VerifyString(d, |d| - o)
  {
    SealedFacts(d, m, objs);
    assert ObjAt(d, m, o, objs[o]);
    hide StringAt, V.VerifyString;
    StringVerifies(d, o, objs[o].chars);
  }

  lemma {:induction false} StringsVerify(d: seq<byte>, m: nat, objs: map<nat, Obj>, vec: nat, refs: seq<nat>, i: nat)
    requires Sealed(d, m, objs) && i <= |refs| && ElementsAre(d, vec, refs)
    requires forall j :: 0 <= j < |refs| ==> IsString(objs, refs[j])
    ensures V.VerifyStringsFrom(d, vec, i, |refs|)
    decreases |refs| - i
  {
    hide Sealed, V.VerifyString, V.Element;
    if i < |refs| {
      SealedString(d, m, objs, refs[i]);
      StringsVerify(d, m, objs, vec, refs, i + 1);
    }
  }

  // The start of a built table is let through exactly when the counters allow it.
  lemma StartVerifies(d: seq<byte>, m: nat, o: nat, p: nat, fields: map<nat, FieldVal>, v: nat, vt: seq<byte>,
                      lim: V.Limits, st: V.Counters)
    requires TableAt(d, m, o, fields, v, vt) && o + 4 <= |d| < MAX_BUFFER_SIZE && v + 4 <= |d| && |d| % 4 == 0 && p == |d| - o
    ensures V.VerifyTableStart(d, p, lim, st).ok
       <==> V.Next(st.depth) <= lim.maxDepth && V.Next(st.tables) <= lim.maxTables
    ensures V.TableReadable(d, p)
  {
    ReadsSOffset(d, o, v);
    V.WrapInRange(|d| - v);
    VTableEntries(d, v, vt, 0);
    hide FromLE, ToLE, SOffset, V.AlignedTo, R.ReadSOffset, FieldAt, Entry, At;
    PositionAligned(|d|, o);
    PositionEven(|d|, v);
    V.EvenMask(|vt|);
    assert V.VTablePos(d, |d| - o) == |d| - v;
    VTableSizeAt(d, v, vt);
  }

  lemma VTableSizeAt(d: seq<byte>, v: nat, vt: seq<byte>)
    requires VTableAt(d, v, vt)
    ensures V.U(d, |d| - v, 2) == |vt|
  {
    var s := d[|d| - v..];
    assert s[..|vt|] == vt;
    assert d[|d| - v..|d| - v + 2] == vt[..2];
  }

  // --------------------------------------------------------- whole tables

  // Accepted exactly within the limits, counting every table once per visit.
  ghost predicate Exactly(r: V.Outcome, lim: V.Limits, st: V.Counters, depth: nat, count: nat) {
    && (r.ok <==> st.depth + depth <= lim.maxDepth && (V.Counts(lim) ==> st.tables + count <= lim.maxTables))
    && (r.ok ==> r.st.depth == st.depth && r.st.started == st.started + count)
    && (r.ok ==> r.st.deepest == Max(st.deepest, st.depth + depth))
    && (r.ok && V.Counts(lim) ==> r.st.tables == st.tables + count)
  }

  // Two verifications in sequence.
  lemma Compose(a: V.Outcome, b: V.Outcome, r: V.Outcome, lim: V.Limits, st: V.Counters, d1: nat, c1: nat, d2: nat, c2: nat)
    requires Exactly(a, lim, st, d1, c1) && r == (if a.ok then b else a)
    requires a.ok ==> Exactly(b, lim, a.st, d2, c2)
    ensures Exactly(r, lim, st, Max(d1, d2), c1 + c2)
  {
  }

  lemma CountedAfter(a: V.Outcome, lim: V.Limits, st: V.Counters, d: nat, c: nat)
    requires Exactly(a, lim, st, d, c) && V.Counted(lim, st) && a.ok
    ensures V.Counted(lim, a.st) && a.st.depth == st.depth
  {
  }

  lemma SealedTable(d: seq<byte>, m: nat, objs: map<nat, Obj>, o: nat)
    requires Sealed(d, m, objs) && o in objs && objs[o].OTable?
    ensures TableAt(d, m, o, objs[o].fields, objs[o].vtOff, objs[o].vtable)
    ensures o + 4 <= |d| && objs[o].vtOff + 4 <= |d| && |d| % 4 == 0 && |d| < MAX_BUFFER_SIZE
  {
    SealedFacts(d, m, objs);
    FieldTable(d, m, objs, o);
  }

  lemma {:induction false} TableVerifies(sch: R.Schema, d: seq<byte>, m: nat, objs: map<nat, Obj>, t: nat, o: nat, p: nat,
                                         lim: V.Limits, st: V.Counters)
    requires R.SchemaOk(sch) && Sealed(d, m, objs) && TypedTable(sch, objs, t, o) && V.Counted(lim, st)
    requires o <= |d| < MAX_BUFFER_SIZE && st.depth + o <= MAX_BUFFER_SIZE && p == |d| - o
    ensures var tree := Built(sch, objs, t, o);
      Exactly(V.VerifyTable(sch, d, t, p, lim, st), lim, st, R.Depth(tree), R.Count(tree))
    decreases o, 2, 0
  {
    SealedTable(d, m, objs, o);
    hide Sealed, TableAt, V.VerifyTableStart, V.TableReadable, R.SpecOk;
    StartVerifies(d, m, o, p, objs[o].fields, objs[o].vtOff, objs[o].vtable, lim, st);
    var s := V.VerifyTableStart(d, p, lim, st);
    if s.ok {
      FieldsVerify(sch, d, m, objs, sch[t], o, p, lim, s.st);
    }
  }

  lemma {:induction false} FieldsVerify(sch: R.Schema, d: seq<byte>, m: nat, objs: map<nat, Obj>, fs: seq<R.FieldSpec>, o: nat, p: nat,
                                        lim: V.Limits, st: V.Counters)
    requires R.SpecsOk(sch, fs) && R.SchemaOk(sch) && Sealed(d, m, objs) && V.Counted(lim, st)
    requires st.depth > 0 && st.depth - 1 + o <= MAX_BUFFER_SIZE
    requires o in objs && objs[o].OTable? && o <= |d| < MAX_BUFFER_SIZE && p == |d| - o && V.TableReadable(d, p)
    requires forall i :: 0 <= i < |fs| ==> TypedField(sch, objs, fs[i], o)
    ensures var vals := BuiltFields(sch, objs, fs, o);
      Exactly(V.VerifyFields(sch, d, fs, p, lim, st), lim, st, R.DepthVals(vals), R.CountVals(vals))
    decreases o, 1, |fs|
  {
    hide Sealed, TypedField, R.SchemaOk, R.SpecOk, V.TableReadable, R.DepthVal, R.CountVal;
    if fs != [] {
      assert R.SpecOk(sch, fs[0]);
      var v, vs := BuiltField(sch, objs, fs[0], o), BuiltFields(sch, objs, fs[1..], o);
      R.ConsVals(v, vs);
      FieldVerifies(sch, d, m, objs, fs[0], o, p, lim, st);
      var f := V.VerifyFieldVal(sch, d, fs[0], p, lim, st);
      var r := V.VerifyFields(sch, d, fs, p, lim, st);
      hide Exactly, V.Counted;
      if f.ok {
        CountedAfter(f, lim, st, R.DepthVal(v), R.CountVal(v));
        FieldsVerify(sch, d, m, objs, fs[1..], o, p, lim, f.st);
        Compose(f, r, r, lim, st, R.DepthVal(v), R.CountVal(v), R.DepthVals(vs), R.CountVals(vs));
      } else {
        Compose(f, f, r, lim, st, R.DepthVal(v), R.CountVal(v), R.DepthVals(vs), R.CountVals(vs));
      }
    }
  }

  lemma {:induction false} FieldVerifies(sch: R.Schema, d: seq<byte>, m: nat, objs: map<nat, Obj>, f: R.FieldSpec, o: nat, p: nat,
                                         lim: V.Limits, st: V.Counters)
    requires R.SpecOk(sch, f) && R.SchemaOk(sch) && Sealed(d, m, objs) && V.Counted(lim, st)
    requires st.depth > 0 && st.depth - 1 + o <= MAX_BUFFER_SIZE
    requires o in objs && objs[o].OTable? && o <= |d| < MAX_BUFFER_SIZE && p == |d| - o && V.TableReadable(d, p)
    requires TypedField(sch, objs, f, o)
    ensures var v := BuiltField(sch, objs, f, o);
      Exactly(V.VerifyFieldVal(sch, d, f, p, lim, st), lim, st, R.DepthVal(v), R.CountVal(v))
    decreases o, 0, 1
  {
    hide Sealed, R.SchemaOk, V.TableReadable, V.VerifyReferenced;
    if f.kind.KScalar? {
      ScalarFieldVerifies(sch, d, m, objs, f, o, p, lim, st);
    } else if f.id !in objs[o].fields {
      AbsentFieldVerifies(sch, d, m, objs, f, o, p, lim, st);
    } else {
      var e, r := RefEntry(sch, d, m, objs, f, o, p);
      RefFieldVerifies(sch, d, f, o, p, e, r, |d| - r, lim, st);
      ReferencedVerifies(sch, d, m, objs, f, o, r, |d| - r, lim, st);
    }
  }

  // The vtable entry of a field, as a lookup finds it.
  lemma FieldEntry(d: seq<byte>, m: nat, objs: map<nat, Obj>, o: nat, p: nat, f: nat)
    requires Sealed(d, m, objs) && o in objs && objs[o].OTable? && FieldId(f) && o <= |d| && p == |d| - o
    ensures var fields, e := objs[o].fields, Entry(objs[o].vtable, f);
      && R.FieldOffset(d, p, f) == Some(e)
      && (if f in fields then FieldAt(d, m, o, e, fields[f]) else e == 0)
    ensures o + 4 <= |d| && |d| % 4 == 0
  {
    SealedTable(d, m, objs, o);
    ReadsFieldOffset(d, m, o, objs[o].fields, objs[o].vtOff, objs[o].vtable, f);
    hide Sealed, R.FieldOffset, Entry, FieldAt, VTableAt, At, SOffset;
  }

  lemma ScalarFieldVerifies(sch: R.Schema, d: seq<byte>, m: nat, objs: map<nat, Obj>, f: R.FieldSpec, o: nat, p: nat,
                            lim: V.Limits, st: V.Counters)
    requires R.SpecOk(sch, f) && R.SchemaOk(sch) && Sealed(d, m, objs)
    requires o in objs && objs[o].OTable? && o <= |d| < MAX_BUFFER_SIZE && p == |d| - o && V.TableReadable(d, p)
    requires TypedField(sch, objs, f, o) && f.kind.KScalar?
    ensures V.VerifyFieldVal(sch, d, f, p, lim, st) == V.Outcome(true, st)
    ensures R.DepthVal(BuiltField(sch, objs, f, o)) == 0 && R.CountVal(BuiltField(sch, objs, f, o)) == 0
  {
    FieldEntry(d, m, objs, o, p, f.id);
    hide Sealed, Entry, R.SchemaOk, V.TableReadable, R.FieldOffset, At, ToLE, Aligned;
  }

  lemma AbsentFieldVerifies(sch: R.Schema, d: seq<byte>, m: nat, objs: map<nat, Obj>, f: R.FieldSpec, o: nat, p: nat,
                            lim: V.Limits, st: V.Counters)
    requires R.SpecOk(sch, f) && R.SchemaOk(sch) && Sealed(d, m, objs)
    requires o in objs && objs[o].OTable? && o <= |d| < MAX_BUFFER_SIZE && p == |d| - o && V.TableReadable(d, p)
    requires TypedField(sch, objs, f, o) && !f.kind.KScalar? && f.id !in objs[o].fields
    ensures V.VerifyFieldVal(sch, d, f, p, lim, st) == V.Outcome(true, st)
    ensures BuiltField(sch, objs, f, o) == R.VNull
  {
    FieldEntry(d, m, objs, o, p, f.id);
    hide Sealed, Entry, R.SchemaOk, V.TableReadable, R.FieldOffset;
  }

  lemma RefEntry(sch: R.Schema, d: seq<byte>, m: nat, objs: map<nat, Obj>, f: R.FieldSpec, o: nat, p: nat) returns (e: nat, r: nat)
    requires R.SpecOk(sch, f) && Sealed(d, m, objs)
    requires o in objs && objs[o].OTable? && o <= |d| && p == |d| - o
    requires TypedField(sch, objs, f, o) && !f.kind.KScalar? && f.id in objs[o].fields
    ensures objs[o].fields[f.id] == FRef(r)
    ensures 0 < e < o && R.FieldOffset(d, p, f.id) == Some(e)
    ensures RefAt(d, o - e, r) && o + 4 <= |d| && |d| % 4 == 0
  {
    FieldEntry(d, m, objs, o, p, f.id);
    FieldIsRef(sch, objs, f, o);
    hide Sealed, R.FieldOffset, RefAt, Entry, TypedField;
    e := Entry(objs[o].vtable, f.id);
    r := objs[o].fields[f.id].ref;
  }

  lemma RefFieldVerifies(sch: R.Schema, d: seq<byte>, f: R.FieldSpec, o: nat, p: nat, e: nat, r: nat, q: nat,
                         lim: V.Limits, st: V.Counters)
    requires R.SpecOk(sch, f) && R.SchemaOk(sch) && !f.kind.KScalar?
    requires o + 4 <= |d| < MAX_BUFFER_SIZE && V.TableReadable(d, p) && |d| % 4 == 0 && p == |d| - o && q == |d| - r
    requires 0 < e < o && R.FieldOffset(d, p, f.id) == Some(e) && RefAt(d, o - e, r)
    ensures V.VerifyFieldVal(sch, d, f, p, lim, st) == V.VerifyReferenced(sch, d, f.kind, q, lim, st)
  {
    RefInside(d, o - e, r);
    hide R.SchemaOk, V.TableReadable, R.FieldOffset, V.VerifyReferenced, V.VerifyFieldVal, RefAt;
    StoredOffset(d, o - e, r, p + e, q);
    OffsetFollowed(sch, d, f, p, e, p + e, q, lim, st);
  }

  lemma StoredOffset(d: seq<byte>, off: nat, ref: nat, at: nat, q: nat)
    requires RefAt(d, off, ref) && off + 4 <= |d| < MAX_BUFFER_SIZE && |d| % 4 == 0
    requires at == |d| - off && q == |d| - ref
    ensures V.VerifyOffset(d, at) != 0 && V.Target(d, at) == q
  {
    hide RefAt, V.VerifyOffset, V.Target;
    OffsetVerifies(d, off, ref);
  }

  // A reference field with a good offset is as good as what it leads to.
  lemma OffsetFollowed(sch: R.Schema, d: seq<byte>, f: R.FieldSpec, p: nat, e: nat, at: nat, q: nat,
                       lim: V.Limits, st: V.Counters)
    requires R.SpecOk(sch, f) && R.SchemaOk(sch) && !f.kind.KScalar?
    requires |d| < MAX_BUFFER_SIZE && V.TableReadable(d, p) && R.FieldOffset(d, p, f.id) == Some(e)
    requires e != 0 && at == p + e && V.VerifyOffset(d, at) != 0 && V.Target(d, at) == q
    ensures V.VerifyFieldVal(sch, d, f, p, lim, st) == V.VerifyReferenced(sch, d, f.kind, q, lim, st)
  {
    hide R.SchemaOk, V.TableReadable, R.FieldOffset, V.VerifyReferenced, V.VerifyOffset, V.Target;
  }

  // The object a reference field leads to lies in the buffer.
  lemma SealedObject(d: seq<byte>, m: nat, objs: map<nat, Obj>, r: nat)
    requires Sealed(d, m, objs) && r in objs
    ensures ObjAt(d, m, r, objs[r]) && r + 4 <= |d| < MAX_BUFFER_SIZE && |d| % 4 == 0
  {
    SealedFacts(d, m, objs);
    hide ObjAt;
  }

  lemma StringsVectorAt(d: seq<byte>, m: nat, objs: map<nat, Obj>, r: nat, refs: seq<nat>, vec: nat)
    requires Sealed(d, m, objs) && RefsAt(d, r, refs) && r + 4 <= |d| < MAX_BUFFER_SIZE && |d| % 4 == 0
    requires vec == |d| - r && forall i :: 0 <= i < |refs| ==> IsString(objs, refs[i])
    ensures V.VerifyVector(d, vec, 4) && V.VerifyStringsFrom(d, vec, 0, V.Length(d, vec))
  {
    hide Sealed, RefsAt, V.VerifyString, V.VerifyVector, V.Length, ElementsAre, V.VerifyStringsFrom, IsString;
    VectorOfOffsets(d, r, refs, vec);
    StringsVerify(d, m, objs, vec, refs, 0);
  }

  lemma ScalarsVectorVerifies(d: seq<byte>, m: nat, objs: map<nat, Obj>, r: nat, q: nat)
    requires Sealed(d, m, objs) && r in objs && objs[r].OScalars? && q == |d| - r
    ensures objs[r].size > 0 && V.VerifyVector(d, q, objs[r].size)
  {
    SealedObject(d, m, objs, r);
    ScalarsVerify(d, m, r, objs[r].size, objs[r].vals);
  }

  lemma StringVerifiesAt(d: seq<byte>, m: nat, objs: map<nat, Obj>, r: nat, q: nat)
    requires Sealed(d, m, objs) && IsString(objs, r) && q == |d| - r
    ensures V.VerifyString(d, q)
  {
    hide Sealed, V.VerifyString;
    SealedString(d, m, objs, r);
  }

  // Strings and vectors of plain values count no tables.
  lemma LeafVerifies(sch: R.Schema, d: seq<byte>, m: nat, objs: map<nat, Obj>, f: R.FieldSpec, o: nat, r: nat, q: nat,
                     lim: V.Limits, st: V.Counters)
    requires R.KindOk(sch, f.kind) && R.SchemaOk(sch) && Sealed(d, m, objs)
    requires f.kind.KString? || f.kind.KStrings? || f.kind.KScalars?
    requires o in objs && objs[o].OTable? && r <= |d| < MAX_BUFFER_SIZE && q == |d| - r
    requires TypedField(sch, objs, f, o) && f.id in objs[o].fields && objs[o].fields[f.id] == FRef(r)
    ensures V.VerifyReferenced(sch, d, f.kind, q, lim, st) == V.Outcome(true, st)
    ensures R.DepthVal(BuiltField(sch, objs, f, o)) == 0 && R.CountVal(BuiltField(sch, objs, f, o)) == 0
  {
    hide Sealed, R.SchemaOk, V.VerifyString, V.VerifyVector, V.Length, V.VerifyStringsFrom;
    match f.kind
    case KString => StringVerifiesAt(d, m, objs, r, q);
    case KStrings =>
      SealedObject(d, m, objs, r);
      StringsVectorAt(d, m, objs, r, objs[r].refs, q);
    case KScalars(s) => ScalarsVectorVerifies(d, m, objs, r, q);
  }

  lemma {:induction false} ReferencedVerifies(sch: R.Schema, d: seq<byte>, m: nat, objs: map<nat, Obj>, f: R.FieldSpec, o: nat,
                                              r: nat, q: nat, lim: V.Limits, st: V.Counters)
    requires R.KindOk(sch, f.kind) && R.SchemaOk(sch) && Sealed(d, m, objs) && V.Counted(lim, st)
    requires st.depth > 0 && st.depth - 1 + o <= MAX_BUFFER_SIZE
    requires o in objs && objs[o].OTable? && r <= |d| < MAX_BUFFER_SIZE && !f.kind.KScalar? && q == |d| - r
    requires TypedField(sch, objs, f, o) && f.id in objs[o].fields && objs[o].fields[f.id] == FRef(r)
    ensures var v := BuiltField(sch, objs, f, o);
      Exactly(V.VerifyReferenced(sch, d, f.kind, q, lim, st), lim, st, R.DepthVal(v), R.CountVal(v))
    decreases o, 0, 0
  {
    hide Sealed, RefsAt, R.SchemaOk, V.VerifyVector, V.Length, ElementsAre;
    if f.kind.KTable? {
      TableVerifies(sch, d, m, objs, f.kind.table, r, q, lim, st);
    } else if f.kind.KTables? {
      SealedObject(d, m, objs, r);
      VectorOfOffsets(d, r, objs[r].refs, q);
      assert objs[r].refs[0..] == objs[r].refs;
      TablesVerify(sch, d, m, objs, f.kind.table, q, objs[r].refs, 0, o, lim, st);
    } else {
      LeafVerifies(sch, d, m, objs, f, o, r, q, lim, st);
    }
  }

  lemma {:induction false} TablesVerify(sch: R.Schema, d: seq<byte>, m: nat, objs: map<nat, Obj>, t: nat, vec: nat, refs: seq<nat>,
                                        i: nat, bound: nat, lim: V.Limits, st: V.Counters)
    requires R.SchemaOk(sch) && Sealed(d, m, objs) && V.Counted(lim, st) && t < |sch|
    requires st.depth > 0 && st.depth - 1 + bound <= MAX_BUFFER_SIZE
    requires |d| < MAX_BUFFER_SIZE && i <= |refs| && ElementsAre(d, vec, refs)
    requires forall j :: 0 <= j < |refs| ==> refs[j] < bound && TypedTable(sch, objs, t, refs[j])
    ensures var trees := BuiltTables(sch, objs, t, refs[i..], bound);
      Exactly(V.VerifyTables(sch, d, t, vec, i, |refs|, lim, st), lim, st, R.DepthTrees(trees), R.CountTrees(trees))
    decreases bound, 0, 0, |refs| - i
  {
    hide Sealed, TypedTable, R.SchemaOk, V.Element, R.Depth, R.Count, Built, V.VerifyTable;
    if i < |refs| {
      assert refs[i..][1..] == refs[i + 1..];
      var tree, trees := Built(sch, objs, t, refs[i]), BuiltTables(sch, objs, t, refs[i + 1..], bound);
      assert BuiltTables(sch, objs, t, refs[i..], bound) == [tree] + trees;
      var x := V.VerifyTable(sch, d, t, |d| - refs[i], lim, st);
      var r := V.VerifyTables(sch, d, t, vec, i, |refs|, lim, st);
      assert r == if x.ok then V.VerifyTables(sch, d, t, vec, i + 1, |refs|, lim, x.st) else x;
      hide ElementsAre, BuiltTables, V.VerifyTables, R.DepthTrees, R.CountTrees, Exactly, V.Counted;
      R.ConsTrees(tree, trees);
      TableVerifies(sch, d, m, objs, t, refs[i], |d| - refs[i], lim, st);
      if x.ok {
        CountedAfter(x, lim, st, R.Depth(tree), R.Count(tree));
        TablesVerify(sch, d, m, objs, t, vec, refs, i + 1, bound, lim, x.st);
        Compose(x, r, r, lim, st, R.Depth(tree), R.Count(tree), R.DepthTrees(trees), R.CountTrees(trees));
      } else {
        Compose(x, x, r, lim, st, R.Depth(tree), R.Count(tree), R.DepthTrees(trees), R.CountTrees(trees));
      }
    }
  }
}
