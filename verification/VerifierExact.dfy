// What the verifier accepts, exactly: the buffers whose accessors, followed from
// the root, find what the schema says, within the limits.
module VerifierExact {
  import opened Bits
  import opened Bytes
  import opened Options
  import opened Reader
  import opened VerifierSpec
  import opened VerifierSoundness

  // ------------------------------------------------------- well-formed buffers
  // Stated through the accessors, without the verifier.

  // A range of the buffer that is not all of it.
  predicate Inside(b: seq<byte>, p: int, n: nat) {
    0 <= p && p + n <= |b| && n < |b|
  }

  // Two gigabytes, the most a vector may take.
  predicate GoodVector(b: seq<byte>, q: int, size: nat)
    requires size > 0
  {
    && q % 4 == 0 && Inside(b, q, 4)
    && var n := ReadU(b, q, 4).value;
    && n < 0x7FFF_FFFF / size && Inside(b, q, 4 + size * n)
  }

  // Aligned, inside, and followed by a zero.
  predicate GoodString(b: seq<byte>, q: int) {
    && GoodVector(b, q, 1)
    && var n := ReadU(b, q, 4).value;
    && Inside(b, q + 4 + n, 1) && b[q + 4 + n] == 0
  }

  // The offset stored at `p` leads forward to a byte of the buffer.
  predicate GoodOffset(b: seq<byte>, p: int) {
    && p % 4 == 0 && Inside(b, p, 4)
    && var o := ReadU(b, p, 4).value;
    && 0 < o < 0x8000_0000 && Inside(b, p + o, 1)
  }

  // A table starts here and its vtable, of even size, lies inside.
  predicate GoodStart(b: seq<byte>, p: int) {
    && p % 4 == 0 && Inside(b, p, 4)
    && var vtable := p - ReadSOffset(b, p).value;
    && vtable % 2 == 0 && Inside(b, vtable, 2)
    && var size := ReadU(b, vtable, 2).value;
    && size % 2 == 0 && Inside(b, vtable, size)
  }

  predicate GoodStrings(b: seq<byte>, q: int, i: nat)
    requires GoodVector(b, q, 4)
  {
    forall j :: i <= j < ReadU(b, q, 4).value ==> GoodString(b, At(b, q, j))
  }

  ghost predicate GoodTable(sch: Schema, b: seq<byte>, t: nat, p: int)
    requires SchemaOk(sch) && t < |sch|
    decreases if 0 <= p < |b| then |b| - p else 0, 2
  {
    GoodStart(b, p) && forall i :: 0 <= i < |sch[t]| ==> GoodField(sch, b, sch[t][i], p)
  }

  // A scalar lies inside or is absent; a required field is present; a reference
  // leads to what the schema says.
  ghost predicate GoodField(sch: Schema, b: seq<byte>, f: FieldSpec, p: int)
    requires SchemaOk(sch) && SpecOk(sch, f)
    decreases if 0 <= p < |b| then |b| - p else 0, 1
  {
    && GoodStart(b, p)
    && FieldOffset(b, p, f.id).Some?
    && var e := FieldOffset(b, p, f.id).value;
    && if e == 0 then !f.required
       else if f.kind.KScalar? then Inside(b, p + e, f.kind.size)
       else GoodOffset(b, p + e) && GoodObject(sch, b, f.kind, p + e + ReadU(b, p + e, 4).value)
  }

  ghost predicate GoodObject(sch: Schema, b: seq<byte>, k: Kind, q: int)
    requires SchemaOk(sch) && KindOk(sch, k) && !k.KScalar?
    decreases if 0 <= q < |b| then |b| - q else 0, 3
  {
    match k
    case KString => GoodString(b, q)
    case KStrings => GoodVector(b, q, 4) && GoodStrings(b, q, 0)
    case KScalars(size) => GoodVector(b, q, size)
    case KTable(t) => GoodTable(sch, b, t, q)
    case KTables(t) => GoodVector(b, q, 4) && forall i :: 0 <= i < ReadU(b, q, 4).value ==> GoodTable(sch, b, t, At(b, q, i))
  }

  // Where element `i` of a vector of offsets leads.
  function At(b: seq<byte>, q: int, i: nat): (r: int)
    requires GoodVector(b, q, 4) && i < ReadU(b, q, 4).value
    ensures r >= q + 4
  {
    ElementPos(b, q, i).value
  }

  // ------------------------------------------------------------ single checks

  lemma AlignedFour(p: nat)
    ensures AlignedTo(p, 4) <==> p % 4 == 0
  {
    assert Pow2(2) == 4;
    AndLowMask(p, 2);
  }

  lemma VectorIs(b: seq<byte>, q: nat, size: nat)
    requires size > 0
    ensures VerifyVector(b, q, size) <==> GoodVector(b, q, size)
    ensures VerifyVector(b, q, size) ==> ReadU(b, q, 4) == Some(Length(b, q)) && q + 4 + size * Length(b, q) <= |b|
  {
    hide AlignedTo, FromLE;
    AlignedFour(q);
  }

  lemma StringIs(b: seq<byte>, q: nat)
    ensures VerifyString(b, q) <==> GoodString(b, q)
  {
    hide AlignedTo, FromLE, ScalarInRange;
    VectorIs(b, q, 1);
    if VerifyVector(b, q, 1) {
      assert VerifyVectorOrString(b, q, 1) == q + 4 + ReadU(b, q, 4).value;
    }
  }

  lemma OffsetIs(b: seq<byte>, p: nat)
    ensures VerifyOffset(b, p) != 0 <==> GoodOffset(b, p)
    ensures VerifyOffset(b, p) != 0 ==> ReadU(b, p, 4) == Some(U(b, p, 4)) && Target(b, p) == p + U(b, p, 4) > p
  {
    hide AlignedTo, FromLE;
    AlignedFour(p);
  }

  lemma {:induction false} StringsAre(b: seq<byte>, q: nat, i: nat)
    requires GoodVector(b, q, 4) && i <= ReadU(b, q, 4).value
    ensures q + 4 + 4 * ReadU(b, q, 4).value <= |b|
    ensures VerifyStringsFrom(b, q, i, ReadU(b, q, 4).value) <==> GoodStrings(b, q, i)
    decreases ReadU(b, q, 4).value - i
  {
    hide VerifyString, GoodString;
    if i < ReadU(b, q, 4).value {
      StringsAre(b, q, i + 1);
      ElementReads(b, q, i);
      StringIs(b, Element(b, q, i));
      assert GoodStrings(b, q, i) <==> GoodString(b, At(b, q, i)) && GoodStrings(b, q, i + 1);
    }
  }

  // ------------------------------------------------------------ whole tables

  // Accepted exactly when the bytes are good and the limits allow it.
  ghost predicate Exact(r: Outcome, good: bool, lim: Limits, st: Counters, depth: nat, count: nat) {
    && (r.ok <==> good && st.depth + depth <= lim.maxDepth && (Counts(lim) ==> st.tables + count <= lim.maxTables))
    && (r.ok ==> r.st.depth == st.depth && (Counts(lim) ==> r.st.tables == st.tables + count))
  }

  // Counters that cannot wrap.
  ghost predicate Fresh(lim: Limits, st: Counters) {
    st.depth <= lim.maxDepth && (Counts(lim) ==> st.tables <= lim.maxTables)
  }

  lemma ExactThen(a: Outcome, b: Outcome, r: Outcome, good1: bool, good2: bool, lim: Limits, st: Counters,
                  d1: nat, c1: nat, d2: nat, c2: nat)
    requires Exact(a, good1, lim, st, d1, c1) && r == (if a.ok then b else a)
    requires a.ok ==> Exact(b, good2, lim, a.st, d2, c2)
    ensures Exact(r, good1 && good2, lim, st, Max(d1, d2), c1 + c2)
  {
  }

  lemma FreshAfter(a: Outcome, good: bool, lim: Limits, st: Counters, d: nat, c: nat)
    requires Exact(a, good, lim, st, d, c) && Fresh(lim, st) && a.ok
    ensures Fresh(lim, a.st) && a.st.depth == st.depth
  {
  }

  // Bad bytes are rejected whatever is read from them.
  lemma BadAnyway(r: Outcome, lim: Limits, st: Counters, d: nat, c: nat, e: nat, f: nat)
    requires Exact(r, false, lim, st, d, c)
    ensures Exact(r, false, lim, st, e, f)
  {
  }

  function DepthOf(t: Option<Tree>): nat {
    if t.Some? then Depth(t.value) else 0
  }

  function CountOf(t: Option<Tree>): nat {
    if t.Some? then Count(t.value) else 0
  }

  function DepthOfVals(v: Option<seq<Val>>): nat {
    if v.Some? then DepthVals(v.value) else 0
  }

  function CountOfVals(v: Option<seq<Val>>): nat {
    if v.Some? then CountVals(v.value) else 0
  }

  function DepthOfVal(v: Option<Val>): nat {
    if v.Some? then DepthVal(v.value) else 0
  }

  function CountOfVal(v: Option<Val>): nat {
    if v.Some? then CountVal(v.value) else 0
  }

  function DepthOfTrees(ts: Option<seq<Tree>>): nat {
    if ts.Some? then DepthTrees(ts.value) else 0
  }

  function CountOfTrees(ts: Option<seq<Tree>>): nat {
    if ts.Some? then CountTrees(ts.value) else 0
  }

  // The first fields, and the first elements.
  ghost predicate GoodFields(sch: Schema, b: seq<byte>, fs: seq<FieldSpec>, p: int)
    requires SchemaOk(sch) && SpecsOk(sch, fs)
  {
    forall i :: 0 <= i < |fs| ==> GoodField(sch, b, fs[i], p)
  }

  ghost predicate GoodElements(sch: Schema, b: seq<byte>, t: nat, q: int, i: nat)
    requires SchemaOk(sch) && t < |sch| && GoodVector(b, q, 4)
  {
    forall j :: i <= j < ReadU(b, q, 4).value ==> GoodTable(sch, b, t, At(b, q, j))
  }

  // ------------------------------------------- required fields, in the tree

  // No required field is null, through all subtables and vectors of tables.
  predicate Complete(sch: Schema, t: nat, tree: Tree)
    decreases tree
  {
    && t < |sch| && |tree.vals| == |sch[t]|
    && forall i :: 0 <= i < |tree.vals| ==> CompleteVal(sch, sch[t][i], tree.vals[i])
  }

  predicate CompleteVal(sch: Schema, f: FieldSpec, v: Val)
    decreases v
  {
    match v
    case VNull => !f.required
    case VTable(tree) => f.kind.KTable? && Complete(sch, f.kind.table, tree)
    case VTables(trees) => f.kind.KTables? && forall i :: 0 <= i < |trees| ==> Complete(sch, f.kind.table, trees[i])
    case _ => true
  }

  lemma ReadsAt(b: seq<byte>, q: int, i: nat)
    requires GoodVector(b, q, 4) && i < ReadU(b, q, 4).value
    ensures ElementPos(b, q, i) == Some(At(b, q, i)) && At(b, q, i) > q
  {
    hide FromLE;
  }

  lemma GoodStringReads(b: seq<byte>, q: int)
    requires GoodString(b, q)
    ensures ReadString(b, q).Some?
  {
    hide FromLE;
  }

  lemma {:induction false} GoodStringsRead(b: seq<byte>, q: int, i: nat)
    requires GoodVector(b, q, 4) && GoodStrings(b, q, i) && i <= ReadU(b, q, 4).value
    ensures ReadStrings(b, q, i, ReadU(b, q, 4).value).Some?
    decreases ReadU(b, q, 4).value - i
  {
    hide GoodString, ReadString, ElementPos;
    if i < ReadU(b, q, 4).value {
      ReadsAt(b, q, i);
      GoodStringReads(b, At(b, q, i));
      GoodStringsRead(b, q, i + 1);
    }
  }

  // Good bytes read as a tree with every required field.
  lemma {:induction false} GoodTableReads(sch: Schema, b: seq<byte>, t: nat, p: nat, fuel: nat)
    requires SchemaOk(sch) && t < |sch| && GoodTable(sch, b, t, p) && fuel > Room(b, p)
    ensures ReadTable(sch, b, t, p, fuel).Some? && Complete(sch, t, ReadTable(sch, b, t, p, fuel).value)
    decreases Room(b, p), 4, 0
  {
    hide GoodField, GoodStart;
    GoodFieldsRead(sch, b, sch[t], p, fuel - 1);
  }

  lemma {:induction false} GoodFieldsRead(sch: Schema, b: seq<byte>, fs: seq<FieldSpec>, p: nat, fuel: nat)
    requires SchemaOk(sch) && SpecsOk(sch, fs) && GoodFields(sch, b, fs, p) && fuel >= Room(b, p)
    ensures var vals := ReadFields(sch, b, fs, p, fuel);
      && vals.Some? && |vals.value| == |fs|
      && forall i :: 0 <= i < |fs| ==> CompleteVal(sch, fs[i], vals.value[i])
    decreases Room(b, p), 3, |fs|
  {
    hide GoodField, SchemaOk, SpecOk, CompleteVal;
    if fs != [] {
      assert GoodField(sch, b, fs[0], p);
      GoodFieldReads(sch, b, fs[0], p, fuel);
      GoodFieldsRead(sch, b, fs[1..], p, fuel);
    }
  }

  lemma {:induction false} GoodFieldReads(sch: Schema, b: seq<byte>, f: FieldSpec, p: nat, fuel: nat)
    requires SchemaOk(sch) && SpecOk(sch, f) && GoodField(sch, b, f, p) && fuel >= Room(b, p)
    ensures ReadFieldVal(sch, b, f, p, fuel).Some? && CompleteVal(sch, f, ReadFieldVal(sch, b, f, p, fuel).value)
    decreases Room(b, p), 2, 0
  {
    hide SchemaOk, GoodStart, FromLE, FieldOffset, GoodObject, ReadReferenced;
    var e := FieldOffset(b, p, f.id).value;
    if e != 0 && !f.kind.KScalar? {
      var q := p + e + ReadU(b, p + e, 4).value;
      GoodObjectReads(sch, b, f, q, fuel);
    }
  }

  lemma {:induction false} GoodObjectReads(sch: Schema, b: seq<byte>, f: FieldSpec, q: nat, fuel: nat)
    requires SchemaOk(sch) && KindOk(sch, f.kind) && !f.kind.KScalar? && GoodObject(sch, b, f.kind, q) && fuel > Room(b, q)
    ensures ReadReferenced(sch, b, f.kind, q, fuel).Some?
    ensures CompleteVal(sch, f, ReadReferenced(sch, b, f.kind, q, fuel).value)
    decreases Room(b, q), 5, 0
  {
    hide SchemaOk, FromLE, Complete;
    match f.kind
    case KString => GoodStringReads(b, q);
    case KStrings => GoodStringsRead(b, q, 0);
    case KScalars(size) => ScalarsRead(b, q, size, 0, ReadU(b, q, 4).value);
    case KTable(t) => GoodTableReads(sch, b, t, q, fuel);
    case KTables(t) => GoodTablesRead(sch, b, t, q, 0, fuel);
  }

  lemma {:induction false} GoodTablesRead(sch: Schema, b: seq<byte>, t: nat, q: nat, i: nat, fuel: nat)
    requires SchemaOk(sch) && t < |sch| && GoodVector(b, q, 4) && i <= ReadU(b, q, 4).value && fuel > Room(b, q)
    requires GoodElements(sch, b, t, q, i)
    ensures var trees := ReadTables(sch, b, t, q, i, ReadU(b, q, 4).value, fuel);
      trees.Some? && forall j :: 0 <= j < |trees.value| ==> Complete(sch, t, trees.value[j])
    decreases Room(b, q), 1, 0, ReadU(b, q, 4).value - i
  {
    hide SchemaOk, GoodTable, Complete, ElementPos;
    if i < ReadU(b, q, 4).value {
      ReadsAt(b, q, i);
      GoodTableReads(sch, b, t, At(b, q, i), fuel);
      GoodTablesRead(sch, b, t, q, i + 1, fuel);
    }
  }

  // ------------------------------------------------- what the verifier accepts

  lemma StartIs(b: seq<byte>, p: nat, lim: Limits, st: Counters)
    requires |b| < MAX_BUFFER_SIZE && Fresh(lim, st) && st.depth <= MAX_BUFFER_SIZE
    ensures VerifyTableStart(b, p, lim, st).ok
       <==> GoodStart(b, p) && st.depth + 1 <= lim.maxDepth && (Counts(lim) ==> st.tables + 1 <= lim.maxTables)
    ensures GoodStart(b, p) ==> TableReadable(b, p)
  {
    hide FromLE, And;
    AlignedFour(p);
    if Inside(b, p, 4) {
      ReadSOffsetBound(b, p);
      WrapInRange(p - ReadSOffset(b, p).value);
      EvenMask(VTablePos(b, p));
      if VTablePos(b, p) + 2 <= |b| {
        EvenMask(U(b, VTablePos(b, p), 2));
      }
    }
  }

  lemma {:induction false} TableExact(sch: Schema, b: seq<byte>, t: nat, p: nat, lim: Limits, st: Counters, fuel: nat)
    requires |b| < MAX_BUFFER_SIZE && SchemaOk(sch) && t < |sch|
    requires Fresh(lim, st) && Shallow(b, p, st.depth) && fuel > Room(b, p)
    ensures var tree := ReadTable(sch, b, t, p, fuel);
      Exact(VerifyTable(sch, b, t, p, lim, st), GoodTable(sch, b, t, p), lim, st, DepthOf(tree), CountOf(tree))
    decreases Room(b, p), 4, 0
  {
    StartIs(b, p, lim, st);
    var s := VerifyTableStart(b, p, lim, st);
    hide VerifyTableStart, TableReadable, GoodField, GoodStart, SchemaOk;
    if GoodTable(sch, b, t, p) {
      GoodTableReads(sch, b, t, p, fuel);
    }
    if s.ok {
      FieldsExact(sch, b, sch[t], p, lim, s.st, fuel - 1);
    }
  }

  lemma {:induction false} FieldsExact(sch: Schema, b: seq<byte>, fs: seq<FieldSpec>, p: nat, lim: Limits, st: Counters, fuel: nat)
    requires |b| < MAX_BUFFER_SIZE && SchemaOk(sch) && SpecsOk(sch, fs) && TableReadable(b, p) && GoodStart(b, p)
    requires Fresh(lim, st) && st.depth > 0 && Shallow(b, p, st.depth - 1) && fuel >= Room(b, p)
    ensures var vals := ReadFields(sch, b, fs, p, fuel);
      Exact(VerifyFields(sch, b, fs, p, lim, st), GoodFields(sch, b, fs, p), lim, st, DepthOfVals(vals), CountOfVals(vals))
    decreases Room(b, p), 3, |fs|
  {
    hide SchemaOk, SpecOk, GoodStart, TableReadable, GoodField, VerifyFieldVal, ReadFieldVal, DepthVal, CountVal;
    if fs != [] {
      var v, rest := ReadFieldVal(sch, b, fs[0], p, fuel), ReadFields(sch, b, fs[1..], p, fuel);
      var f, r := VerifyFieldVal(sch, b, fs[0], p, lim, st), VerifyFields(sch, b, fs, p, lim, st);
      var good1, good2 := GoodField(sch, b, fs[0], p), GoodFields(sch, b, fs[1..], p);
      assert GoodFields(sch, b, fs, p) <==> good1 && good2;
      FieldExact(sch, b, fs[0], p, lim, st, fuel);
      if f.ok {
        FieldsExact(sch, b, fs[1..], p, lim, f.st, fuel);
        ExactThen(f, r, r, good1, good2, lim, st, DepthOfVal(v), CountOfVal(v), DepthOfVals(rest), CountOfVals(rest));
      } else {
        ExactThen(f, f, r, good1, good2, lim, st, DepthOfVal(v), CountOfVal(v), DepthOfVals(rest), CountOfVals(rest));
      }
      if good1 && good2 {
        GoodFieldReads(sch, b, fs[0], p, fuel);
        GoodFieldsRead(sch, b, fs[1..], p, fuel);
        ConsVals(v.value, rest.value);
      }
    }
  }

  lemma {:induction false} FieldExact(sch: Schema, b: seq<byte>, f: FieldSpec, p: nat, lim: Limits, st: Counters, fuel: nat)
    requires |b| < MAX_BUFFER_SIZE && SchemaOk(sch) && SpecOk(sch, f) && TableReadable(b, p) && GoodStart(b, p)
    requires Fresh(lim, st) && st.depth > 0 && Shallow(b, p, st.depth - 1) && fuel >= Room(b, p)
    ensures var v := ReadFieldVal(sch, b, f, p, fuel);
      Exact(VerifyFieldVal(sch, b, f, p, lim, st), GoodField(sch, b, f, p), lim, st, DepthOfVal(v), CountOfVal(v))
    decreases Room(b, p), 2, 0
  {
    hide SchemaOk, GoodStart, TableReadable, GoodObject, ReadReferenced, VerifyReferenced, VerifyOffset, GoodOffset, Exact, VerifyFieldVal,
      GoodField, ReadFieldVal, DepthOfVal, CountOfVal;
    FieldReads(b, p, f.id);
    var e := Entry(b, p, f.id);
    if e == 0 || f.kind.KScalar? {
      PlainField(sch, b, f, p, lim, st, fuel);
    } else {
      OffsetIs(b, p + e);
      if VerifyOffset(b, p + e) == 0 {
        BadField(sch, b, f, p, e, lim, st, fuel);
      } else {
        FieldFollows(sch, b, f, p, e, Target(b, p + e), lim, st, fuel);
        ReferencedExact(sch, b, f.kind, Target(b, p + e), lim, st, fuel);
      }
    }
  }

  // Scalars and absent fields.
  lemma PlainField(sch: Schema, b: seq<byte>, f: FieldSpec, p: nat, lim: Limits, st: Counters, fuel: nat)
    requires |b| < MAX_BUFFER_SIZE && SchemaOk(sch) && SpecOk(sch, f) && TableReadable(b, p) && GoodStart(b, p) && Fresh(lim, st)
    requires f.kind.KScalar? || Entry(b, p, f.id) == 0
    ensures var v := ReadFieldVal(sch, b, f, p, fuel);
      Exact(VerifyFieldVal(sch, b, f, p, lim, st), GoodField(sch, b, f, p), lim, st, DepthOfVal(v), CountOfVal(v))
  {
    FieldReads(b, p, f.id);
    hide SchemaOk, GoodStart, TableReadable, FieldOffset, Entry, FromLE;
  }

  lemma BadField(sch: Schema, b: seq<byte>, f: FieldSpec, p: nat, e: nat, lim: Limits, st: Counters, fuel: nat)
    requires |b| < MAX_BUFFER_SIZE && SchemaOk(sch) && SpecOk(sch, f) && TableReadable(b, p) && GoodStart(b, p)
    requires !f.kind.KScalar? && e != 0 && FieldOffset(b, p, f.id) == Some(e) && Entry(b, p, f.id) == e
    requires VerifyOffset(b, p + e) == 0 && !GoodOffset(b, p + e)
    ensures var v := ReadFieldVal(sch, b, f, p, fuel);
      Exact(VerifyFieldVal(sch, b, f, p, lim, st), GoodField(sch, b, f, p), lim, st, DepthOfVal(v), CountOfVal(v))
  {
    hide SchemaOk, GoodStart, TableReadable, FieldOffset, Entry, GoodOffset, VerifyOffset, ReadFieldVal, DepthOfVal, CountOfVal;
  }

  // A reference field with a good offset is what it leads to.
  lemma FieldFollows(sch: Schema, b: seq<byte>, f: FieldSpec, p: nat, e: nat, q: nat, lim: Limits, st: Counters, fuel: nat)
    requires |b| < MAX_BUFFER_SIZE && SchemaOk(sch) && SpecOk(sch, f) && TableReadable(b, p) && GoodStart(b, p)
    requires !f.kind.KScalar? && e != 0 && FieldOffset(b, p, f.id) == Some(e) && Entry(b, p, f.id) == e
    requires VerifyOffset(b, p + e) != 0 && GoodOffset(b, p + e)
    requires q == Target(b, p + e) && ReadU(b, p + e, 4) == Some(q - (p + e))
    ensures VerifyFieldVal(sch, b, f, p, lim, st) == VerifyReferenced(sch, b, f.kind, q, lim, st)
    ensures GoodField(sch, b, f, p) == GoodObject(sch, b, f.kind, q)
    ensures ReadFieldVal(sch, b, f, p, fuel) == ReadReferenced(sch, b, f.kind, q, fuel)
  {
    hide SchemaOk, GoodStart, TableReadable, FieldOffset, Entry, GoodOffset, VerifyOffset, GoodObject, VerifyReferenced, ReadReferenced,
      FromLE;
  }

  lemma {:induction false} ReferencedExact(sch: Schema, b: seq<byte>, k: Kind, q: nat, lim: Limits, st: Counters, fuel: nat)
    requires |b| < MAX_BUFFER_SIZE && SchemaOk(sch) && KindOk(sch, k) && !k.KScalar?
    requires Fresh(lim, st) && Shallow(b, q, st.depth) && fuel > Room(b, q)
    ensures var v := ReadReferenced(sch, b, k, q, fuel);
      Exact(VerifyReferenced(sch, b, k, q, lim, st), GoodObject(sch, b, k, q), lim, st, DepthOfVal(v), CountOfVal(v))
    decreases Room(b, q), 5, 0
  {
    hide SchemaOk, FromLE, VerifyVector, GoodVector, VerifyString, GoodString, VerifyTable, GoodTable, VerifyStringsFrom, GoodStrings, ReadTable, ReadStrings, ReadScalars, ReadTables, ReadString, VerifyTables;
    match k
    case KString => StringIs(b, q);
    case KStrings =>
      VectorIs(b, q, 4);
      if VerifyVector(b, q, 4) {
        StringsAre(b, q, 0);
      }
    case KScalars(size) => VectorIs(b, q, size);
    case KTable(t) => TableExact(sch, b, t, q, lim, st, fuel);
    case KTables(t) =>
      VectorIs(b, q, 4);
      if VerifyVector(b, q, 4) {
        TablesExact(sch, b, t, q, 0, Length(b, q), lim, st, fuel);
      }
  }

  lemma {:induction false} TablesExact(sch: Schema, b: seq<byte>, t: nat, q: nat, i: nat, n: nat, lim: Limits, st: Counters, fuel: nat)
    requires |b| < MAX_BUFFER_SIZE && SchemaOk(sch) && t < |sch| && GoodVector(b, q, 4)
    requires ReadU(b, q, 4) == Some(n) && i <= n && q + 4 + 4 * n <= |b|
    requires Fresh(lim, st) && Shallow(b, q, st.depth) && fuel > Room(b, q)
    ensures var trees := ReadTables(sch, b, t, q, i, n, fuel);
      Exact(VerifyTables(sch, b, t, q, i, n, lim, st), GoodElements(sch, b, t, q, i), lim, st, DepthOfTrees(trees), CountOfTrees(trees))
    decreases Room(b, q), 1, 0, n - i
  {
    hide SchemaOk, GoodTable, VerifyTable, ReadTable, Depth, Count, ElementPos, GoodVector, ReadU, FromLE;
    if i < n {
      ReadsAt(b, q, i);
      ElementReads(b, q, i);
      var p := Element(b, q, i);
      var x := VerifyTable(sch, b, t, p, lim, st);
      TableExact(sch, b, t, p, lim, st, fuel);
      if x.ok {
        var tree := ReadTable(sch, b, t, p, fuel);
        FreshAfter(x, GoodTable(sch, b, t, p), lim, st, DepthOf(tree), CountOf(tree));
        TablesExact(sch, b, t, q, i + 1, n, lim, x.st, fuel);
      }
      hide VerifyTables, ReadTables, Element, Exact, GoodElements, DepthOfTrees, CountOfTrees;
      TablesJoin(sch, b, t, q, i, n, p, lim, st, fuel);
    }
  }

  // The first table and the others.
  lemma TablesJoin(sch: Schema, b: seq<byte>, t: nat, q: nat, i: nat, n: nat, p: nat, lim: Limits, st: Counters, fuel: nat)
    requires |b| < MAX_BUFFER_SIZE && SchemaOk(sch) && t < |sch| && GoodVector(b, q, 4)
    requires ReadU(b, q, 4) == Some(n) && i < n && q + 4 + 4 * n <= |b| && fuel > Room(b, q)
    requires p == Element(b, q, i) && At(b, q, i) == p > q && ElementPos(b, q, i) == Some(p)
    requires var tree := ReadTable(sch, b, t, p, fuel); var x := VerifyTable(sch, b, t, p, lim, st);
      && Exact(x, GoodTable(sch, b, t, p), lim, st, DepthOf(tree), CountOf(tree))
      && var rest := ReadTables(sch, b, t, q, i + 1, n, fuel);
         x.ok ==> Exact(VerifyTables(sch, b, t, q, i + 1, n, lim, x.st), GoodElements(sch, b, t, q, i + 1), lim, x.st,
                        DepthOfTrees(rest), CountOfTrees(rest))
    ensures var trees := ReadTables(sch, b, t, q, i, n, fuel);
      Exact(VerifyTables(sch, b, t, q, i, n, lim, st), GoodElements(sch, b, t, q, i), lim, st, DepthOfTrees(trees), CountOfTrees(trees))
  {
    hide SchemaOk, GoodTable, VerifyTable, ReadTable, ElementPos, GoodVector, ReadU, FromLE, Exact, Element, At, DepthTrees, CountTrees;
    var tree, rest := ReadTable(sch, b, t, p, fuel), ReadTables(sch, b, t, q, i + 1, n, fuel);
    var x, r := VerifyTable(sch, b, t, p, lim, st), VerifyTables(sch, b, t, q, i, n, lim, st);
    var good1, good2 := GoodTable(sch, b, t, p), GoodElements(sch, b, t, q, i + 1);
    assert GoodElements(sch, b, t, q, i) <==> good1 && good2;
    assert r == if x.ok then VerifyTables(sch, b, t, q, i + 1, n, lim, x.st) else x;
    assert tree.Some? && rest.Some? ==> ReadTables(sch, b, t, q, i, n, fuel) == Some([tree.value] + rest.value);
    hide VerifyTables, ReadTables;
    ExactThen(x, r, r, good1, good2, lim, st, DepthOf(tree), CountOf(tree), DepthOfTrees(rest), CountOfTrees(rest));
    if good1 && good2 {
      GoodTableReads(sch, b, t, p, fuel);
      GoodTablesRead(sch, b, t, q, i + 1, fuel);
      ConsTrees(tree.value, rest.value);
    } else {
      hide GoodElements;
      var trees := ReadTables(sch, b, t, q, i, n, fuel);
      BadAnyway(r, lim, st, Max(DepthOf(tree), DepthOfTrees(rest)), CountOf(tree) + CountOfTrees(rest), DepthOfTrees(trees), CountOfTrees(trees));
    }
  }

  // A whole buffer: the size prefix and the identifier are there if asked for,
  // and the root leads to a good table.
  ghost predicate GoodBuffer(sch: Schema, b: seq<byte>, t: nat, sizePrefix: bool, identifier: seq<byte>)
    requires SchemaOk(sch) && t < |sch|
  {
    var start := if sizePrefix then 4 else 0;
    && (sizePrefix ==> Inside(b, 0, 4) && FromLE(b[0..4]) == |b| - 4)
    && (identifier != [] ==> start + 8 <= |b| && b[start + 4..start + 8] == identifier)
    && GoodOffset(b, start) && GoodTable(sch, b, t, start + ReadU(b, start, 4).value)
  }

  // The tree at the root.
  function RootTree(sch: Schema, b: seq<byte>, t: nat, sizePrefix: bool): Option<Tree> {
    var pos :- RootPos(b, if sizePrefix then 4 else 0);
    ReadTable(sch, b, t, pos, |b|)
  }

  // Any bytes are accepted if and only if they are good and the tree in them is
  // within the limits; and good bytes read as a tree with every required field.
  lemma BufferExact(sch: Schema, b: seq<byte>, t: nat, sizePrefix: bool, identifier: seq<byte>, lim: Limits)
    requires |b| < MAX_BUFFER_SIZE && SchemaOk(sch) && t < |sch|
    ensures GoodBuffer(sch, b, t, sizePrefix, identifier) ==>
      RootTree(sch, b, t, sizePrefix).Some? && Complete(sch, t, RootTree(sch, b, t, sizePrefix).value)
    ensures VerifyBuffer(sch, b, t, sizePrefix, identifier, lim).ok <==>
      && GoodBuffer(sch, b, t, sizePrefix, identifier)
      && var tree := RootTree(sch, b, t, sizePrefix).value;
         Depth(tree) <= lim.maxDepth && (Count(tree) <= lim.maxTables || lim.maxTables == MAX_32)
  {
    hide SchemaOk, GoodTable, VerifyTable, ReadTable, VerifyOffset, GoodOffset, FromLE, Depth, Count, PrefixOk, Complete,
      AlignedTo;
    var start := if sizePrefix then 4 else 0;
    PrefixIs(b);
    OffsetIs(b, start);
    if VerifyOffset(b, start) != 0 {
      var p := start + U(b, start, 4);
      RootIs(b, start, p);
      TableExact(sch, b, t, p, lim, Zero, |b|);
      if GoodTable(sch, b, t, p) {
        GoodTableReads(sch, b, t, p, |b|);
      }
    }
  }

  lemma PrefixIs(b: seq<byte>)
    ensures PrefixOk(b) <==> Inside(b, 0, 4) && FromLE(b[0..4]) == |b| - 4
  {
    ZeroAligned(4);
    hide AlignedTo, FromLE;
  }

  lemma RootIs(b: seq<byte>, start: nat, p: nat)
    requires VerifyOffset(b, start) != 0 && p == start + U(b, start, 4)
    ensures RootPos(b, start) == Some(p) && VerifyOffset(b, start) == U(b, start, 4) && 0 < p < |b|
  {
    hide FromLE, AlignedTo;
  }
}
