// The main results about FlatBuffers: what any run of the builder produces is
// accepted by the verifier and reads back as what was built.
module BuiltBuffers {
  import opened Options
  import opened Bits
  import opened Bytes
  import opened Alignment
  import opened BuilderSpec
  import opened Layout
  import opened Writing
  import opened Tables
  import opened Runs
  import opened RunInvariant
  import opened Finishing
  import opened ReadBack
  import opened VerifierCompleteness
  import R = Reader
  import V = VerifierSpec

  // A run of the builder, with any root, that ends in a finished buffer.
  ghost predicate CanFinishRun(ops: seq<Op>, root: nat, identifier: seq<byte>, sizePrefix: bool) {
    && (StartInv(); CanRun(Start, ops))
    && var w := Run(Start, ops);
    && CanFinish(w.st, root, identifier)
    && |Finish(w.st, root, identifier, sizePrefix).data| < MAX_BUFFER_SIZE
  }

  ghost function FinishedData(ops: seq<Op>, root: nat, identifier: seq<byte>, sizePrefix: bool): seq<byte>
    requires CanFinishRun(ops, root, identifier, sizePrefix)
  {
    StartInv();
    Finish(Run(Start, ops).st, root, identifier, sizePrefix).data
  }

  // What was built at each offset.
  ghost function Objects(ops: seq<Op>): map<nat, Obj>
    requires (StartInv(); CanRun(Start, ops))
  {
    StartInv();
    Run(Start, ops).objs
  }

  // A run that builds the root table as well.
  ghost predicate CanBuild(sch: R.Schema, ops: seq<Op>, t: nat, root: nat, identifier: seq<byte>, sizePrefix: bool) {
    && R.SchemaOk(sch)
    && CanFinishRun(ops, root, identifier, sizePrefix)
    && TypedTable(sch, Objects(ops), t, root)
  }

  // The finished bytes and the tree the caller asked for.
  ghost function Buffer(sch: R.Schema, ops: seq<Op>, t: nat, root: nat, identifier: seq<byte>, sizePrefix: bool): seq<byte>
    requires CanBuild(sch, ops, t, root, identifier, sizePrefix)
  {
    FinishedData(ops, root, identifier, sizePrefix)
  }

  ghost function Intended(sch: R.Schema, ops: seq<Op>, t: nat, root: nat, identifier: seq<byte>, sizePrefix: bool): R.Tree
    requires CanBuild(sch, ops, t, root, identifier, sizePrefix)
  {
    Built(sch, Objects(ops), t, root)
  }

  lemma VTableInside(w: World, o: nat)
    requires Inv(w) && o in w.objs
    ensures o <= |w.st.data| && (w.objs[o].OTable? ==> w.objs[o].vtOff <= |w.st.data|)
  {
    assert ObjAt(w.st.data, w.st.minalign, o, w.objs[o]);
  }

  lemma AllInside(w: World)
    requires Inv(w)
    ensures forall o :: o in w.objs ==> o <= |w.st.data| && (w.objs[o].OTable? ==> w.objs[o].vtOff <= |w.st.data|)
  {
    forall o | o in w.objs ensures o <= |w.st.data| && (w.objs[o].OTable? ==> w.objs[o].vtOff <= |w.st.data|) {
      VTableInside(w, o);
    }
  }

  lemma SealWorld(w: World, f: State)
    requires Inv(w) && Extends(w.st.data, f.data) && |w.st.data| + 4 <= |f.data| < MAX_BUFFER_SIZE
    requires f.minalign == w.st.minalign >= 4 && Aligned(|f.data|, f.minalign)
    ensures Sealed(f.data, f.minalign, w.objs)
  {
    AllInside(w);
    hide Extends, ObjAt, LiveVTable, Aligned, Closed;
    ObjectsKept(w.st, f, w.objs);
  }

  lemma Finished(w: World, root: nat, identifier: seq<byte>, sizePrefix: bool) returns (d: seq<byte>, m: nat)
    requires Inv(w) && CanFinish(w.st, root, identifier)
    requires |Finish(w.st, root, identifier, sizePrefix).data| < MAX_BUFFER_SIZE
    ensures d == Finish(w.st, root, identifier, sizePrefix).data
    ensures Sealed(d, m, w.objs) && Headed(d, root, identifier, sizePrefix)
  {
    var f := Finish(w.st, root, identifier, sizePrefix);
    d, m := f.data, f.minalign;
    FinishWrites(w.st, root, identifier, sizePrefix);
    hide Inv, Finish, Extends, RefAt, At, ToLE, Sealed, Aligned, Headed;
    SealWorld(w, f);
  }

  lemma RunFinishes(ops: seq<Op>, root: nat, identifier: seq<byte>, sizePrefix: bool) returns (d: seq<byte>, m: nat)
    requires CanFinishRun(ops, root, identifier, sizePrefix)
    ensures (StartInv(); CanRun(Start, ops)) && d == FinishedData(ops, root, identifier, sizePrefix)
    ensures Sealed(d, m, Objects(ops)) && Headed(d, root, identifier, sizePrefix)
  {
    StartInv();
    hide Inv, Sealed, Finish, CanRun, Run, CanFinish, Headed;
    d, m := Finished(Run(Start, ops), root, identifier, sizePrefix);
  }

  lemma RootReads(d: seq<byte>, root: nat, identifier: seq<byte>, sizePrefix: bool)
    requires Headed(d, root, identifier, sizePrefix) && |d| < MAX_BUFFER_SIZE
    ensures root <= |d| && R.RootPos(d, RootAt(sizePrefix)) == Some(|d| - root)
    ensures var o := V.VerifyOffset(d, RootAt(sizePrefix)); o != 0 && o + RootAt(sizePrefix) == |d| - root
    ensures identifier != [] ==> V.HasIdentifier(d, RootAt(sizePrefix), identifier)
    ensures sizePrefix ==> V.PrefixOk(d)
  {
    var rootAt := |d| - RootAt(sizePrefix);
    RefInside(d, rootAt, root);
    ReadsRef(d, rootAt, root);
    RootVerifies(d, rootAt, root);
    if identifier != [] {
      IdentifierReads(d, RootAt(sizePrefix), identifier);
    }
    if sizePrefix {
      PrefixReads(d);
    }
  }

  lemma IdentifierReads(d: seq<byte>, start: nat, identifier: seq<byte>)
    requires start + 8 <= |d| && |identifier| == 4 && At(d, |d| - start - 4, 4) == identifier
    ensures V.HasIdentifier(d, start, identifier)
  {
    assert d[start + 4..start + 8] == At(d, |d| - start - 4, 4);
  }

  lemma PrefixReads(d: seq<byte>)
    requires 8 <= |d| < MAX_BUFFER_SIZE && At(d, |d|, 4) == ToLE(4, |d| - 4)
    ensures V.PrefixOk(d)
  {
    hide ToLE, FromLE, V.AlignedTo;
    RangeAt();
    V.ZeroAligned(4);
    UScalar(d, |d|, 4, |d| - 4);
  }

  lemma RootVerifies(d: seq<byte>, off: nat, ref: nat)
    requires RefAt(d, off, ref) && 8 <= |d| < MAX_BUFFER_SIZE && |d| % 4 == 0
    ensures var o := V.VerifyOffset(d, |d| - off); o != 0 && |d| - off + o == |d| - ref
  {
    hide FromLE, ToLE, V.AlignedTo;
    RangeAt();
    PositionAligned(|d|, off);
    UScalar(d, off, 4, off - ref);
  }

  // Builder completeness: whatever was built, in whatever order, with or
  // without sharing and deduplication, size prefix and identifier, the verifier
  // accepts the buffer if and only if the tree is within its depth and table
  // limits; the greatest limit on tables is no limit.
  lemma BuiltBufferVerifies(sch: R.Schema, ops: seq<Op>, t: nat, root: nat, identifier: seq<byte>, sizePrefix: bool, lim: V.Limits)
    requires CanBuild(sch, ops, t, root, identifier, sizePrefix)
    ensures var d := Buffer(sch, ops, t, root, identifier, sizePrefix);
      var tree := Intended(sch, ops, t, root, identifier, sizePrefix);
      V.VerifyBuffer(sch, d, t, sizePrefix, identifier, lim).ok
      <==> R.Depth(tree) <= lim.maxDepth && (R.Count(tree) <= lim.maxTables || lim.maxTables == V.MAX_32)
  {
    hide CanBuild, Buffer, Intended, V.VerifyBuffer, R.Depth, R.Count;
    BuiltBufferCounts(sch, ops, t, root, identifier, sizePrefix, lim);
  }

  // The whole-buffer check comes down to the root table.
  lemma HeaderVerifies(sch: R.Schema, d: seq<byte>, t: nat, root: nat, identifier: seq<byte>, sizePrefix: bool, lim: V.Limits, pos: nat)
    requires R.SchemaOk(sch) && Headed(d, root, identifier, sizePrefix) && t < |sch| && |d| < MAX_BUFFER_SIZE
    requires pos == |d| - root
    ensures V.VerifyBuffer(sch, d, t, sizePrefix, identifier, lim) == V.VerifyTable(sch, d, t, pos, lim, V.Zero)
  {
    RootReads(d, root, identifier, sizePrefix);
    hide Headed, V.VerifyOffset, V.HasIdentifier, V.VerifyTable, R.SchemaOk, V.PrefixOk;
  }

  lemma SealedVerifies(sch: R.Schema, d: seq<byte>, m: nat, objs: map<nat, Obj>, t: nat, root: nat,
                       identifier: seq<byte>, sizePrefix: bool, lim: V.Limits, pos: nat)
    requires R.SchemaOk(sch) && Sealed(d, m, objs) && Headed(d, root, identifier, sizePrefix)
    requires TypedTable(sch, objs, t, root) && |d| < MAX_BUFFER_SIZE && pos == |d| - root
    ensures var tree := Built(sch, objs, t, root);
      var r := V.VerifyBuffer(sch, d, t, sizePrefix, identifier, lim);
      && (r.ok <==> R.Depth(tree) <= lim.maxDepth && (R.Count(tree) <= lim.maxTables || lim.maxTables == V.MAX_32))
      && (r.ok ==> r.st.started == R.Count(tree) && r.st.deepest == R.Depth(tree))
  {
    SealedRoot(sch, objs, d, m, t, root);
    HeaderVerifies(sch, d, t, root, identifier, sizePrefix, lim, pos);
    hide Sealed, TypedTable, Headed, V.VerifyBuffer, V.VerifyTable, R.SchemaOk, Built;
    TableVerifies(sch, d, m, objs, t, root, pos, lim, V.Zero);
  }

  // The table starts let through are the tables of the tree, nested as deep.
  lemma BuiltBufferCounts(sch: R.Schema, ops: seq<Op>, t: nat, root: nat, identifier: seq<byte>, sizePrefix: bool, lim: V.Limits)
    requires CanBuild(sch, ops, t, root, identifier, sizePrefix)
    ensures var d := Buffer(sch, ops, t, root, identifier, sizePrefix);
      var tree := Intended(sch, ops, t, root, identifier, sizePrefix);
      var r := V.VerifyBuffer(sch, d, t, sizePrefix, identifier, lim);
      && (r.ok <==> R.Depth(tree) <= lim.maxDepth && (R.Count(tree) <= lim.maxTables || lim.maxTables == V.MAX_32))
      && (r.ok ==> r.st.started == R.Count(tree) && r.st.deepest == R.Depth(tree))
  {
    hide CanFinishRun, FinishedData, Objects, Sealed, TypedTable, Headed, V.VerifyBuffer, R.SchemaOk;
    var d, m := RunFinishes(ops, root, identifier, sizePrefix);
    SealedRoot(sch, Objects(ops), d, m, t, root);
    SealedVerifies(sch, d, m, Objects(ops), t, root, identifier, sizePrefix, lim, |d| - root);
  }

  lemma SealedRoot(sch: R.Schema, objs: map<nat, Obj>, d: seq<byte>, m: nat, t: nat, root: nat)
    requires Sealed(d, m, objs) && TypedTable(sch, objs, t, root)
    ensures root <= |d| < MAX_BUFFER_SIZE && t < |sch| && Holds(d, m, objs)
  {
    hide ObjAt;
  }

  // Reading the buffer back gives exactly the tree that was built.
  lemma BuiltBufferReadsBack(sch: R.Schema, ops: seq<Op>, t: nat, root: nat, identifier: seq<byte>, sizePrefix: bool, fuel: nat)
    requires CanBuild(sch, ops, t, root, identifier, sizePrefix)
    requires fuel >= R.Depth(Intended(sch, ops, t, root, identifier, sizePrefix))
    ensures var d := Buffer(sch, ops, t, root, identifier, sizePrefix);
      var pos := R.RootPos(d, RootAt(sizePrefix));
      && pos.Some?
      && R.ReadTable(sch, d, t, pos.value, fuel) == Some(Intended(sch, ops, t, root, identifier, sizePrefix))
  {
    hide CanFinishRun, FinishedData, Objects, Sealed, TypedTable, Headed, R.ReadTable, R.SchemaOk, Holds;
    var d, m := RunFinishes(ops, root, identifier, sizePrefix);
    SealedRoot(sch, Objects(ops), d, m, t, root);
    SealedReadsBack(sch, d, m, Objects(ops), t, root, identifier, sizePrefix, fuel);
  }

  lemma SealedReadsBack(sch: R.Schema, d: seq<byte>, m: nat, objs: map<nat, Obj>, t: nat, root: nat,
                        identifier: seq<byte>, sizePrefix: bool, fuel: nat)
    requires R.SchemaOk(sch) && Sealed(d, m, objs) && Headed(d, root, identifier, sizePrefix)
    requires TypedTable(sch, objs, t, root) && |d| < MAX_BUFFER_SIZE
    requires fuel >= R.Depth(Built(sch, objs, t, root))
    ensures var pos := R.RootPos(d, RootAt(sizePrefix));
      pos.Some? && R.ReadTable(sch, d, t, pos.value, fuel) == Some(Built(sch, objs, t, root))
  {
    RootReads(d, root, identifier, sizePrefix);
    SealedRoot(sch, objs, d, m, t, root);
    hide Sealed, TypedTable, Headed, R.ReadTable, R.SchemaOk, Holds;
    ReadsTable(sch, d, m, objs, t, root, fuel);
  }

  // The scalars of a finished buffer lie on multiples of their size, counted
  // from its start.
  lemma ScalarFieldAligned(ops: seq<Op>, root: nat, identifier: seq<byte>, sizePrefix: bool, o: nat, f: nat)
    requires CanFinishRun(ops, root, identifier, sizePrefix)
    requires o in Objects(ops) && Objects(ops)[o].OTable?
    requires f in Objects(ops)[o].fields && Objects(ops)[o].fields[f].FScalar?
    ensures var d := FinishedData(ops, root, identifier, sizePrefix);
      var table := Objects(ops)[o];
      var e := Entry(table.vtable, f);
      e != 0 ==> e <= o <= |d| && ScalarSize(table.fields[f].size) && Aligned(|d| - (o - e), table.fields[f].size)
  {
    hide Sealed, Headed, CanFinishRun, FinishedData, Objects, Entry, Aligned;
    var d, m := RunFinishes(ops, root, identifier, sizePrefix);
    SealedFieldAligned(d, m, Objects(ops), o, f);
  }

  // The same for the elements of scalar vectors, which start right after the length.
  lemma ScalarElementsAligned(ops: seq<Op>, root: nat, identifier: seq<byte>, sizePrefix: bool, o: nat)
    requires CanFinishRun(ops, root, identifier, sizePrefix)
    requires o in Objects(ops) && Objects(ops)[o].OScalars?
    ensures var d := FinishedData(ops, root, identifier, sizePrefix);
      var size := Objects(ops)[o].size;
      4 <= o <= |d| && ScalarSize(size) && Aligned(|d| - (o - 4), size)
  {
    hide Sealed, Headed, CanFinishRun, FinishedData, Objects, Aligned;
    var d, m := RunFinishes(ops, root, identifier, sizePrefix);
    SealedElementsAligned(d, m, Objects(ops), o);
  }

  lemma SealedFieldAligned(d: seq<byte>, m: nat, objs: map<nat, Obj>, o: nat, f: nat)
    requires Sealed(d, m, objs) && o in objs && objs[o].OTable?
    requires f in objs[o].fields && objs[o].fields[f].FScalar?
    ensures var e := Entry(objs[o].vtable, f);
      e != 0 ==> e <= o <= |d| && ScalarSize(objs[o].fields[f].size) && Aligned(|d| - (o - e), objs[o].fields[f].size)
  {
    SealedTable(d, m, objs, o);
    assert FieldAt(d, m, o, Entry(objs[o].vtable, f), objs[o].fields[f]);
    SealedAlignment(d, m, objs);
    hide Sealed, TableAt, Entry, At, Aligned;
    var e := Entry(objs[o].vtable, f);
    if e != 0 {
      PositionMultiple(|d|, o - e, objs[o].fields[f].size, m);
    }
  }

  lemma SealedElementsAligned(d: seq<byte>, m: nat, objs: map<nat, Obj>, o: nat)
    requires Sealed(d, m, objs) && o in objs && objs[o].OScalars?
    ensures 4 <= o <= |d| && ScalarSize(objs[o].size) && Aligned(|d| - (o - 4), objs[o].size)
  {
    SealedObject(d, m, objs, o);
    SealedAlignment(d, m, objs);
    hide Sealed, At, Aligned;
    PositionMultiple(|d|, o - 4, objs[o].size, m);
  }

  lemma SealedAlignment(d: seq<byte>, m: nat, objs: map<nat, Obj>)
    requires Sealed(d, m, objs)
    ensures IsAlignment(m) && Aligned(|d|, m)
  {
    hide ObjAt, Aligned;
  }

  lemma PositionMultiple(n: nat, off: nat, s: nat, m: nat)
    requires ScalarSize(s) && IsAlignment(m) && Aligned(n, m) && Aligned(m, s) && Aligned(off, s) && off <= n
    ensures Aligned(n - off, s)
  {
    SmallerAlignment(n, m, s);
    if s == 8 {
      DivModUnique(n - off, 8, n / 8 - off / 8, 0);
    } else if s == 4 {
      DivModUnique(n - off, 4, n / 4 - off / 4, 0);
    } else if s == 2 {
      DivModUnique(n - off, 2, n / 2 - off / 2, 0);
    }
  }

  lemma SmallerAlignment(n: nat, m: nat, s: nat)
    requires ScalarSize(s) && IsAlignment(m) && Aligned(n, m) && Aligned(m, s)
    ensures Aligned(n, s)
  {
    if m == 16 {
      Halves(n, 16);
      Halves(n, 8);
      Halves(n, 4);
    } else if m == 8 {
      Halves(n, 8);
      Halves(n, 4);
    } else if m == 4 {
      Halves(n, 4);
    }
  }

  lemma Halves(n: nat, m: nat)
    requires m == 16 || m == 8 || m == 4
    ensures n % m == 0 ==> n % (m / 2) == 0
  {
    if n % m == 0 {
      DivModUnique(n, m / 2, 2 * (n / m), 0);
    }
  }

  // ----------------------------------------------------------- a first buffer

  lemma EmptyTableSizes()
    ensures var t := AddAll(Initial, []);
      t == Initial && |PushElement(t, 4, 0).data| < 8
      && (CanEndTable(t, 0) ==> |EndTable(t, 0).data| < 16)
  {
    PushElementWrites(Initial, 4, 0);
    hide PushElement, ToLE;
  }

  lemma FinishSize(st: State, root: nat)
    requires CanFinish(st, root, [])
    ensures |Finish(st, root, [], false).data| < |st.data| + 48
  {
    hide Padding, ToLE;
  }

  lemma EmptyTableStep() returns (root: nat)
    ensures Inv(Start) && CanStep(Start, MakeTable([]))
    ensures var w := Step(Start, MakeTable([]));
      && Inv(w) && CanFinish(w.st, root, []) && |w.st.data| < 16
      && root in w.objs && w.objs[root].OTable? && w.objs[root].fields == map[]
  {
    StartInv();
    EmptyTableSizes();
    hide PushElement, LiveVTables, ObjectsAt, ToLE;
    StepKeeps(Start, MakeTable([]));
    TableCanEnd(Start, []);
    root := TableOffset(AddAll(Start.st, []));
    ObjectsBelow(Step(Start, MakeTable([])));
    var w := Step(Start, MakeTable([]));
    assert root in w.objs && w.objs != map[];
  }

  lemma EmptyTableTyped(sch: R.Schema, t: nat, objs: map<nat, Obj>, o: nat)
    requires t < |sch| && forall i :: 0 <= i < |sch[t]| ==> !sch[t][i].required
    requires o in objs && objs[o].OTable? && objs[o].fields == map[]
    ensures TypedTable(sch, objs, t, o)
  {
  }

  // A table without required fields can be built and finished all on its own,
  // in every schema.
  lemma EmptyTableCanBeBuilt(sch: R.Schema, t: nat) returns (root: nat)
    requires R.SchemaOk(sch) && t < |sch| && forall i :: 0 <= i < |sch[t]| ==> !sch[t][i].required
    ensures CanBuild(sch, [MakeTable([])], t, root, [], false)
  {
    var op := MakeTable([]);
    root := EmptyTableStep();
    var w := Step(Start, op);
    FinishSize(w.st, root);
    EmptyTableTyped(sch, t, w.objs, root);
    hide Inv, CanStep, Step, CanFinish, Finish, R.SchemaOk, TypedTable;
    assert [op][1..] == [];
    assert CanRun(w, []) && Run(w, []) == w;
    assert CanRun(Start, [op]) && Run(Start, [op]) == w;
  }
}
