// Sorted vectors in finished buffers.
module SortedBuffers {
  import opened Options
  import opened Bytes
  import opened BuilderSpec
  import opened Layout
  import opened Runs
  import opened RunInvariant
  import opened Finishing
  import opened ReadBack
  import opened VerifierCompleteness
  import opened BuiltBuffers
  import opened SortedTables
  import R = Reader

  // A run after which the vector of these tables can be made, each with a key
  // that can be searched for.
  ghost predicate CanSort(ops: seq<Op>, f: R.FieldSpec, refs: seq<nat>) {
    && (StartInv(); CanRun(Start, ops))
    && CanStep(Run(Start, ops), MakeRefs(refs))
    && KeyField(f) && SearchKeys(Objects(ops), f, refs)
  }

  // The builder after CreateVectorOfSortedTables.
  ghost function AfterSort(ops: seq<Op>, f: R.FieldSpec, refs: seq<nat>): (w: World)
    requires CanSort(ops, f, refs)
    ensures Inv(w)
  {
    StartInv();
    var w := Run(Start, ops);
    SortedStep(w, f, refs);
    StepKeeps(w, MakeRefs(SortByKey(w.st.data, f, refs)));
    Step(w, MakeRefs(SortByKey(w.st.data, f, refs)))
  }

  // The offset of the vector.
  ghost function SortedVector(ops: seq<Op>, f: R.FieldSpec, refs: seq<nat>): nat
    requires CanSort(ops, f, refs)
  {
    StartInv();
    SortedStep(Run(Start, ops), f, refs);
    |CreateVectorOfSortedTables(Run(Start, ops).st, f, refs).data|
  }

  // Anything can be built after it before the buffer is finished.
  ghost predicate CanFinishSorted(ops: seq<Op>, f: R.FieldSpec, refs: seq<nat>, more: seq<Op>, root: nat, identifier: seq<byte>,
                                  sizePrefix: bool) {
    && CanSort(ops, f, refs)
    && CanRun(AfterSort(ops, f, refs), more)
    && var x := Run(AfterSort(ops, f, refs), more);
    && CanFinish(x.st, root, identifier)
    && |Finish(x.st, root, identifier, sizePrefix).data| < MAX_BUFFER_SIZE
  }

  ghost function SortedBuffer(ops: seq<Op>, f: R.FieldSpec, refs: seq<nat>, more: seq<Op>, root: nat, identifier: seq<byte>,
                              sizePrefix: bool): seq<byte>
    requires CanFinishSorted(ops, f, refs, more, root, identifier, sizePrefix)
  {
    Finish(Run(AfterSort(ops, f, refs), more).st, root, identifier, sizePrefix).data
  }

  // Whatever is built after a vector of sorted tables: in the finished buffer a
  // lookup succeeds exactly for the keys of those tables, and leads to one of
  // them with that key.
  lemma SortedVectorLookup(ops: seq<Op>, f: R.FieldSpec, refs: seq<nat>, more: seq<Op>, root: nat, identifier: seq<byte>,
                           sizePrefix: bool, k: Key)
    requires CanFinishSorted(ops, f, refs, more, root, identifier, sizePrefix) && SearchKey(f, k)
    ensures var d := SortedBuffer(ops, f, refs, more, root, identifier, sizePrefix);
      FoundAmong(LookupByKey(d, |d| - SortedVector(ops, f, refs), f, k), |d|, Objects(ops), f, refs, k)
  {
    hide Inv, CanStep, Step, Preserves, SearchKey, SearchKeys, LookupByKey, FoundAmong, KeyField, SortByKey, Sealed, Headed, CanFinish,
      Finish, CreateVectorOfSortedTables, CanRun, Run, Holds;
    StartInv();
    var w, x := Run(Start, ops), Run(AfterSort(ops, f, refs), more);
    SortedStep(w, f, refs);
    RunPreserves(AfterSort(ops, f, refs), more);
    SortPreserves(w, f, refs, x);
    var d, m := Finished(x, root, identifier, sizePrefix);
    FinishExtends(w, x, root, identifier, sizePrefix);
    SealedHolds(d, m, x.objs);
    FoundAfter(w, x, d, m, f, refs, k, SortedVector(ops, f, refs));
  }

  lemma SealedHolds(d: seq<byte>, m: nat, objs: map<nat, Obj>)
    requires Sealed(d, m, objs)
    ensures Holds(d, m, objs)
  {
    hide ObjAt;
  }

  lemma FoundAfter(w: World, x: World, d: seq<byte>, m: nat, f: R.FieldSpec, refs: seq<nat>, k: Key, vec: nat)
    requires Inv(w) && CanStep(w, MakeRefs(refs)) && |w.st.data| < MAX_BUFFER_SIZE && KeyField(f)
    requires SearchKeys(w.objs, f, refs) && SearchKey(f, k)
    requires CanStep(w, MakeRefs(SortByKey(w.st.data, f, refs)))
    requires Preserves(Step(w, MakeRefs(SortByKey(w.st.data, f, refs))), x) && Holds(d, m, x.objs)
    requires forall i :: 0 <= i < |refs| ==> refs[i] <= |w.st.data|
    requires vec == |CreateVectorOfSortedTables(w.st, f, refs).data|
    ensures FoundAmong(LookupByKey(d, |d| - vec, f, k), |d|, w.objs, f, refs, k)
  {
    hide Inv, CanStep, Step, Preserves, SearchKey, SearchKeys, LookupByKey, FoundAmong, KeyField, SortByKey, Holds,
      CreateVectorOfSortedTables, AllKeyed, KeysOf;
    SearchKeysFacts(w.objs, f, refs);
    LookupAfter(w, x, d, m, f, refs, k);
    SameKeysFound(LookupByKey(d, |d| - vec, f, k), |d|, w.objs, x.objs, f, refs, k);
  }

  lemma SortPreserves(w: World, f: R.FieldSpec, refs: seq<nat>, x: World)
    requires Inv(w) && CanStep(w, MakeRefs(refs)) && CanStep(w, MakeRefs(SortByKey(w.st.data, f, refs)))
    requires Preserves(Step(w, MakeRefs(SortByKey(w.st.data, f, refs))), x)
    ensures Preserves(w, x)
  {
    var op := MakeRefs(SortByKey(w.st.data, f, refs));
    hide Inv, CanStep, Step, Preserves, SortByKey;
    StepPreserves(w, op);
    PreservesTransitive(w, Step(w, op), x);
  }

  lemma FinishExtends(w: World, x: World, root: nat, identifier: seq<byte>, sizePrefix: bool)
    requires Preserves(w, x) && CanFinish(x.st, root, identifier)
    ensures |w.st.data| <= |x.st.data| <= |Finish(x.st, root, identifier, sizePrefix).data|
  {
    FinishWrites(x.st, root, identifier, sizePrefix);
    hide Finish, Headed;
  }

  lemma SameKeysFound(r: Option<R.Pointer>, n: nat, objs: map<nat, Obj>, more: map<nat, Obj>, f: R.FieldSpec, refs: seq<nat>, k: Key)
    requires AllKeyed(objs, f, refs) && AllKeyed(more, f, refs) && KeysOf(more, f, refs) == KeysOf(objs, f, refs)
    requires FoundAmong(r, n, more, f, refs, k)
    ensures FoundAmong(r, n, objs, f, refs, k)
  {
    hide Keyed, KeyOf;
  }
}
