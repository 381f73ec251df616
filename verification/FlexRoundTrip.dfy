// The FlexBuffers round trip: whatever tree a run of the builder describes,
// the finished buffer decodes to it.
module FlexRoundTrip {
  import opened Bytes
  import opened Alignment
  import opened Sorting
  import opened Options
  import opened FlexWidth
  import opened FlexTypes
  import opened FlexReader
  import opened FlexSpec
  import opened FlexFields
  import opened FlexVectors
  import opened FlexObjects
  import opened FlexRuns
  import opened FlexInvariant
  import opened FlexPools
  import opened FlexMaps
  import opened FlexDecode

  // ---------------------------------------------------------------- one step

  lemma VectorIsLegal(st: State, ts: seq<Tree>, start: nat, typed: bool, fixed: bool)
    requires Inv(st, ts) && Expressible(ts, OVector(start, typed, fixed), st.shareStrings)
    ensures start <= |st.stack| && TypedOk(st.stack[start..], typed, fixed)
  {
    SliceMeans(st.buf, st.stack, ts, start);
    if typed {
      assert forall i :: 0 <= i < |ts[start..]| ==> ts[start..][i] == ts[start + i];
      TypedElementsFrom(st.buf, st.stack[start..], ts[start..], fixed);
    }
    hide Means;
  }

  lemma MapIsLegal(st: State, ts: seq<Tree>, start: nat)
    requires Inv(st, ts) && Expressible(ts, OMap(start), st.shareStrings)
    ensures start <= |st.stack| && KeysFirst(st.stack[start..])
    ensures DistinctKeys(PairKey(st.buf), Pairs(st.stack[start..]))
  {
    SliceMeans(st.buf, st.stack, ts, start);
    var vals, es := st.stack[start..], ts[start..];
    hide Inv, Means;
    forall k | 0 <= k < |vals| / 2 ensures vals[2 * k].typ == KEY {
      assert es[2 * k].VKey? && Means(st.buf, vals[2 * k], es[2 * k]);
      MeansType(st.buf, vals[2 * k], es[2 * k]);
    }
    PairsOnStack(st.buf, vals, es);
    DistinctPairs(st.buf, Pairs(vals), Entries(es));
  }

  lemma DistinctPairs(buf: seq<byte>, ps: seq<TwoValue>, es: seq<Entry>)
    requires PairsMean(buf, ps, es) && DistinctKeys(EntryKey(), es)
    ensures DistinctKeys(PairKey(buf), ps)
  {
    forall i | 0 <= i < |ps| ensures PairKey(buf)(ps[i]) == EntryKey()(es[i]) {
      PairText(buf, ps[i], es[i]);
    }
    hide PairMeans, PairKey, EntryKey;
  }

  // No assertion of the builder fires on what the format can represent.
  lemma StepIsLegal(st: State, ts: seq<Tree>, op: Op)
    requires Inv(st, ts) && PoolsTerminated(st) && Expressible(ts, op, st.shareStrings) && Memory(st, op)
    ensures CanStep(st, ts, op)
  {
    hide Means, KeyPoolOk, StringPoolOk, Step, PoolsTerminated, DistinctKeys;
    match op
    case OScalars(typ, bw, elems, fixed) =>
      WidthUIsLeast(|elems|);
    case OVector(start, typed, fixed) => VectorIsLegal(st, ts, start, typed, fixed);
    case OMap(start) => MapIsLegal(st, ts, start);
    case _ =>
  }

  // A step of the builder implements the step on trees.
  lemma StepKeeps(st: State, ts: seq<Tree>, op: Op)
    requires Inv(st, ts) && CanStep(st, ts, op)
    ensures Inv(Step(st, op), TreeStep(ts, op))
  {
    assert op.OVector? && !op.typed ==> !op.fixed;
    hide Inv, Step, TreeStep, Legal, Expressible, Roomy, AllMean, KeyPoolOk, StringPoolOk;
    match op
    case OKey(s) => KeyStepKeeps(st, ts, s);
    case OString(s) => StringStepKeeps(st, ts, s);
    case OBlob(s) => BlobStepKeeps(st, ts, s);
    case OScalars(typ, bw, elems, fixed) => ScalarVectorKeeps(st, ts, typ, bw, elems, fixed);
    case OVector(start, typed, fixed) =>
      if typed {
        TypedStepKeeps(st, ts, start, fixed);
      } else {
        UntypedStepKeeps(st, ts, start);
      }
    case OMap(start) => MapStepKeeps(st, ts, start);
    case _ => ScalarStepKeeps(st, ts, op);
  }

  // -------------------------------------------------------------------- runs

  ghost predicate CanRun(st: State, ops: seq<Op>)
    decreases |ops|
  {
    ops == [] || (Roomy(st) && PoolsTerminated(st) && Legal(st, ops[0]) && CanRun(Step(st, ops[0]), ops[1..]))
  }

  function Run(st: State, ops: seq<Op>): State
    requires CanRun(st, ops)
    decreases |ops|
  {
    if ops == [] then st else Run(Step(st, ops[0]), ops[1..])
  }

  function TreeRun(ts: seq<Tree>, ops: seq<Op>): seq<Tree>
    decreases |ops|
  {
    if ops == [] then ts else TreeRun(TreeStep(ts, ops[0]), ops[1..])
  }

  ghost predicate ExpressibleRun(ts: seq<Tree>, ops: seq<Op>, shareStrings: bool)
    decreases |ops|
  {
    ops == [] || (Expressible(ts, ops[0], shareStrings) && ExpressibleRun(TreeStep(ts, ops[0]), ops[1..], shareStrings))
  }

  ghost predicate MemoryRun(st: State, ops: seq<Op>)
    decreases |ops|
  {
    Roomy(st) && PoolsTerminated(st)
    && (ops == [] || (Memory(st, ops[0]) && (Legal(st, ops[0]) ==> MemoryRun(Step(st, ops[0]), ops[1..]))))
  }

  lemma StepFlags(st: State, op: Op)
    requires Roomy(st) && PoolsTerminated(st) && Legal(st, op)
    ensures Step(st, op).shareStrings == st.shareStrings && Step(st, op).shareKeys == st.shareKeys
  {
    hide CreateVector, CreateBlob, VectorWidth, FindKey, FindString, CreateKeys;
  }

  lemma OneStep(st: State, ts: seq<Tree>, op: Op)
    requires Inv(st, ts) && PoolsTerminated(st) && Expressible(ts, op, st.shareStrings) && Memory(st, op)
    ensures Legal(st, op) && Inv(Step(st, op), TreeStep(ts, op)) && Step(st, op).shareStrings == st.shareStrings
  {
    StepIsLegal(st, ts, op);
    StepKeeps(st, ts, op);
    StepFlags(st, op);
  }

  // Every run keeps the stack in step with the stack of trees.
  lemma {:induction false} RunKeeps(st: State, ts: seq<Tree>, ops: seq<Op>)
    requires Inv(st, ts) && ExpressibleRun(ts, ops, st.shareStrings) && MemoryRun(st, ops)
    ensures CanRun(st, ops) && Inv(Run(st, ops), TreeRun(ts, ops)) && Roomy(Run(st, ops))
    decreases |ops|
  {
    if ops != [] {
      OneStep(st, ts, ops[0]);
      hide Inv, Legal, Step, TreeStep, Expressible, Memory, Roomy, PoolsTerminated;
      RunKeeps(Step(st, ops[0]), TreeStep(ts, ops[0]), ops[1..]);
    } else {
      hide AllMean, KeyPoolOk, StringPoolOk;
    }
  }

  lemma InitialInv(shareKeys: bool, shareStrings: bool)
    ensures Inv(Initial(shareKeys, shareStrings), [])
  {
  }

  // ----------------------------------------------------------------- the root

  lemma RootFits(val: Value, size: nat, bw: Width)
    requires Placed(val, size) && size <= MAX_SIZE && bw == ElemWidth(val, size, 0)
    ensures Fits(val, FieldPos(FieldLoc(size, 0, bw), 0, bw), bw)
  {
    hide ElemWidth, FieldLoc, FieldPos, Fits;
    ElementFits(val, size, 0, 0, 0, bw);
  }

  lemma RootReads(body: seq<byte>, packed: byte, bw: Width, pos: nat)
    requires |body| == pos + ByteWidth(bw)
    ensures GetRoot(body + [packed, ByteWidth(bw)])
         == Some(Ref(pos, ByteWidth(bw), UnpackWidth(packed), UnpackType(packed)))
  {
  }

  // The root field shows the one value left on the stack.
  lemma FinishShows(st: State, v: Tree)
    requires Inv(st, [v]) && |st.stack| == 1
    ensures GetRoot(Finish(st)).Some? && RefShows(Finish(st), GetRoot(Finish(st)).value, v)
  {
    var val := st.stack[0];
    var bw := ElemWidth(val, |st.buf|, 0);
    var aligned := AlignTo(st.buf, bw);
    var body := WriteAny(aligned, val, bw);
    var packed := StoredPackedType(val, 0);
    assert Means(st.buf, val, v);
    MeansTypes(st.buf, val, v);
    RootFits(val, |st.buf|, bw);
    hide Inv, Means, FieldLoc, FieldPos, Fits, ElemWidth, FieldAt, PackedType, UnpackType, UnpackWidth;
    PackRoundTrip(StoredWidth(val, 0), val.typ);
    AlignedStart(st.buf, bw);
    WriteAnyAt(aligned, val, bw);
    RootReads(body, packed, bw, |aligned|);
    hide AlignTo, WriteAny, GetRoot;
    FieldStable(body, Finish(st), |aligned|, val, bw);
    RootShows(st.buf, Finish(st), val, v, bw, GetRoot(Finish(st)).value, aligned);
  }

  lemma RootShows(buf: seq<byte>, full: seq<byte>, val: Value, v: Tree, bw: Width, r: Ref, aligned: seq<byte>)
    requires Means(buf, val, v) && aligned == AlignTo(buf, bw) && aligned <= full
    requires r.pos == |aligned| && FieldAt(full, |aligned|, val, bw) && Fits(val, |aligned|, bw)
    requires r.parentWidth == ByteWidth(bw) && r.typ == val.typ && r.byteWidth == ByteWidth(StoredWidth(val, 0))
    ensures RefShows(full, r, v)
  {
    hide Means, FieldAt, Fits, RefShows, Padding;
    FieldShows(buf, full, val, v, bw, r);
  }

  function DecodeRoot(buf: seq<byte>, depth: nat): Option<Tree> {
    var r :- GetRoot(buf);
    Decode(buf, r, depth)
  }

  // Whatever a run describes, the finished buffer decodes to: for every
  // sequence of calls, every combination of flags and every forced width.
  lemma RunRoundTrip(shareKeys: bool, shareStrings: bool, ops: seq<Op>, v: Tree, depth: nat)
    requires ExpressibleRun([], ops, shareStrings) && MemoryRun(Initial(shareKeys, shareStrings), ops)
    requires TreeRun([], ops) == [v] && Depth(v) <= depth
    ensures CanRun(Initial(shareKeys, shareStrings), ops)
    ensures var st := Run(Initial(shareKeys, shareStrings), ops);
      Roomy(st) && |st.stack| == 1 && DecodeRoot(Finish(st), depth) == Some(v)
  {
    var st := Initial(shareKeys, shareStrings);
    InitialInv(shareKeys, shareStrings);
    RunKeeps(st, [], ops);
    hide Means, KeyPoolOk, StringPoolOk, MemoryRun, ExpressibleRun, CanRun, Run, TreeRun, Finish;
    FinishShows(Run(st, ops), v);
    DecodeShows(Finish(Run(st, ops)), GetRoot(Finish(Run(st, ops))).value, v, depth);
  }

  // The flags change the bytes, never what they decode to.
  lemma PoolingIsInvisible(keysA: bool, stringsA: bool, keysB: bool, stringsB: bool, ops: seq<Op>, v: Tree)
    requires ExpressibleRun([], ops, true) && TreeRun([], ops) == [v]
    requires MemoryRun(Initial(keysA, stringsA), ops) && MemoryRun(Initial(keysB, stringsB), ops)
    ensures CanRun(Initial(keysA, stringsA), ops) && CanRun(Initial(keysB, stringsB), ops)
    ensures var a, b := Run(Initial(keysA, stringsA), ops), Run(Initial(keysB, stringsB), ops);
      && Roomy(a) && |a.stack| == 1 && Roomy(b) && |b.stack| == 1
      && DecodeRoot(Finish(a), Depth(v)) == DecodeRoot(Finish(b), Depth(v)) == Some(v)
  {
    ExpressibleEverywhere([], ops, stringsA);
    ExpressibleEverywhere([], ops, stringsB);
    hide ExpressibleRun, MemoryRun, TreeRun, CanRun, Run, Finish, Depth, DecodeRoot;
    RunRoundTrip(keysA, stringsA, ops, v, Depth(v));
    RunRoundTrip(keysB, stringsB, ops, v, Depth(v));
  }

  lemma {:induction false} ExpressibleEverywhere(ts: seq<Tree>, ops: seq<Op>, shareStrings: bool)
    requires ExpressibleRun(ts, ops, true)
    ensures ExpressibleRun(ts, ops, shareStrings)
    decreases |ops|
  {
    if ops != [] {
      ExpressibleEverywhere(TreeStep(ts, ops[0]), ops[1..], shareStrings);
    }
  }
}
