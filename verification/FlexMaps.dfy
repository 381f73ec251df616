// Ending a map: sorting the pairs on the stack keeps each value with its key,
// and the two vectors read back as the entries in key order.
module FlexMaps {
  import opened Bytes
  import opened Ordering
  import opened Sorting
  import opened Options
  import opened FlexWidth
  import opened FlexTypes
  import opened FlexReader
  import opened FlexSpec
  import opened FlexFields
  import opened FlexVectors
  import opened FlexObjects
  import opened FlexRuns
  import opened FlexInvariant

  // A pair on the stack stands for an entry.
  predicate PairMeans(buf: seq<byte>, p: TwoValue, e: Entry) {
    Means(buf, p.key, VKey(e.key)) && Means(buf, p.val, e.val)
  }

  predicate PairsMean(buf: seq<byte>, ps: seq<TwoValue>, es: seq<Entry>) {
    |ps| == |es| && forall i :: 0 <= i < |ps| ==> PairMeans(buf, ps[i], es[i])
  }

  lemma PairsOnStack(buf: seq<byte>, vals: seq<Value>, es: seq<Tree>)
    requires AllMean(buf, vals, es) && KeysFirst(vals) && KeysFirstTrees(es)
    ensures PairsMean(buf, Pairs(vals), Entries(es))
  {
    hide Means;
    forall k | 0 <= k < |vals| / 2 ensures PairMeans(buf, Pairs(vals)[k], Entries(es)[k]) {
      assert Means(buf, vals[2 * k], es[2 * k]) && Means(buf, vals[2 * k + 1], es[2 * k + 1]);
    }
  }

  // The comparison the sort uses is strcmp of the stored keys.
  lemma KeyOrderIsStrCmp(buf: seq<byte>, a: nat, b: nat)
    requires Terminated(buf, a) && Terminated(buf, b)
    ensures StrCmp(buf, a, buf, b) < 0 <==> StringLessThan(KeyText(buf, a), KeyText(buf, b))
  {
    StrCmpSign(buf, a, buf, b);
    StringLessThanIsLexicographic(CString(buf, a), CString(buf, b));
  }

  lemma PairText(buf: seq<byte>, p: TwoValue, e: Entry)
    requires PairMeans(buf, p, e)
    ensures PairKey(buf)(p) == EntryKey()(e)
  {
  }

  lemma {:induction false} InsertMeans(buf: seq<byte>, p: TwoValue, e: Entry, ps: seq<TwoValue>, es: seq<Entry>)
    requires PairMeans(buf, p, e) && PairsMean(buf, ps, es)
    ensures PairsMean(buf, Insert(StringLessThan, PairKey(buf), p, ps), Insert(StringLessThan, EntryKey(), e, es))
  {
    hide PairMeans, PairKey, EntryKey, StringLessThan;
    PairText(buf, p, e);
    if ps != [] {
      PairText(buf, ps[0], es[0]);
      InsertMeans(buf, p, e, ps[1..], es[1..]);
    }
  }

  lemma {:induction false} SortMeans(buf: seq<byte>, ps: seq<TwoValue>, es: seq<Entry>)
    requires PairsMean(buf, ps, es)
    ensures PairsMean(buf, Sort(StringLessThan, PairKey(buf), ps), Sort(StringLessThan, EntryKey(), es))
  {
    hide PairMeans, PairKey, EntryKey;
    if ps != [] {
      SortMeans(buf, ps[1..], es[1..]);
      InsertMeans(buf, ps[0], es[0], Sort(StringLessThan, PairKey(buf), ps[1..]), Sort(StringLessThan, EntryKey(), es[1..]));
    }
  }

  function EntryKeys(es: seq<Entry>): (r: seq<seq<byte>>)
    ensures |r| == |es|
  {
    seq(|es|, i requires 0 <= i < |es| => es[i].key)
  }

  function EntryVals(es: seq<Entry>): (r: seq<Tree>)
    ensures |r| == |es|
  {
    seq(|es|, i requires 0 <= i < |es| => es[i].val)
  }

  lemma SortedPairsMean(buf: seq<byte>, ps: seq<TwoValue>, es: seq<Entry>)
    requires PairsMean(buf, ps, es)
    ensures AllMean(buf, KeysOf(SortPairs(buf, ps)), KeyTrees(EntryKeys(SortEntries(es))))
    ensures AllMean(buf, ValsOf(SortPairs(buf, ps)), EntryVals(SortEntries(es)))
    ensures TypedElements(KeysOf(SortPairs(buf, ps)), KeyTrees(EntryKeys(SortEntries(es))), KEY)
  {
    SortMeans(buf, ps, es);
    hide Means, Sort, PairKey, EntryKey, SortPairs, SortEntries;
    var sp, se := SortPairs(buf, ps), SortEntries(es);
    forall i | 0 <= i < |sp|
      ensures Means(buf, sp[i].key, VKey(se[i].key)) && Means(buf, sp[i].val, se[i].val) && sp[i].key.typ == KEY
    {
      assert PairMeans(buf, sp[i], se[i]);
      MeansType(buf, sp[i].key, VKey(se[i].key));
    }
  }

  // The keys vector, written first.
  lemma KeysVectorShows(st: State, ts: seq<Tree>, start: nat)
    requires Inv(st, ts) && start <= |ts| && KeysFirst(st.stack[start..]) && KeysFirstTrees(ts[start..])
    ensures var (b, keys) := CreateKeys(st, start);
      && st.buf <= b
      && Means(b, keys, VTyped(VECTOR_KEY, KeyTrees(EntryKeys(SortEntries(Entries(ts[start..]))))))
  {
    var vals, es := st.stack[start..], ts[start..];
    SliceMeans(st.buf, st.stack, ts, start);
    PairsOnStack(st.buf, vals, es);
    SortedPairsMean(st.buf, Pairs(vals), Entries(es));
    PairsPlaced(st, start);
    var ks := KeysOf(SortPairs(st.buf, Pairs(vals)));
    var kt := KeyTrees(EntryKeys(SortEntries(Entries(es))));
    var bw := VectorWidth(|st.buf|, ks, start, 2, st.force, None);
    hide Inv, Means, AllMean, PairsMean, KeysOf, KeyTrees, EntryKeys, SortEntries, SortPairs, VectorWidth, AllFit, FieldLoc;
    KeysCreated(st.buf, ks, kt, start, st.force, bw);
  }

  lemma KeysCreated(buf: seq<byte>, ks: seq<Value>, kt: seq<Tree>, start: nat, force: Width, bw: Width)
    requires AllMean(buf, ks, kt) && TypedElements(ks, kt, KEY) && TypedOk(ks, true, false) && AllPlaced(ks, |buf|)
    requires |buf| <= MAX_SIZE && Slot(start, 2, 3, |ks|) <= MAX_SIZE / 8
    requires bw == VectorWidth(|buf|, ks, start, 2, force, None)
    ensures var (b, keys) := CreateVector(buf, ks, true, false, None, bw);
      buf <= b && Means(b, keys, VTyped(VECTOR_KEY, kt))
  {
    VectorFits(|buf|, ks, start, 2, force, None, false, bw);
    CreateExtends(buf, ks, true, false, None, bw);
    hide Means, AllMean, VectorWidth, AllFit, FieldLoc;
    TypedVectorShows(buf, buf, ks, kt, false, bw);
    hide WriteFields, VectorHead;
  }

  lemma MapCreated(buf: seq<byte>, vals: seq<Value>, vs: seq<Tree>, keys: Value, ks: seq<seq<byte>>, start: nat, force: Width, bw: Width)
    requires AllMean(buf, vals, vs) && AllPlaced(vals, |buf|) && |ks| == |vs|
    requires Means(buf, keys, VTyped(VECTOR_KEY, KeyTrees(ks))) && Placed(keys, |buf|)
    requires |buf| <= MAX_SIZE && Slot(start, 2, 3, |vals|) <= MAX_SIZE / 8
    requires bw == VectorWidth(|buf|, vals, start, 2, force, Some(keys))
    ensures var (b, vec) := CreateVector(buf, vals, false, false, Some(keys), bw);
      buf <= b && Means(b, vec, VMap(ks, vs))
  {
    VectorFits(|buf|, vals, start, 2, force, Some(keys), false, bw);
    CreateExtends(buf, vals, false, false, Some(keys), bw);
    hide Means, AllMean, VectorWidth, AllFit, FieldLoc, Fits, FieldPos, KeyTrees;
    MapShows(buf, vals, vs, keys, ks, bw);
  }

  lemma MapStepKeeps(st: State, ts: seq<Tree>, start: nat)
    requires Inv(st, ts) && CanStep(st, ts, OMap(start))
    ensures Inv(Step(st, OMap(start)), TreeStep(ts, OMap(start)))
  {
    var vals, es := st.stack[start..], ts[start..];
    var ps, se := SortPairs(st.buf, Pairs(vals)), SortEntries(Entries(es));
    var (buf1, keys) := CreateKeys(st, start);
    SliceMeans(st.buf, st.stack, ts, start);
    PairsOnStack(st.buf, vals, es);
    SortedPairsMean(st.buf, Pairs(vals), Entries(es));
    KeysVectorShows(st, ts, start);
    MapPlaced(st, start);
    hide Means, PairsMean, SortPairs, SortEntries, KeysOf, KeyTrees, CreateKeys, KeyPoolOk, StringPoolOk;
    AllMeanStable(st.buf, buf1, ValsOf(ps), EntryVals(se));
    hide AllMean, ValsOf;
    var bw := VectorWidth(|buf1|, ValsOf(ps), start + 1, 2, st.force, Some(keys));
    MapStepFrom(st, ts, start, buf1, ValsOf(ps), EntryVals(se), keys, EntryKeys(se), bw);
  }

  lemma MapStepFrom(st: State, ts: seq<Tree>, start: nat, buf1: seq<byte>, vals: seq<Value>, vs: seq<Tree>,
                    keys: Value, ks: seq<seq<byte>>, bw: Width)
    requires Inv(st, ts) && start <= |st.stack| && start + 9 <= MAX_SIZE / 8 && st.buf <= buf1
    requires AllMean(buf1, vals, vs) && AllPlaced(vals, |buf1|) && |ks| == |vs|
    requires Means(buf1, keys, VTyped(VECTOR_KEY, KeyTrees(ks))) && Placed(keys, |buf1|)
    requires |buf1| <= MAX_SIZE && Slot(start + 1, 2, 3, |vals|) <= MAX_SIZE / 8
    requires bw == VectorWidth(|buf1|, vals, start + 1, 2, st.force, Some(keys))
    requires |CreateVector(buf1, vals, false, false, Some(keys), bw).0| <= MAX_SIZE
    ensures var (b, vec) := CreateVector(buf1, vals, false, false, Some(keys), bw);
      Inv(Replace(st, start, b, vec), ts[..start] + [VMap(ks, vs)])
  {
    hide Means, AllMean, VectorWidth, CreateVector, KeyTrees, KeyPoolOk, StringPoolOk;
    MapCreated(buf1, vals, vs, keys, ks, start + 1, st.force, bw);
    var (b, vec) := CreateVector(buf1, vals, false, false, Some(keys), bw);
    ReplaceKeeps(st, ts, start, b, vec, VMap(ks, vs));
  }
}
