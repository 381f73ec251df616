// Every FlexBuffers tree has a sequence of builder calls that describes it,
// with its maps in key order; so every tree survives the round trip.
module FlexTrees {
  import opened Bits
  import opened Bytes
  import opened Ordering
  import opened Options
  import opened FlexWidth
  import opened FlexTypes
  import opened FlexReader
  import opened FlexSpec
  import opened FlexRuns
  import opened FlexRoundTrip
  import opened FlexDecode

  // ---------------------------------------------------------- what is a tree

  predicate ElementOk(e: Tree) {
    e.VInt? || e.VUInt? || e.VBool? || e.VKey?
  }

  ghost predicate TypedWritable(t: nat, es: seq<Tree>) {
    var fixed := IsFixedTypedVector(t);
    if es == [] then IsTypedVector(t) && Decodable(ToTypedVectorElementType(t), false)
    else
      && (fixed ==> 2 <= |es| <= 4)
      && (forall i :: 0 <= i < |es| ==> ElementOk(es[i]) && TypeOf(es[i]) == TypeOf(es[0]))
      && Decodable(TypeOf(es[0]), fixed)
      && t == ToTypedVector(TypeOf(es[0]), if fixed then |es| else 0)
  }

  ghost predicate Writable(v: Tree, shareStrings: bool)
    decreases v
  {
    match v
    case VInt(i) => Int64(i)
    case VUInt(u) => u < TWO_64
    case VIndirectInt(i) => Int64(i)
    case VIndirectUInt(u) => u < TWO_64
    case VKey(s) => NulFree(s)
    case VString(s) => shareStrings ==> NulFree(s)
    case VVector(es) => AllWritable(es, shareStrings)
    case VTyped(t, es) => TypedWritable(t, es) && AllWritable(es, shareStrings)
    case VMap(ks, vs) =>
      && |ks| == |vs| && AllWritable(vs, shareStrings)
      && (forall i :: 0 <= i < |ks| ==> NulFree(ks[i]))
      && (forall i, j :: 0 <= i < j < |ks| ==> ks[i] != ks[j])
    case _ => true
  }

  ghost predicate AllWritable(es: seq<Tree>, shareStrings: bool)
    decreases es
  {
    es != [] ==> Writable(es[0], shareStrings) && AllWritable(es[1..], shareStrings)
  }

  function Zip(ks: seq<seq<byte>>, vs: seq<Tree>): (r: seq<Entry>)
    requires |ks| == |vs|
    ensures |r| == |ks|
  {
    seq(|ks|, i requires 0 <= i < |ks| => Entry(ks[i], vs[i]))
  }

  // The same tree with the entries of every map in key order.
  function Normal(v: Tree): Tree
    decreases v
  {
    match v
    case VVector(es) => VVector(NormalAll(es))
    case VTyped(t, es) => VTyped(t, NormalAll(es))
    case VMap(ks, vs) =>
      var ns := NormalAll(vs);
      if |ks| == |vs| then MapTree(SortEntries(Zip(ks, ns))) else v
    case _ => v
  }

  function NormalAll(es: seq<Tree>): (r: seq<Tree>)
    ensures |r| == |es|
    decreases es
  {
    if es == [] then [] else [Normal(es[0])] + NormalAll(es[1..])
  }

  // ----------------------------------------------------------- building calls

  // The calls that build the tree on top of a stack of `h` values.
  function Build(v: Tree, h: nat): seq<Op>
    decreases v
  {
    match v
    case VNull => [ONull]
    case VBool(b) => [OBool(b)]
    case VInt(i) => [OInt(i)]
    case VUInt(u) => [OUInt(u)]
    case VIndirectInt(i) => [OIndirectInt(i)]
    case VIndirectUInt(u) => [OIndirectUInt(u)]
    case VKey(s) => [OKey(s)]
    case VString(s) => [OString(s)]
    case VBlob(s) => [OBlob(s)]
    case VVector(es) => BuildAll(es, h) + [OVector(h, false, false)]
    case VTyped(t, es) =>
      if es == [] && t != VECTOR_KEY && IsTypedVector(t) then [OScalars(ToTypedVectorElementType(t), 0, [], false)]
      else BuildAll(es, h) + [OVector(h, true, IsFixedTypedVector(t))]
    case VMap(ks, vs) => BuildEntries(ks, vs, h) + [OMap(h)]
  }

  function BuildAll(es: seq<Tree>, h: nat): seq<Op>
    decreases es
  {
    if es == [] then [] else Build(es[0], h) + BuildAll(es[1..], h + 1)
  }

  // Keys and values, interleaved.
  function BuildEntries(ks: seq<seq<byte>>, vs: seq<Tree>, h: nat): seq<Op>
    decreases vs
  {
    if ks == [] || vs == [] then []
    else [OKey(ks[0])] + (Build(vs[0], h + 1) + BuildEntries(ks[1..], vs[1..], h + 2))
  }

  function Interleave(ks: seq<seq<byte>>, vs: seq<Tree>): (r: seq<Tree>)
    requires |ks| == |vs|
    ensures |r| == 2 * |ks|
    ensures forall i :: 0 <= i < |ks| ==> r[2 * i] == VKey(ks[i]) && r[2 * i + 1] == vs[i]
  {
    if ks == [] then [] else
      var rest := Interleave(ks[1..], vs[1..]);
      assert forall i :: 0 < i < |ks| ==> rest[2 * (i - 1)] == VKey(ks[i]) && rest[2 * (i - 1) + 1] == vs[i];
      [VKey(ks[0]), vs[0]] + rest
  }

  // ------------------------------------------------------------ composing runs

  lemma {:induction false} RunConcat(ts: seq<Tree>, a: seq<Op>, b: seq<Op>, share: bool)
    ensures TreeRun(ts, a + b) == TreeRun(TreeRun(ts, a), b)
    ensures ExpressibleRun(ts, a, share) && ExpressibleRun(TreeRun(ts, a), b, share) ==> ExpressibleRun(ts, a + b, share)
    decreases |a|
  {
    hide TreeStep, Expressible;
    if a == [] {
      assert a + b == b;
    } else {
      assert (a + b)[1..] == a[1..] + b;
      RunConcat(TreeStep(ts, a[0]), a[1..], b, share);
    }
  }

  lemma SingleRun(ts: seq<Tree>, op: Op, share: bool)
    ensures TreeRun(ts, [op]) == TreeStep(ts, op)
    ensures ExpressibleRun(ts, [op], share) <==> Expressible(ts, op, share)
  {
    hide TreeStep, Expressible;
    assert TreeRun(TreeStep(ts, op), []) == TreeStep(ts, op);
    assert [op][1..] == [];
  }

  // Calls that describe `es` on top of `ts`.
  ghost predicate Describes(ts: seq<Tree>, ops: seq<Op>, es: seq<Tree>, share: bool) {
    TreeRun(ts, ops) == ts + es && ExpressibleRun(ts, ops, share)
  }

  lemma DescribesConcat(ts: seq<Tree>, a: seq<Op>, b: seq<Op>, es: seq<Tree>, fs: seq<Tree>, share: bool)
    requires Describes(ts, a, es, share) && Describes(ts + es, b, fs, share)
    ensures Describes(ts, a + b, es + fs, share)
  {
    hide TreeRun, ExpressibleRun;
    RunConcat(ts, a, b, share);
    assert (ts + es) + fs == ts + (es + fs);
  }

  // A last call that folds what lies above `ts` into one tree.
  lemma DescribesFold(ts: seq<Tree>, a: seq<Op>, es: seq<Tree>, op: Op, v: Tree, share: bool)
    requires Describes(ts, a, es, share)
    requires TreeStep(ts + es, op) == ts + [v] && Expressible(ts + es, op, share)
    ensures Describes(ts, a + [op], [v], share)
  {
    hide TreeRun, ExpressibleRun, TreeStep, Expressible;
    RunConcat(ts, a, [op], share);
    SingleRun(ts + es, op, share);
  }

  lemma DescribesOne(ts: seq<Tree>, op: Op, v: Tree, share: bool)
    requires TreeStep(ts, op) == ts + [v] && Expressible(ts, op, share)
    ensures Describes(ts, [op], [v], share)
  {
    hide TreeStep, Expressible;
    SingleRun(ts, op, share);
  }

  // ---------------------------------------------------------------- each tree

  lemma LeafBuilds(v: Tree, ts: seq<Tree>, share: bool)
    requires Writable(v, share) && !v.VVector? && !v.VTyped? && !v.VMap?
    ensures Describes(ts, Build(v, |ts|), [Normal(v)], share)
  {
    hide Describes;
    DescribesOne(ts, Build(v, |ts|)[0], v, share);
  }

  lemma {:induction false} NormalAt(es: seq<Tree>, i: nat)
    requires i < |es|
    ensures NormalAll(es)[i] == Normal(es[i])
  {
    if i > 0 {
      NormalAt(es[1..], i - 1);
    }
  }

  lemma TypedFold(t: nat, es: seq<Tree>, ts: seq<Tree>, share: bool)
    requires TypedWritable(t, es) && (es == [] ==> t == VECTOR_KEY)
    ensures NormalAll(es) == es
    ensures var op := OVector(|ts|, true, IsFixedTypedVector(t));
      TreeStep(ts + es, op) == ts + [VTyped(t, es)] && Expressible(ts + es, op, share)
  {
    forall i | 0 <= i < |es| ensures NormalAll(es)[i] == es[i] {
      NormalAt(es, i);
    }
    assert (ts + es)[|ts|..] == es && (ts + es)[..|ts|] == ts;
    hide NormalAll;
    if es != [] {
      TypedVectorTypes(TypeOf(es[0]), if IsFixedTypedVector(t) then |es| else 0);
    }
  }

  // `OVector` makes an empty typed vector one of keys; an empty vector of
  // scalars comes from `OScalars`.
  lemma EmptyTyped(t: nat, ts: seq<Tree>, share: bool)
    requires TypedWritable(t, []) && t != VECTOR_KEY
    ensures IsTypedVector(t)
    ensures Describes(ts, [OScalars(ToTypedVectorElementType(t), 0, [], false)], [VTyped(t, [])], share)
  {
    var op := OScalars(ToTypedVectorElementType(t), 0, [], false);
    hide Describes;
    assert ScalarTrees(ToTypedVectorElementType(t), []) == [];
    DescribesOne(ts, op, VTyped(t, []), share);
  }

  lemma InterleavedEntries(ks: seq<seq<byte>>, vs: seq<Tree>)
    requires |ks| == |vs|
    ensures KeysFirstTrees(Interleave(ks, vs)) && Entries(Interleave(ks, vs)) == Zip(ks, vs)
  {
    hide Interleave;
    var es := Interleave(ks, vs);
    assert |es| / 2 == |ks|;
    forall i | 0 <= i < |ks| ensures Entries(es)[i] == Zip(ks, vs)[i] {
      assert es[2 * i] == VKey(ks[i]) && es[2 * i + 1] == vs[i];
    }
  }

  lemma MapFold(ks: seq<seq<byte>>, vs: seq<Tree>, ts: seq<Tree>, share: bool)
    requires |ks| == |vs| && forall i, j :: 0 <= i < j < |ks| ==> ks[i] != ks[j]
    ensures var es := Interleave(ks, vs);
      && TreeStep(ts + es, OMap(|ts|)) == ts + [MapTree(SortEntries(Zip(ks, vs)))]
      && Expressible(ts + es, OMap(|ts|), share)
  {
    hide SortEntries, MapTree, Interleave, Entries, KeysFirstTrees;
    var es := Interleave(ks, vs);
    InterleavedEntries(ks, vs);
    assert (ts + es)[|ts|..] == es && (ts + es)[..|ts|] == ts;
  }

  lemma {:induction false} BuildDescribes(v: Tree, ts: seq<Tree>, share: bool)
    requires Writable(v, share)
    ensures Describes(ts, Build(v, |ts|), [Normal(v)], share)
    decreases v
  {
    hide Describes, TreeStep, Expressible, TypedWritable, SortEntries, MapTree;
    match v
    case VVector(es) =>
      var op := OVector(|ts|, false, false);
      var ns := NormalAll(es);
      BuildAllDescribes(es, ts, share);
      VectorFold(ns, ts, share);
      DescribesFold(ts, BuildAll(es, |ts|), ns, op, VVector(ns), share);
    case VTyped(t, es) =>
      if es == [] && t != VECTOR_KEY {
        EmptyTyped(t, ts, share);
        return;
      }
      BuildAllDescribes(es, ts, share);
      TypedFold(t, es, ts, share);
      DescribesFold(ts, BuildAll(es, |ts|), es, OVector(|ts|, true, IsFixedTypedVector(t)), VTyped(t, es), share);
    case VMap(ks, vs) =>
      var ns := NormalAll(vs);
      BuildEntriesDescribe(ks, vs, ts, share);
      MapFold(ks, ns, ts, share);
      DescribesFold(ts, BuildEntries(ks, vs, |ts|), Interleave(ks, ns), OMap(|ts|), Normal(v), share);
    case _ => LeafBuilds(v, ts, share);
  }

  lemma VectorFold(es: seq<Tree>, ts: seq<Tree>, share: bool)
    ensures TreeStep(ts + es, OVector(|ts|, false, false)) == ts + [VVector(es)]
    ensures Expressible(ts + es, OVector(|ts|, false, false), share)
  {
    assert (ts + es)[|ts|..] == es && (ts + es)[..|ts|] == ts;
  }

  lemma {:induction false} BuildAllDescribes(es: seq<Tree>, ts: seq<Tree>, share: bool)
    requires AllWritable(es, share)
    ensures Describes(ts, BuildAll(es, |ts|), NormalAll(es), share)
    decreases es
  {
    if es == [] {
    } else {
      hide Describes, Build, Normal;
      var n := [Normal(es[0])];
      BuildDescribes(es[0], ts, share);
      BuildAllDescribes(es[1..], ts + n, share);
      DescribesConcat(ts, Build(es[0], |ts|), BuildAll(es[1..], |ts + n|), n, NormalAll(es[1..]), share);
    }
  }

  lemma InterleaveHead(ks: seq<seq<byte>>, v: Tree, vs: seq<Tree>)
    requires |ks| == |vs| + 1
    ensures Interleave(ks, [v] + vs) == [VKey(ks[0])] + ([v] + Interleave(ks[1..], vs))
  {
    assert ([v] + vs)[1..] == vs;
  }

  lemma InterleaveStep(ks: seq<seq<byte>>, vs: seq<Tree>)
    requires |ks| == |vs| > 0
    ensures Interleave(ks, NormalAll(vs))
         == [VKey(ks[0])] + ([Normal(vs[0])] + Interleave(ks[1..], NormalAll(vs[1..])))
  {
    hide Normal, Interleave;
    InterleaveHead(ks, Normal(vs[0]), NormalAll(vs[1..]));
  }

  lemma BuildEntriesStep(ks: seq<seq<byte>>, vs: seq<Tree>, h: nat, h1: nat, h2: nat)
    requires ks != [] && vs != [] && h1 == h + 1 && h2 == h + 2
    ensures BuildEntries(ks, vs, h) == [OKey(ks[0])] + (Build(vs[0], h1) + BuildEntries(ks[1..], vs[1..], h2))
  {
  }

  lemma {:induction false} BuildEntriesDescribe(ks: seq<seq<byte>>, vs: seq<Tree>, ts: seq<Tree>, share: bool)
    requires |ks| == |vs| && AllWritable(vs, share) && forall i :: 0 <= i < |ks| ==> NulFree(ks[i])
    ensures Describes(ts, BuildEntries(ks, vs, |ts|), Interleave(ks, NormalAll(vs)), share)
    decreases vs
  {
    if ks == [] {
      assert ts + [] == ts;
    } else {
      hide Describes, Build, Normal, Interleave, NormalAll, BuildEntries;
      var k, n := [VKey(ks[0])], [Normal(vs[0])];
      DescribesOne(ts, OKey(ks[0]), VKey(ks[0]), share);
      BuildDescribes(vs[0], ts + k, share);
      BuildEntriesDescribe(ks[1..], vs[1..], ts + k + n, share);
      var a, b := Build(vs[0], |ts + k|), BuildEntries(ks[1..], vs[1..], |ts + k + n|);
      var rest := Interleave(ks[1..], NormalAll(vs[1..]));
      DescribesConcat(ts + k, a, b, n, rest, share);
      DescribesConcat(ts, [OKey(ks[0])], a + b, k, n + rest, share);
      InterleaveStep(ks, vs);
      BuildEntriesStep(ks, vs, |ts|, |ts + k|, |ts + k + n|);
    }
  }

  // Every tree comes back from the buffer built for it, with its maps in key
  // order, whatever the sharing flags.
  lemma TreeRoundTrip(v: Tree, shareKeys: bool, shareStrings: bool, depth: nat)
    requires Writable(v, shareStrings) && Depth(Normal(v)) <= depth
    requires MemoryRun(Initial(shareKeys, shareStrings), Build(v, 0))
    ensures CanRun(Initial(shareKeys, shareStrings), Build(v, 0))
    ensures var st := Run(Initial(shareKeys, shareStrings), Build(v, 0));
      Roomy(st) && |st.stack| == 1 && DecodeRoot(Finish(st), depth) == Some(Normal(v))
  {
    BuildDescribes(v, [], shareStrings);
    assert [] + [Normal(v)] == [Normal(v)];
    hide MemoryRun, CanRun, Run, TreeRun, ExpressibleRun, Build, Normal, Writable, Finish, DecodeRoot;
    RunRoundTrip(shareKeys, shareStrings, Build(v, 0), Normal(v), depth);
  }
}
