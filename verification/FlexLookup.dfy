// Looking up a key of a FlexBuffers map: the binary search over the sorted keys
// agrees with searching the list of entries the map was made from.
module FlexLookup {
  import opened Bytes
  import opened Ordering
  import opened Sorting
  import opened Options
  import opened FlexTypes
  import opened FlexReader
  import opened FlexSpec
  import opened FlexRuns
  import opened FlexMaps
  import opened FlexRoundTrip

  // `KeyCompare`: the sought key against element `i` of the keys vector.
  function KeyCompare(buf: seq<byte>, p: nat, w: nat, key: seq<byte>, i: nat): int
    requires Terminated(key, 0)
  {
    match Indirect(buf, ElementPos(p, w, i), w)
    case None => 0
    case Some(o) => if Terminated(buf, o) then StrCmp(key, 0, buf, o) else 0
  }

  function Comparisons(buf: seq<byte>, p: nat, w: nat, n: nat, key: seq<byte>): (cmp: seq<int>)
    requires Terminated(key, 0)
    ensures |cmp| == n
  {
    seq(n, i requires 0 <= i < n => KeyCompare(buf, p, w, key, i))
  }

  // `Map::operator[]`: search the keys, then take the value at the same place.
  function Lookup(buf: seq<byte>, p: nat, w: nat, key: seq<byte>): Option<Ref>
    requires Terminated(key, 0)
  {
    var keys :- Keys(buf, p, w);
    var n :- Size(buf, keys.0, keys.1);
    var i := BSearch(Comparisons(buf, keys.0, keys.1, n, key), 0, n);
    if i < 0 then Some(NULL_REF) else VectorAt(buf, p, w, i)
  }

  ghost predicate KeyOrder(ks: seq<seq<byte>>) {
    forall i, j :: 0 <= i < j < |ks| ==> Compare(ks[i], ks[j]) < 0
  }

  lemma KeyCompareSign(buf: seq<byte>, p: nat, w: nat, i: nat, s: seq<byte>, key: seq<byte>)
    requires KeyRefShows(buf, p, w, i, s) && NulFree(key) && Terminated(key + [0], 0)
    ensures var c, d := KeyCompare(buf, p, w, key + [0], i), Compare(s, key);
      (c < 0 <==> d > 0) && (c == 0 <==> s == key)
  {
    CStringReads(key + [0], 0, key);
    hide ElementPos, Indirect, NulFree, CString, Terminated;
    var o := Indirect(buf, ElementPos(p, w, i), w).value;
    StrCmpSign(key + [0], 0, buf, o);
    CompareReverse(key, s);
    CompareReverse(s, key);
    CompareEqual(s, key);
    CompareEqual(key, s);
  }

  lemma ComparisonsSearchable(buf: seq<byte>, p: nat, w: nat, ks: seq<seq<byte>>, key: seq<byte>)
    requires forall i :: 0 <= i < |ks| ==> KeyRefShows(buf, p, w, i, ks[i])
    requires KeyOrder(ks) && NulFree(key) && Terminated(key + [0], 0)
    ensures var cmp := Comparisons(buf, p, w, |ks|, key + [0]);
      Searchable(cmp) && forall i :: 0 <= i < |ks| ==> (cmp[i] == 0 <==> ks[i] == key)
  {
    hide KeyRefShows, NulFree, Terminated, Compare, StringLessThan, KeyCompare, StrictTotal;
    var cmp := Comparisons(buf, p, w, |ks|, key + [0]);
    forall i | 0 <= i < |ks|
      ensures (cmp[i] < 0 <==> StringLessThan(key, ks[i])) && (cmp[i] == 0 <==> ks[i] == key)
    {
      KeyCompareSign(buf, p, w, i, ks[i], key);
      CompareEqual(ks[i], key);
      CompareReverse(key, ks[i]);
      StringLessThanIsLexicographic(key, ks[i]);
    }
    forall i, j | 0 <= i < j < |ks| ensures !StringLessThan(ks[j], ks[i]) {
      CompareReverse(ks[i], ks[j]);
      CompareReverse(ks[j], ks[i]);
      StringLessThanIsLexicographic(ks[j], ks[i]);
    }
    TextOrder();
    OrderedSearchable(StringLessThan, ks, key, cmp);
  }

  lemma ElementFound(buf: seq<byte>, p: nat, w: nat, vs: seq<Tree>, i: nat)
    requires Size(buf, p, w) == Some(|vs|) && ElemsShow(buf, p, w, vs) && i < |vs|
    ensures VectorAt(buf, p, w, i).Some? && RefShows(buf, VectorAt(buf, p, w, i).value, vs[i])
  {
    hide Size, Element, RefShows;
  }

  // A map with ordered keys gives the value at the key's place, or null.
  lemma LookupShows(buf: seq<byte>, p: nat, w: nat, ks: seq<seq<byte>>, vs: seq<Tree>, key: seq<byte>)
    requires ObjShows(buf, MAP, p, w, VMap(ks, vs)) && KeyOrder(ks) && NulFree(key)
    ensures Terminated(key + [0], 0) && Lookup(buf, p, w, key + [0]).Some?
    ensures forall i :: 0 <= i < |ks| && ks[i] == key ==> RefShows(buf, Lookup(buf, p, w, key + [0]).value, vs[i])
    ensures key !in ks ==> Lookup(buf, p, w, key + [0]) == Some(NULL_REF)
  {
    CStringReads(key + [0], 0, key);
    hide NulFree, Terminated, KeyRefShows, Keys, Size, RefShows, Element, KeyCompare, VectorAt, Searchable;
    var (k, kw) := Keys(buf, p, w).value;
    ComparisonsSearchable(buf, k, kw, ks, key);
    var cmp := Comparisons(buf, k, kw, |ks|, key + [0]);
    var found := BSearch(cmp, 0, |ks|);
    if found >= 0 {
      ElementFound(buf, p, w, vs, found);
    }
    forall i | 0 <= i < |ks| && ks[i] == key ensures found == i {
      BSearchFinds(cmp, 0, |ks|, i);
      KeysDistinct(ks, i, found);
    }
  }

  lemma KeysDistinct(ks: seq<seq<byte>>, i: nat, j: nat)
    requires KeyOrder(ks) && i < |ks| && j < |ks| && ks[i] == ks[j]
    ensures i == j
  {
    CompareEqual(ks[i], ks[j]);
    CompareEqual(ks[j], ks[i]);
  }

  // Sorting distinct entries gives strictly increasing keys.
  lemma SortedKeys(es: seq<Entry>)
    requires DistinctKeys(EntryKey(), es)
    ensures KeyOrder(EntryKeys(SortEntries(es)))
    ensures forall e :: e in SortEntries(es) <==> e in es
  {
    var se := SortEntries(es);
    TextOrder();
    SortSorts(StringLessThan, EntryKey(), es);
    SortContents(StringLessThan, EntryKey(), es);
    forall e ensures e in se <==> e in es {
      SortMembers(StringLessThan, EntryKey(), es, e);
    }
    DistinctSorted(es, se);
    hide Compare, StringLessThan, SortEntries;
    forall i, j | 0 <= i < j < |se| ensures Compare(se[i].key, se[j].key) < 0 {
      assert !StringLessThan(EntryKey()(se[j]), EntryKey()(se[i]));
      StringLessThanIsLexicographic(se[i].key, se[j].key);
    }
  }

  lemma CountTwice<T>(s: seq<T>, i: nat, j: nat)
    requires i < j < |s| && s[i] == s[j]
    ensures multiset(s)[s[i]] >= 2
  {
    assert s == s[..j] + s[j..];
    assert s[i] in s[..j] && s[j] in s[j..];
    assert s[..j][i] == s[i] && s[j..][0] == s[j];
  }

  lemma CountOnce(es: seq<Entry>, a: nat)
    requires DistinctKeys(EntryKey(), es) && a < |es|
    ensures multiset(es)[es[a]] == 1
  {
    assert es == es[..a] + [es[a]] + es[a + 1..];
    forall i | 0 <= i < |es| && i != a ensures es[i] != es[a] {
      assert EntryKey()(es[i]) != EntryKey()(es[a]);
    }
    assert es[a] !in es[..a] && es[a] !in es[a + 1..];
  }

  // A rearrangement of entries with distinct keys has distinct keys.
  lemma DistinctSorted(es: seq<Entry>, se: seq<Entry>)
    requires DistinctKeys(EntryKey(), es) && multiset(es) == multiset(se)
    ensures forall i, j :: 0 <= i < j < |se| ==> se[i].key != se[j].key
  {
    forall i, j | 0 <= i < j < |se| ensures se[i].key != se[j].key {
      if se[i].key == se[j].key {
        assert se[i] in multiset(se) && se[j] in multiset(se);
        var a :| 0 <= a < |es| && es[a] == se[i];
        var b :| 0 <= b < |es| && es[b] == se[j];
        assert EntryKey()(es[a]) == EntryKey()(es[b]);
        CountTwice(se, i, j);
        CountOnce(es, a);
      }
    }
  }

  // The value added under a key is found again; a key never added gives null.
  lemma LookupAgrees(buf: seq<byte>, p: nat, w: nat, es: seq<Entry>, key: seq<byte>)
    requires ObjShows(buf, MAP, p, w, MapTree(SortEntries(es))) && DistinctKeys(EntryKey(), es) && NulFree(key)
    ensures Terminated(key + [0], 0) && Lookup(buf, p, w, key + [0]).Some?
    ensures forall v :: Entry(key, v) in es ==> RefShows(buf, Lookup(buf, p, w, key + [0]).value, v)
    ensures (forall e :: e in es ==> e.key != key) ==> Lookup(buf, p, w, key + [0]) == Some(NULL_REF)
  {
    var se := SortEntries(es);
    SortedKeys(es);
    hide ObjShows, RefShows, NulFree, Terminated, Lookup, SortEntries, KeyOrder, DistinctKeys;
    LookupShows(buf, p, w, EntryKeys(se), EntryVals(se), key);
    forall v | Entry(key, v) in es ensures RefShows(buf, Lookup(buf, p, w, key + [0]).value, v) {
      var i :| 0 <= i < |se| && se[i] == Entry(key, v);
      assert EntryKeys(se)[i] == key;
    }
    if key in EntryKeys(se) {
      var i :| 0 <= i < |se| && EntryKeys(se)[i] == key;
      assert se[i] in se;
    }
  }

  // `GetRoot(buf).AsMap()[key]`; anything but a map is read as the empty map.
  function RootLookup(buf: seq<byte>, key: seq<byte>): Option<Ref>
    requires Terminated(key, 0)
  {
    var r :- GetRoot(buf);
    if r.typ != MAP then Some(NULL_REF)
    else
      var p :- Indirect(buf, r.pos, r.parentWidth);
      Lookup(buf, p, r.byteWidth, key)
  }

  lemma RootMap(buf: seq<byte>, r: Ref, v: Tree) returns (p: nat)
    requires RefShows(buf, r, v) && v.VMap?
    ensures r.typ == MAP && Indirect(buf, r.pos, r.parentWidth) == Some(p) && ObjShows(buf, MAP, p, r.byteWidth, v)
  {
    hide Indirect;
    p := Indirect(buf, r.pos, r.parentWidth).value;
  }

  // From calls to lookup: after any run whose one value is a map of these
  // entries, looking a key up from the root of the finished buffer returns the
  // value added under it, and null for a key never added.
  lemma RunLookup(shareKeys: bool, shareStrings: bool, ops: seq<Op>, es: seq<Entry>, key: seq<byte>)
    requires ExpressibleRun([], ops, shareStrings) && MemoryRun(Initial(shareKeys, shareStrings), ops)
    requires TreeRun([], ops) == [MapTree(SortEntries(es))] && DistinctKeys(EntryKey(), es) && NulFree(key)
    ensures CanRun(Initial(shareKeys, shareStrings), ops) && Terminated(key + [0], 0)
    ensures var st := Run(Initial(shareKeys, shareStrings), ops);
      && Roomy(st) && |st.stack| == 1
      && var r := RootLookup(Finish(st), key + [0]);
      && r.Some?
      && (forall v :: Entry(key, v) in es ==> RefShows(Finish(st), r.value, v))
      && ((forall e :: e in es ==> e.key != key) ==> r == Some(NULL_REF))
  {
    var st := Initial(shareKeys, shareStrings);
    InitialInv(shareKeys, shareStrings);
    RunKeeps(st, [], ops);
    var end, tree := Run(st, ops), MapTree(SortEntries(es));
    StackIsOne(end, tree);
    FinishShows(end, tree);
    hide Inv, MemoryRun, ExpressibleRun, CanRun, Run, TreeRun, Finish, GetRoot, RefShows, ObjShows, NulFree, Terminated, Lookup,
      SortEntries, DistinctKeys, Indirect;
    var p := RootMap(Finish(end), GetRoot(Finish(end)).value, tree);
    LookupAgrees(Finish(end), p, GetRoot(Finish(end)).value.byteWidth, es, key);
  }

  lemma StackIsOne(st: State, v: Tree)
    requires Inv(st, [v])
    ensures Roomy(st) && |st.stack| == 1
  {
    hide KeyPoolOk, StringPoolOk;
  }
}
