// Sorting by a key, and binary search: the contracts of std::sort and
// std::bsearch as the library uses them.  The comparison is a parameter.
module Sorting {
  import opened Bytes
  import opened Ordering

  // A comparison that any correct sort may rely on.
  ghost predicate StrictTotal<K(!new)>(less: (K, K) -> bool) {
    && (forall a :: !less(a, a))
    && (forall a, b :: a == b || less(a, b) || less(b, a))
    && (forall a, b, c :: less(a, b) && less(b, c) ==> less(a, c))
  }

  lemma TextOrder()
    ensures StrictTotal(StringLessThan)
  {
    forall a: seq<byte>, b: seq<byte>, c: seq<byte>
      ensures !StringLessThan(a, a)
      ensures a == b || StringLessThan(a, b) || StringLessThan(b, a)
      ensures StringLessThan(a, b) && StringLessThan(b, c) ==> StringLessThan(a, c)
    {
      StringOrderIsStrictTotal(a, b, c);
    }
  }

  // `std::sort` with a comparison by key, as insertion.
  function Insert<T, K>(less: (K, K) -> bool, key: T -> K, x: T, s: seq<T>): (r: seq<T>)
    ensures |r| == |s| + 1
  {
    if s == [] || less(key(x), key(s[0])) then [x] + s
    else [s[0]] + Insert(less, key, x, s[1..])
  }

  function Sort<T, K>(less: (K, K) -> bool, key: T -> K, s: seq<T>): (r: seq<T>)
    ensures |r| == |s|
  {
    if s == [] then [] else Insert(less, key, s[0], Sort(less, key, s[1..]))
  }

  ghost predicate Sorted<T, K>(less: (K, K) -> bool, key: T -> K, s: seq<T>) {
    forall i, j :: 0 <= i < j < |s| ==> !less(key(s[j]), key(s[i]))
  }

  lemma {:induction false} InsertContents<T, K>(less: (K, K) -> bool, key: T -> K, x: T, s: seq<T>)
    ensures multiset(Insert(less, key, x, s)) == multiset(s) + multiset{x}
  {
    if s != [] && !less(key(x), key(s[0])) {
      InsertContents(less, key, x, s[1..]);
      assert s == [s[0]] + s[1..];
    }
  }

  lemma {:induction false} SortContents<T, K>(less: (K, K) -> bool, key: T -> K, s: seq<T>)
    ensures multiset(Sort(less, key, s)) == multiset(s)
  {
    if s != [] {
      SortContents(less, key, s[1..]);
      InsertContents(less, key, s[0], Sort(less, key, s[1..]));
      assert s == [s[0]] + s[1..];
    }
  }

  lemma {:induction false} InsertSorts<T, K(!new)>(less: (K, K) -> bool, key: T -> K, x: T, s: seq<T>)
    requires StrictTotal(less) && Sorted(less, key, s)
    ensures Sorted(less, key, Insert(less, key, x, s))
  {
    if s == [] {
    } else if less(key(x), key(s[0])) {
      forall j | 0 <= j < |s| ensures !less(key(s[j]), key(x)) {
        assert less(key(x), key(s[0]));
      }
    } else {
      InsertSorts(less, key, x, s[1..]);
      var r := Insert(less, key, x, s[1..]);
      InsertContents(less, key, x, s[1..]);
      forall j | 0 <= j < |r| ensures !less(key(r[j]), key(s[0])) {
        assert r[j] in multiset(r);
        assert r[j] == x || r[j] in s[1..];
      }
    }
  }

  lemma {:induction false} SortSorts<T, K(!new)>(less: (K, K) -> bool, key: T -> K, s: seq<T>)
    requires StrictTotal(less)
    ensures Sorted(less, key, Sort(less, key, s))
  {
    if s != [] {
      SortSorts(less, key, s[1..]);
      InsertSorts(less, key, s[0], Sort(less, key, s[1..]));
    }
  }

  lemma SortMembers<T, K>(less: (K, K) -> bool, key: T -> K, s: seq<T>, x: T)
    ensures x in Sort(less, key, s) <==> x in s
  {
    SortContents(less, key, s);
    assert x in Sort(less, key, s) <==> x in multiset(Sort(less, key, s));
    assert x in s <==> x in multiset(s);
  }

  ghost predicate DistinctKeys<T, K>(key: T -> K, s: seq<T>) {
    forall i, j :: 0 <= i < j < |s| ==> key(s[i]) != key(s[j])
  }

  lemma HeadsEqual<T, K(!new)>(less: (K, K) -> bool, key: T -> K, s: seq<T>, r: seq<T>)
    requires StrictTotal(less) && s != [] && r != [] && s[0] in r && r[0] in s
    requires Sorted(less, key, s) && Sorted(less, key, r) && DistinctKeys(key, s)
    ensures s[0] == r[0]
  {
    var i :| 0 <= i < |r| && r[i] == s[0];
    var j :| 0 <= j < |s| && s[j] == r[0];
    assert !less(key(s[j]), key(s[0])) && !less(key(r[i]), key(r[0]));
    assert key(s[0]) == key(s[j]);
  }

  lemma TailContents<T>(s: seq<T>)
    requires s != []
    ensures multiset(s[1..]) == multiset(s) - multiset{s[0]}
  {
    assert s == [s[0]] + s[1..];
  }

  lemma FirstIsIn<T>(s: seq<T>, r: seq<T>)
    requires multiset(s) == multiset(r) && s != []
    ensures r != [] && s[0] in r && multiset(s[1..]) == multiset(r) - multiset{s[0]}
  {
    TailContents(s);
    assert s[0] in multiset(s);
  }

  // With distinct keys the sorted order is unique, so any correct sort gives it.
  lemma {:induction false} SortedIsUnique<T, K(!new)>(less: (K, K) -> bool, key: T -> K, s: seq<T>, r: seq<T>)
    requires StrictTotal(less) && DistinctKeys(key, s)
    requires multiset(s) == multiset(r) && Sorted(less, key, s) && Sorted(less, key, r)
    ensures s == r
    decreases |s|
  {
    hide StrictTotal;
    if s == [] {
      if r != [] {
        FirstIsIn(r, s);
      }
    } else {
      FirstIsIn(s, r);
      FirstIsIn(r, s);
      HeadsEqual(less, key, s, r);
      TailContents(r);
      SortedIsUnique(less, key, s[1..], r[1..]);
      assert s == [s[0]] + s[1..] && r == [r[0]] + r[1..];
    }
  }

  // `std::bsearch` over the outcomes of comparing a key with each element.
  function BSearch(cmp: seq<int>, lo: nat, hi: nat): (i: int)
    requires lo <= hi <= |cmp|
    ensures i == -1 || (lo <= i < hi && cmp[i] == 0)
    decreases hi - lo
  {
    if lo == hi then -1
    else
      var mid := (lo + hi) / 2;
      if cmp[mid] == 0 then mid
      else if cmp[mid] < 0 then BSearch(cmp, lo, mid)
      else BSearch(cmp, mid + 1, hi)
  }

  // The key lies after the elements that compare positive and before those
  // that compare negative.
  ghost predicate Searchable(cmp: seq<int>) {
    forall i, j :: 0 <= i < j < |cmp| ==> (cmp[i] <= 0 ==> cmp[j] <= 0) && (cmp[i] < 0 ==> cmp[j] < 0)
  }

  lemma {:induction false} BSearchFinds(cmp: seq<int>, lo: nat, hi: nat, i: nat)
    requires lo <= i < hi <= |cmp| && Searchable(cmp) && cmp[i] == 0
    ensures BSearch(cmp, lo, hi) != -1
    decreases hi - lo
  {
    var mid := (lo + hi) / 2;
    if cmp[mid] < 0 {
      BSearchFinds(cmp, lo, mid, i);
    } else if cmp[mid] > 0 {
      BSearchFinds(cmp, mid + 1, hi, i);
    }
  }

  // The outcomes of comparing a key with the keys of an ordered vector.
  ghost predicate Outcomes<K>(less: (K, K) -> bool, ks: seq<K>, k: K, cmp: seq<int>) {
    && |cmp| == |ks|
    && forall i :: 0 <= i < |ks| ==> (cmp[i] < 0 <==> less(k, ks[i])) && (cmp[i] == 0 <==> ks[i] == k)
  }

  lemma OrderedSearchable<K(!new)>(less: (K, K) -> bool, ks: seq<K>, k: K, cmp: seq<int>)
    requires StrictTotal(less) && Outcomes(less, ks, k, cmp)
    requires forall i, j :: 0 <= i < j < |ks| ==> !less(ks[j], ks[i])
    ensures Searchable(cmp)
  {
    forall i, j | 0 <= i < j < |cmp|
      ensures (cmp[i] <= 0 ==> cmp[j] <= 0) && (cmp[i] < 0 ==> cmp[j] < 0)
    {
      assert !less(ks[j], ks[i]);
      assert ks[i] == ks[j] || less(ks[i], ks[j]);
      assert cmp[i] < 0 <==> less(k, ks[i]);
      assert cmp[j] < 0 <==> less(k, ks[j]);
    }
  }
}
