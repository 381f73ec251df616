// The string orders of the library: memcmp-then-length, and strcmp.
module Ordering {
  import opened Bytes

  // Three-way lexicographic comparison; a proper prefix comes first.
  function Compare(a: seq<byte>, b: seq<byte>): int {
    if a == [] then (if b == [] then 0 else -1)
    else if b == [] then 1
    else if a[0] < b[0] then -1
    else if a[0] > b[0] then 1
    else Compare(a[1..], b[1..])
  }

  // The first `n` bytes, compared as unsigned values.
  function MemCmp(a: seq<byte>, b: seq<byte>, n: nat): int
    requires n <= |a| && n <= |b|
  {
    if n == 0 then 0
    else if a[0] != b[0] then a[0] - b[0]
    else MemCmp(a[1..], b[1..], n - 1)
  }

  predicate StringLessThan(a: seq<byte>, b: seq<byte>) {
    var cmp := MemCmp(a, b, if |b| < |a| then |b| else |a|);
    if cmp == 0 then |a| < |b| else cmp < 0
  }

  lemma {:induction false} StringLessThanIsLexicographic(a: seq<byte>, b: seq<byte>)
    ensures StringLessThan(a, b) <==> Compare(a, b) < 0
  {
    if a != [] && b != [] && a[0] == b[0] {
      StringLessThanIsLexicographic(a[1..], b[1..]);
    }
  }

  lemma {:induction false} CompareEqual(a: seq<byte>, b: seq<byte>)
    ensures Compare(a, b) == 0 <==> a == b
  {
    if a != [] && b != [] && a[0] == b[0] {
      CompareEqual(a[1..], b[1..]);
      assert a == [a[0]] + a[1..] && b == [b[0]] + b[1..];
    }
  }

  lemma {:induction false} CompareReverse(a: seq<byte>, b: seq<byte>)
    ensures Compare(a, b) < 0 <==> Compare(b, a) > 0
    ensures -1 <= Compare(a, b) <= 1
  {
    if a != [] && b != [] && a[0] == b[0] {
      CompareReverse(a[1..], b[1..]);
    }
  }

  lemma {:induction false} CompareTransitive(a: seq<byte>, b: seq<byte>, c: seq<byte>)
    requires Compare(a, b) < 0 && Compare(b, c) < 0
    ensures Compare(a, c) < 0
  {
    if a != [] && b != [] && c != [] && a[0] == b[0] == c[0] {
      CompareTransitive(a[1..], b[1..], c[1..]);
    }
  }

  // The order a string pool and a sorted vector rely on: strict and total.
  lemma StringOrderIsStrictTotal(a: seq<byte>, b: seq<byte>, c: seq<byte>)
    ensures !StringLessThan(a, a)
    ensures !StringLessThan(a, b) && !StringLessThan(b, a) <==> a == b
    ensures !(StringLessThan(a, b) && StringLessThan(b, a))
    ensures StringLessThan(a, b) && StringLessThan(b, c) ==> StringLessThan(a, c)
  {
    StringLessThanIsLexicographic(a, a);
    StringLessThanIsLexicographic(a, b);
    StringLessThanIsLexicographic(b, a);
    StringLessThanIsLexicographic(b, c);
    StringLessThanIsLexicographic(a, c);
    CompareEqual(a, a);
    CompareEqual(a, b);
    CompareReverse(a, b);
    CompareReverse(b, a);
    if Compare(a, b) < 0 && Compare(b, c) < 0 {
      CompareTransitive(a, b, c);
    }
  }

  // ----------------------------------------------------------------- strcmp

  predicate NulFree(s: seq<byte>) {
    forall i :: 0 <= i < |s| ==> s[i] != 0
  }

  // The text before the first NUL.
  function Cut(s: seq<byte>): (t: seq<byte>)
    ensures |t| <= |s| && NulFree(t)
  {
    if s == [] || s[0] == 0 then [] else [s[0]] + Cut(s[1..])
  }

  lemma {:induction false} CutWhole(s: seq<byte>)
    ensures Cut(s) == s <==> NulFree(s)
  {
    if s != [] && s[0] != 0 {
      CutWhole(s[1..]);
      assert s == [s[0]] + s[1..] && Cut(s)[1..] == Cut(s[1..]);
      assert NulFree(s) <==> NulFree(s[1..]) by {
        assert forall i :: 0 < i < |s| ==> s[i] == s[1..][i - 1];
      }
    }
  }

  // A NUL-terminated string starts at `i`.
  predicate Terminated(m: seq<byte>, i: nat) {
    i < |m| && exists k :: i <= k < |m| && m[k] == 0
  }

  function CString(m: seq<byte>, i: nat): seq<byte>
    requires Terminated(m, i)
    decreases |m| - i
  {
    if m[i] == 0 then [] else [m[i]] + CString(m, i + 1)
  }

  // `strcmp`: byte by byte until the first difference or the end of both.
  function StrCmp(m: seq<byte>, i: nat, n: seq<byte>, j: nat): int
    requires Terminated(m, i) && Terminated(n, j)
    decreases |m| - i
  {
    if m[i] != n[j] then m[i] - n[j]
    else if m[i] == 0 then 0
    else StrCmp(m, i + 1, n, j + 1)
  }

  lemma {:induction false} StrCmpSign(m: seq<byte>, i: nat, n: seq<byte>, j: nat)
    requires Terminated(m, i) && Terminated(n, j)
    ensures var c, s := Compare(CString(m, i), CString(n, j)), StrCmp(m, i, n, j);
      && (s < 0 <==> c < 0) && (s == 0 <==> c == 0) && (s > 0 <==> c > 0)
    decreases |m| - i
  {
    if m[i] != 0 && m[i] == n[j] {
      StrCmpSign(m, i + 1, n, j + 1);
      assert CString(m, i)[1..] == CString(m, i + 1);
      assert CString(n, j)[1..] == CString(n, j + 1);
    }
  }

  // A NUL-free string stored with a terminator reads back whole.
  lemma {:induction false} CStringReads(m: seq<byte>, i: nat, s: seq<byte>)
    requires NulFree(s) && i + |s| < |m| && m[i..i + |s|] == s && m[i + |s|] == 0
    ensures Terminated(m, i) && CString(m, i) == s
    decreases |s|
  {
    if s != [] {
      assert m[i] == s[0];
      assert m[i + 1..i + 1 + |s[1..]|] == s[1..];
      CStringReads(m, i + 1, s[1..]);
      assert s == [s[0]] + s[1..];
    }
  }
}
