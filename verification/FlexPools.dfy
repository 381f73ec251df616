// Pooling of keys and strings: the same text always gives the same offset, and
// a hit leaves the buffer as it was.
module FlexPools {
  import opened Bits
  import opened Bytes
  import opened Ordering
  import opened Options
  import opened FlexWidth
  import opened FlexTypes
  import opened FlexReader
  import opened FlexSpec
  import opened FlexFields
  import opened FlexObjects
  import opened FlexRuns
  import opened FlexInvariant

  // --------------------------------------------------------------- comparing

  lemma SameKeyIsEqual(buf: seq<byte>, a: nat, b: nat)
    requires Terminated(buf, a) && Terminated(buf, b)
    ensures SameKey(buf, a, b) <==> CString(buf, a) == CString(buf, b)
  {
    StrCmpSign(buf, a, buf, b);
    StrCmpSign(buf, b, buf, a);
    CompareEqual(CString(buf, a), CString(buf, b));
    CompareReverse(CString(buf, a), CString(buf, b));
    CompareReverse(CString(buf, b), CString(buf, a));
  }

  // Once `n` passes the end of either string, `strncmp` is `strcmp`.
  lemma {:induction false} StrNCmpIsStrCmp(m: seq<byte>, i: nat, j: nat, n: nat)
    requires Terminated(m, i) && Terminated(m, j)
    requires n > |CString(m, i)| || n > |CString(m, j)|
    ensures StrNCmp(m, i, j, n) == StrCmp(m, i, m, j)
    decreases n
  {
    if m[i] == m[j] && m[i] != 0 {
      StrNCmpIsStrCmp(m, i + 1, j + 1, n - 1);
    }
  }

  lemma SameStringIsEqual(buf: seq<byte>, a: (nat, nat), b: (nat, nat))
    requires Terminated(buf, a.0) && Terminated(buf, b.0)
    requires a.1 == |CString(buf, a.0)| && b.1 == |CString(buf, b.0)|
    ensures SameString(buf, a, b) <==> CString(buf, a.0) == CString(buf, b.0)
  {
    var n := Min(a.1, b.1) + 1;
    StrNCmpIsStrCmp(buf, a.0, b.0, n);
    StrNCmpIsStrCmp(buf, b.0, a.0, n);
    SameKeyIsEqual(buf, a.0, b.0);
    hide StrCmp, StrNCmp, CString;
  }

  // The lookup finds an entry with the same text, if there is one.
  lemma {:induction false} FindKeyFinds(buf: seq<byte>, pool: seq<nat>, off: nat)
    requires KeysTerminated(buf, pool) && Terminated(buf, off)
    ensures match FindKey(buf, pool, off)
      case Some(p) => p in pool && CString(buf, p) == CString(buf, off)
      case None => forall i :: 0 <= i < |pool| ==> CString(buf, pool[i]) != CString(buf, off)
  {
    hide SameKey, CString;
    if pool != [] {
      SameKeyIsEqual(buf, pool[0], off);
      if !SameKey(buf, pool[0], off) {
        FindKeyFinds(buf, pool[1..], off);
        forall i | 0 <= i < |pool| && FindKey(buf, pool, off).None?
          ensures CString(buf, pool[i]) != CString(buf, off)
        {
          if i > 0 {
            assert pool[i] == pool[1..][i - 1];
          }
        }
      }
    }
  }

  predicate LengthsKept(buf: seq<byte>, pool: seq<(nat, nat)>) {
    forall i :: 0 <= i < |pool| ==> Terminated(buf, pool[i].0) && pool[i].1 == |CString(buf, pool[i].0)|
  }

  lemma {:induction false} FindStringFinds(buf: seq<byte>, pool: seq<(nat, nat)>, so: (nat, nat))
    requires LengthsKept(buf, pool) && Terminated(buf, so.0) && so.1 == |CString(buf, so.0)|
    ensures match FindString(buf, pool, so)
      case Some(p) => p in pool && CString(buf, p.0) == CString(buf, so.0)
      case None => forall i :: 0 <= i < |pool| ==> CString(buf, pool[i].0) != CString(buf, so.0)
  {
    hide SameString, CString;
    if pool != [] {
      SameStringIsEqual(buf, pool[0], so);
      if !SameString(buf, pool[0], so) {
        FindStringFinds(buf, pool[1..], so);
        forall i | 0 <= i < |pool| && FindString(buf, pool, so).None?
          ensures CString(buf, pool[i].0) != CString(buf, so.0)
        {
          if i > 0 {
            assert pool[i] == pool[1..][i - 1];
          }
        }
      }
    }
  }

  // --------------------------------------------------------------------- keys

  ghost predicate KeyPooled(st: State, s: seq<byte>, p: nat) {
    p in st.keyPool && KeyAt(st.buf, p, s)
  }

  lemma KeyWritten(buf: seq<byte>, s: seq<byte>)
    requires NulFree(s)
    ensures KeyAt(buf + s + [0], |buf|, s)
  {
    KeyShows(buf, s);
  }

  lemma PoolText(st: State, buf: seq<byte>, p: nat)
    requires KeyPoolOk(st.buf, st.keyPool) && st.buf <= buf && p in st.keyPool
    ensures Terminated(st.buf, p) && Terminated(buf, p) && CString(buf, p) == CString(st.buf, p)
  {
    hide CString;
    var i :| 0 <= i < |st.keyPool| && st.keyPool[i] == p;
    KeyStable(st.buf, buf, p);
  }

  // A known key is not stored again: its first offset is used, and the buffer
  // and the pool are exactly as before.  A new key gets a new offset.
  lemma SharedKey(st: State, s: seq<byte>)
    requires PoolsTerminated(st) && KeyPoolOk(st.buf, st.keyPool) && st.shareKeys && NulFree(s)
    ensures (exists p :: KeyPooled(st, s, p)) ==>
      exists p :: KeyPooled(st, s, p) && Key(st, s) == Push(st, Value(p, KEY, 0))
    ensures !(exists p :: KeyPooled(st, s, p)) ==>
      Key(st, s) == Push(st.(buf := st.buf + s + [0], keyPool := st.keyPool + [|st.buf|]), Value(|st.buf|, KEY, 0))
  {
    var buf := st.buf + s + [0];
    KeyWritten(st.buf, s);
    PoolsStayTerminated(st, buf);
    FindKeyFinds(buf, st.keyPool, |st.buf|);
    hide KeysTerminated, FindKey, CString;
    match FindKey(buf, st.keyPool, |st.buf|)
    case Some(p) =>
      PoolText(st, buf, p);
      assert KeyPooled(st, s, p);
    case None =>
      forall p ensures !KeyPooled(st, s, p) {
        if KeyPooled(st, s, p) {
          PoolText(st, buf, p);
        }
      }
  }

  lemma InvPools(st: State, ts: seq<Tree>)
    requires Inv(st, ts)
    ensures PoolsTerminated(st) && KeyPoolOk(st.buf, st.keyPool) && StringPoolOk(st.buf, st.stringPool)
  {
    hide BytesAt;
  }

  lemma PooledKeyMeans(st: State, s: seq<byte>, p: nat)
    requires KeyPooled(st, s, p)
    ensures Means(st.buf, Value(p, KEY, 0), VKey(s))
  {
  }

  lemma NewKeyDistinct(st: State, s: seq<byte>)
    requires KeyPoolOk(st.buf, st.keyPool) && NulFree(s)
    requires !(exists p :: KeyPooled(st, s, p))
    ensures KeyPoolOk(st.buf + s + [0], st.keyPool + [|st.buf|])
  {
    var buf, pool := st.buf + s + [0], st.keyPool + [|st.buf|];
    KeyWritten(st.buf, s);
    hide CString;
    forall i | 0 <= i < |st.keyPool|
      ensures Terminated(buf, pool[i]) && CString(buf, pool[i]) == CString(st.buf, pool[i]) != s
    {
      PoolText(st, buf, pool[i]);
      assert !KeyPooled(st, s, pool[i]);
    }
  }

  lemma KeyStepKeeps(st: State, ts: seq<Tree>, s: seq<byte>)
    requires Inv(st, ts) && CanStep(st, ts, OKey(s))
    ensures Inv(Step(st, OKey(s)), TreeStep(ts, OKey(s)))
  {
    var buf, val := st.buf + s + [0], Value(|st.buf|, KEY, 0);
    InvPools(st, ts);
    KeyShows(st.buf, s);
    hide Means, KeyPoolOk, StringPoolOk, KeyPooled;
    if st.shareKeys {
      SharedKey(st, s);
      if p :| KeyPooled(st, s, p) && Key(st, s) == Push(st, Value(p, KEY, 0)) {
        PooledKeyMeans(st, s, p);
        InlineKeeps(st, ts, Value(p, KEY, 0), VKey(s));
      } else {
        PushKeeps(st, ts, buf, val, VKey(s));
        NewKeyDistinct(st, s);
      }
    } else {
      PushKeeps(st, ts, buf, val, VKey(s));
    }
  }

  // ------------------------------------------------------------------ strings

  ghost predicate StringPooled(st: State, s: seq<byte>, so: (nat, nat)) {
    so in st.stringPool && Terminated(st.buf, so.0) && CString(st.buf, so.0) == s && so.1 == |s|
  }

  lemma StringWritten(buf: seq<byte>, s: seq<byte>)
    requires |s| < TWO_64 && NulFree(s)
    ensures var (b, v) := CreateBlob(buf, s, [0], STRING);
      && buf <= b && PooledString(b, (v.bits, |s|)) && CString(b, v.bits) == s
  {
    BlobShows(buf, s, [0], STRING);
    var (b, v) := CreateBlob(buf, s, [0], STRING);
    hide BytesAt, WidthU, NulFree;
    BlobEnds(buf, s);
    CStringReads(b, v.bits, s);
  }

  lemma BlobEnds(buf: seq<byte>, s: seq<byte>)
    requires |s| < TWO_64
    ensures var (b, v) := CreateBlob(buf, s, [0], STRING);
      v.bits + |s| < |b| && b[v.bits..v.bits + |s|] == s && b[v.bits + |s|] == 0
  {
    var bw := WidthU(|s|);
    var head := WriteScalar(AlignTo(buf, bw), |s|, bw);
    hide WriteScalar, AlignTo, WidthU;
    assert (head + s + [0])[|head|..|head| + |s|] == s;
  }

  lemma StringPoolText(st: State, buf: seq<byte>, so: (nat, nat))
    requires StringPoolOk(st.buf, st.stringPool) && st.buf <= buf && so in st.stringPool
    ensures PooledString(st.buf, so) && PooledString(buf, so) && CString(buf, so.0) == CString(st.buf, so.0)
  {
    hide PooledString, CString;
    var i :| 0 <= i < |st.stringPool| && st.stringPool[i] == so;
    PooledStringStable(st.buf, buf, so);
  }

  lemma SharedString(st: State, s: seq<byte>)
    requires PoolsTerminated(st) && StringPoolOk(st.buf, st.stringPool) && st.shareStrings && NulFree(s) && |s| < TWO_64
    ensures (exists so :: StringPooled(st, s, so)) ==>
      exists so :: StringPooled(st, s, so) && String(st, s) == Push(st, Value(so.0, STRING, WidthU(|s|)))
    ensures !(exists so :: StringPooled(st, s, so)) ==>
      var (b, v) := CreateBlob(st.buf, s, [0], STRING);
      String(st, s) == Push(st.(buf := b, stringPool := st.stringPool + [(v.bits, |s|)]), v)
  {
    var (buf, v) := CreateBlob(st.buf, s, [0], STRING);
    StringWritten(st.buf, s);
    PoolsStayTerminated(st, buf);
    hide CString, BytesAt, WidthU, AlignTo, WriteScalar;
    forall i | 0 <= i < |st.stringPool|
      ensures Terminated(buf, st.stringPool[i].0) && st.stringPool[i].1 == |CString(buf, st.stringPool[i].0)|
    {
      StringPoolText(st, buf, st.stringPool[i]);
    }
    FindStringFinds(buf, st.stringPool, (v.bits, |s|));
    hide StringsTerminated, FindString;
    match FindString(buf, st.stringPool, (v.bits, |s|))
    case Some(so) =>
      StringPoolText(st, buf, so);
      assert StringPooled(st, s, so);
    case None =>
      forall so ensures !StringPooled(st, s, so) {
        if StringPooled(st, s, so) {
          StringPoolText(st, buf, so);
        }
      }
  }

  lemma PooledStringMeans(st: State, s: seq<byte>, so: (nat, nat))
    requires StringPoolOk(st.buf, st.stringPool) && StringPooled(st, s, so)
    ensures |s| < TWO_64 && Means(st.buf, Value(so.0, STRING, WidthU(|s|)), VString(s))
  {
    hide CString, BytesAt, WidthU;
    StringPoolText(st, st.buf, so);
  }

  lemma NewStringDistinct(st: State, s: seq<byte>)
    requires StringPoolOk(st.buf, st.stringPool) && NulFree(s) && |s| < TWO_64
    requires !(exists so :: StringPooled(st, s, so))
    ensures var (b, v) := CreateBlob(st.buf, s, [0], STRING);
      StringPoolOk(b, st.stringPool + [(v.bits, |s|)])
  {
    var (buf, v) := CreateBlob(st.buf, s, [0], STRING);
    var pool := st.stringPool + [(v.bits, |s|)];
    StringWritten(st.buf, s);
    hide CString, CreateBlob, BytesAt;
    forall i | 0 <= i < |st.stringPool|
      ensures PooledString(buf, pool[i]) && CString(buf, pool[i].0) == CString(st.buf, pool[i].0) != s
    {
      StringPoolText(st, buf, pool[i]);
      assert !StringPooled(st, s, pool[i]);
    }
  }

  lemma StringStepKeeps(st: State, ts: seq<Tree>, s: seq<byte>)
    requires Inv(st, ts) && CanStep(st, ts, OString(s))
    ensures Inv(Step(st, OString(s)), TreeStep(ts, OString(s)))
  {
    var (buf, val) := CreateBlob(st.buf, s, [0], STRING);
    InvPools(st, ts);
    BlobShows(st.buf, s, [0], STRING);
    hide Means, KeyPoolOk, StringPoolOk, StringPooled, CreateBlob;
    if st.shareStrings {
      SharedString(st, s);
      if so :| StringPooled(st, s, so) && String(st, s) == Push(st, Value(so.0, STRING, WidthU(|s|))) {
        PooledStringMeans(st, s, so);
        InlineKeeps(st, ts, Value(so.0, STRING, WidthU(|s|)), VString(s));
      } else {
        PushKeeps(st, ts, buf, val, VString(s));
        NewStringDistinct(st, s);
      }
    } else {
      PushKeeps(st, ts, buf, val, VString(s));
    }
  }

  lemma BlobStepKeeps(st: State, ts: seq<Tree>, s: seq<byte>)
    requires Inv(st, ts) && CanStep(st, ts, OBlob(s))
    ensures Inv(Step(st, OBlob(s)), TreeStep(ts, OBlob(s)))
  {
    var (buf, val) := CreateBlob(st.buf, s, [], BLOB);
    BlobShows(st.buf, s, [], BLOB);
    hide Means, Inv, CreateBlob;
    PushKeeps(st, ts, buf, val, VBlob(s));
  }
}
