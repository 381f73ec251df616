// What embedded NULs do to keys and to shared strings: both are compared as C
// strings, so only the text before the first NUL tells them apart.
module FlexNuls {
  import opened Bytes
  import opened Bits
  import opened Ordering
  import opened Options
  import opened FlexWidth
  import opened FlexTypes
  import opened FlexReader
  import opened FlexSpec
  import opened FlexFields
  import opened FlexObjects
  import opened FlexPools

  // The string lies at `p`, followed by a terminator.
  predicate StringAt(buf: seq<byte>, p: nat, s: seq<byte>) {
    p + |s| < |buf| && buf[p..p + |s|] == s && buf[p + |s|] == 0
  }

  lemma {:induction false} CStringCuts(buf: seq<byte>, p: nat, s: seq<byte>)
    requires StringAt(buf, p, s)
    ensures Terminated(buf, p) && CString(buf, p) == Cut(s)
    decreases |s|
  {
    assert buf[p + |s|] == 0;
    if s != [] {
      assert buf[p] == s[0];
      if s[0] != 0 {
        assert buf[p + 1..p + 1 + |s[1..]|] == s[1..];
        CStringCuts(buf, p + 1, s[1..]);
      }
    }
  }

  // A key is read back whole exactly when it has no NUL in it.
  lemma KeyKeptIff(buf: seq<byte>, s: seq<byte>)
    ensures KeyAt(buf + s + [0], |buf|, s) <==> NulFree(s)
    ensures KeyAt(buf + s + [0], |buf|, Cut(s))
  {
    var b := buf + s + [0];
    assert b[|buf|..|buf| + |s|] == s && b[|buf| + |s|] == 0;
    CStringCuts(b, |buf|, s);
    CutWhole(s);
  }

  // The key at `p` in the pool reads as the text of `s` up to its first NUL.
  ghost predicate PooledCut(st: State, s: seq<byte>, p: nat)
    requires PoolsTerminated(st)
  {
    p in st.keyPool && CString(st.buf, p) == Cut(s)
  }

  // Sharing a key of any bytes: a pooled key with the same text up to the first
  // NUL is used again, otherwise the key is stored and pooled.  Either way the
  // value shows that text, and so the key itself if and only if it has no NUL.
  lemma SharedKeyIff(st: State, s: seq<byte>)
    requires PoolsTerminated(st) && st.shareKeys
    ensures var t := Key(st, s);
      && |t.stack| == |st.stack| + 1
      && var v := t.stack[|st.stack|];
      && v.typ == KEY && KeyAt(t.buf, v.bits, Cut(s)) && (Means(t.buf, v, VKey(s)) <==> NulFree(s))
      && if exists p :: PooledCut(st, s, p)
         then t.buf == st.buf && t.keyPool == st.keyPool && PooledCut(st, s, v.bits)
         else t.buf == st.buf + s + [0] && t.keyPool == st.keyPool + [|st.buf|] && v.bits == |st.buf|
  {
    var buf := st.buf + s + [0];
    var hit := KeyLookup(st, s, buf);
    hide FindKey, CString, Terminated, Cut, NulFree, KeyAt, Means, PoolsTerminated, KeysTerminated;
    match hit
    case Some(p) => MeansCut(st.buf, p, s);
    case None => MeansCut(buf, |st.buf|, s);
  }

  lemma MeansCut(buf: seq<byte>, p: nat, s: seq<byte>)
    requires p <= |buf| && KeyAt(buf, p, Cut(s))
    ensures Means(buf, Value(p, KEY, 0), VKey(s)) <==> NulFree(s)
  {
    CutWhole(s);
    hide CString, Terminated, Cut, NulFree;
  }

  // What the call finds, and what it then does.
  lemma KeyLookup(st: State, s: seq<byte>, buf: seq<byte>) returns (hit: Option<nat>)
    requires PoolsTerminated(st) && st.shareKeys && buf == st.buf + s + [0]
    ensures hit.None? ==>
      && (forall p :: !PooledCut(st, s, p)) && KeyAt(buf, |st.buf|, Cut(s))
      && Key(st, s) == Push(st.(buf := buf, keyPool := st.keyPool + [|st.buf|]), Value(|st.buf|, KEY, 0))
    ensures hit.Some? ==>
      && PooledCut(st, s, hit.value) && hit.value <= |st.buf| && KeyAt(st.buf, hit.value, Cut(s))
      && Key(st, s) == Push(st, Value(hit.value, KEY, 0))
  {
    KeyKeptIff(st.buf, s);
    PoolsStayTerminated(st, buf);
    PoolCuts(st, buf, s);
    hide FindKey, CString, Terminated, Cut, NulFree, StringsTerminated;
    FindKeyFinds(buf, st.keyPool, |st.buf|);
    hit := FindKey(buf, st.keyPool, |st.buf|);
  }

  lemma PoolCuts(st: State, buf: seq<byte>, s: seq<byte>)
    requires PoolsTerminated(st) && st.buf <= buf && KeysTerminated(buf, st.keyPool)
    ensures forall p :: p in st.keyPool ==> p < |st.buf| && Terminated(buf, p) && CString(st.buf, p) == CString(buf, p)
  {
    hide CString;
    forall p | p in st.keyPool ensures p < |st.buf| && Terminated(buf, p) && CString(st.buf, p) == CString(buf, p) {
      KeyStable(st.buf, buf, p);
    }
  }

  // The pool's comparison finds two strings the same exactly when they agree
  // up to their first NUL, whatever their lengths.
  lemma SameStringIff(buf: seq<byte>, p: nat, s: seq<byte>, q: nat, t: seq<byte>)
    requires StringAt(buf, p, s) && StringAt(buf, q, t)
    ensures Terminated(buf, p) && Terminated(buf, q)
    ensures SameString(buf, (p, |s|), (q, |t|)) <==> Cut(s) == Cut(t)
  {
    hide StrCmp, StrNCmp, CString, Terminated, StringAt, Cut, NulFree;
    CStringCuts(buf, p, s);
    CStringCuts(buf, q, t);
    var n := Min(|s|, |t|) + 1;
    StrNCmpIsStrCmp(buf, p, q, n);
    StrNCmpIsStrCmp(buf, q, p, n);
    SameKeyIsEqual(buf, p, q);
  }

  // ------------------------------------------------------------ shared strings

  // The pool holds these strings, each with its length in front.
  ghost predicate Pools(buf: seq<byte>, pool: seq<(nat, nat)>, texts: seq<seq<byte>>) {
    && |pool| == |texts|
    && forall i :: 0 <= i < |pool| ==>
         && |texts[i]| < TWO_64 && pool[i].1 == |texts[i]| && StringAt(buf, pool[i].0, texts[i])
         && BytesAt(buf, pool[i].0, ByteWidth(WidthU(|texts[i]|)), texts[i])
  }

  // The first pooled string that agrees with `s` up to the first NUL.
  function First(texts: seq<seq<byte>>, s: seq<byte>): (i: nat)
    ensures i <= |texts|
    ensures i < |texts| ==> Cut(texts[i]) == Cut(s)
    ensures forall j :: 0 <= j < i ==> Cut(texts[j]) != Cut(s)
  {
    if texts == [] then 0
    else if Cut(texts[0]) == Cut(s) then 0
    else
      var i := First(texts[1..], s);
      assert forall j :: 0 < j < i + 1 ==> texts[j] == texts[1..][j - 1];
      i + 1
  }

  lemma {:induction false} FindFirst(buf: seq<byte>, pool: seq<(nat, nat)>, texts: seq<seq<byte>>, q: nat, s: seq<byte>)
    requires |pool| == |texts| && StringAt(buf, q, s)
    requires forall i :: 0 <= i < |pool| ==> pool[i].1 == |texts[i]| && StringAt(buf, pool[i].0, texts[i])
    ensures StringsTerminated(buf, pool) && Terminated(buf, q)
    ensures FindString(buf, pool, (q, |s|)) == if First(texts, s) < |texts| then Some(pool[First(texts, s)]) else None
  {
    CStringCuts(buf, q, s);
    forall i | 0 <= i < |pool| ensures Terminated(buf, pool[i].0) {
      CStringCuts(buf, pool[i].0, texts[i]);
    }
    hide StringAt, SameString, Terminated, CString;
    if pool != [] {
      SameStringIff(buf, pool[0].0, texts[0], q, s);
      assert pool[0] == (pool[0].0, |texts[0]|);
      FindFirst(buf, pool[1..], texts[1..], q, s);
    }
  }

  lemma StringAtStable(a: seq<byte>, b: seq<byte>, p: nat, s: seq<byte>)
    requires StringAt(a, p, s) && a <= b
    ensures StringAt(b, p, s)
  {
    assert b[p..p + |s|] == a[p..p + |s|];
  }

  // The high `w` bytes of a length stored in `a` bytes.
  function HighPart(n: nat, a: nat, w: nat): (h: nat)
    requires w <= a && n < Range(a)
    ensures h <= n && (w == a ==> h == n)
  {
    HighPartOf(n, a, w);
    FromLE(ToLE(a, n)[a - w..])
  }

  lemma HighPartOf(n: nat, a: nat, w: nat)
    requires w <= a && n < Range(a)
    ensures var low, high := FromLE(ToLE(a, n)[..a - w]), FromLE(ToLE(a, n)[a - w..]);
      low < Range(a - w) && n == low + Shifted(a - w, high) && high <= n
    ensures w == a ==> FromLE(ToLE(a, n)[a - w..]) == n
  {
    var image := ToLE(a, n);
    LEFits(a, n);
    hide ToLE, FromLE, Shifted;
    assert image == image[..a - w] + image[a - w..];
    FromLEConcat(image[..a - w], image[a - w..]);
    FromLEBound(image[..a - w]);
  }

  // The length a reader finds who expects it in `w` bytes in front of `p`, where
  // the length `n` was stored in `a` bytes: fewer bytes are the high ones of it,
  // more take in what lies in front.
  function FoundSize(buf: seq<byte>, p: nat, n: nat, a: nat, w: nat): Option<nat>
    requires p <= |buf| && n < Range(a)
  {
    if w <= a then Some(HighPart(n, a, w))
    else if w <= p then Some(FromLE(buf[p - w..p - a]) + Shifted(w - a, n))
    else None
  }

  lemma SizeIs(buf: seq<byte>, p: nat, w: Width)
    requires p <= |buf|
    ensures var n := ByteWidth(w);
      Size(buf, p, n) == if n <= p then Some(FromLE(buf[p - n..p])) else None
  {
    hide FromLE;
  }

  lemma FewerBytes(stored: seq<byte>, w: nat)
    requires w <= |stored|
    ensures FromLE(stored) < Range(|stored|)
    ensures FromLE(stored[|stored| - w..]) == HighPart(FromLE(stored), |stored|, w)
  {
    FromLEBound(stored);
    LEInverse(stored);
    hide ToLE, FromLE, Range;
  }

  lemma TailSlice(buf: seq<byte>, p: nat, a: nat, w: nat)
    requires w <= a <= p <= |buf|
    ensures buf[p - a..p][a - w..] == buf[p - w..p]
  {
  }

  lemma FrontSlice(buf: seq<byte>, p: nat, a: nat, w: nat)
    requires a <= w <= p <= |buf|
    ensures buf[p - w..p] == buf[p - w..p - a] + buf[p - a..p]
  {
  }

  lemma FoundInFront(buf: seq<byte>, p: nat, a: nat, w: nat)
    requires a <= p <= |buf|
    ensures var n := FromLE(buf[p - a..p]);
      n < Range(a) && FoundSize(buf, p, n, a, w) == if w <= p then Some(FromLE(buf[p - w..p])) else None
  {
    hide ToLE, FromLE, Range, HighPart, Shifted;
    FewerBytes(buf[p - a..p], 0);
    if w <= a {
      FewerBytes(buf[p - a..p], w);
      TailSlice(buf, p, a, w);
    } else if w <= p {
      FrontSlice(buf, p, a, w);
      FromLEConcat(buf[p - w..p - a], buf[p - a..p]);
    }
  }

  lemma SizeAtWidth(buf: seq<byte>, p: nat, s: seq<byte>, a: Width, w: Width)
    requires BytesAt(buf, p, ByteWidth(a), s)
    ensures |s| < Range(ByteWidth(a))
    ensures Size(buf, p, ByteWidth(w)) == FoundSize(buf, p, |s|, ByteWidth(a), ByteWidth(w))
  {
    SizeIs(buf, p, a);
    SizeIs(buf, p, w);
    hide FromLE, Range, Size, ByteWidth, HighPart, FoundSize;
    FoundInFront(buf, p, ByteWidth(a), ByteWidth(w));
  }

  lemma LengthFits(n: nat)
    requires n < TWO_64
    ensures n < Range(ByteWidth(WidthU(n)))
  {
    WidthUIsLeast(n);
    CapacityIsRange(WidthU(n));
  }

  // A reader who expects the length in `w` bytes takes the string at `p`, stored
  // with its length in `a` bytes, for `x`.
  ghost predicate ShowsAt(buf: seq<byte>, p: nat, s: seq<byte>, a: nat, w: nat, x: seq<byte>)
    requires p <= |buf| && |s| < Range(a)
  {
    FoundSize(buf, p, |s|, a, w) == Some(|x|) && p + |x| <= |buf| && buf[p..p + |x|] == x
  }

  // What a string value shows that leads to the stored string `s`.
  ghost predicate Shows(buf: seq<byte>, v: Value, s: seq<byte>, x: seq<byte>)
    requires v.bits <= |buf| && |s| < TWO_64
  {
    LengthFits(|s|);
    ShowsAt(buf, v.bits, s, ByteWidth(WidthU(|s|)), ByteWidth(v.width), x)
  }

  lemma StringMeans(buf: seq<byte>, v: Value, x: seq<byte>)
    requires v.bits <= |buf| && v.typ == STRING
    ensures Means(buf, v, VString(x)) <==> BytesAt(buf, v.bits, ByteWidth(v.width), x)
  {
    hide BytesAt, ByteWidth;
  }

  lemma MeansFound(buf: seq<byte>, v: Value, s: seq<byte>, x: seq<byte>)
    requires v.bits <= |buf| && v.typ == STRING && |s| < TWO_64 && BytesAt(buf, v.bits, ByteWidth(WidthU(|s|)), s)
    ensures Means(buf, v, VString(x)) <==> Shows(buf, v, s, x)
  {
    SizeAtWidth(buf, v.bits, s, WidthU(|s|), v.width);
    StringMeans(buf, v, x);
    hide Size, FoundSize, WidthU, ByteWidth, Means, Range;
  }

  // The string cut to the high part of its length.
  function High(s: seq<byte>, w: nat): seq<byte>
    requires |s| < TWO_64 && w <= ByteWidth(WidthU(|s|))
  {
    LengthFits(|s|);
    s[..HighPart(|s|, ByteWidth(WidthU(|s|)), w)]
  }

  // A width below that of the stored length finds the high part of it.
  lemma ShowsHigh(buf: seq<byte>, v: Value, s: seq<byte>, x: seq<byte>)
    requires v.bits <= |buf| && |s| < TWO_64 && BytesAt(buf, v.bits, ByteWidth(WidthU(|s|)), s)
    requires ByteWidth(v.width) <= ByteWidth(WidthU(|s|))
    ensures Shows(buf, v, s, x) <==> x == High(s, ByteWidth(v.width))
  {
    LengthFits(|s|);
    var a, w := ByteWidth(WidthU(|s|)), ByteWidth(v.width);
    CutAt(buf, v.bits, s, a, w, x);
    hide BytesAt, Range, Size, HighPart, FoundSize, WidthU, ByteWidth, ShowsAt;
  }

  lemma CutAt(buf: seq<byte>, p: nat, s: seq<byte>, a: nat, w: nat, x: seq<byte>)
    requires p + |s| <= |buf| && buf[p..p + |s|] == s && |s| < Range(a) && w <= a
    ensures ShowsAt(buf, p, s, a, w, x) <==> x == s[..HighPart(|s|, a, w)]
  {
    hide Range, HighPart;
    var n := HighPart(|s|, a, w);
    assert buf[p..p + n] == s[..n];
  }

  // Sharing a string of any bytes.  If none of the pooled strings agrees with it
  // up to the first NUL it is stored and pooled.  Otherwise the first that does
  // stands for it, with the width of the new length: the value shows what that
  // width finds in front of the pooled string, which at the width of its own
  // length is the pooled string, and at a smaller one the string cut short.
  lemma SharedStringIff(st: State, texts: seq<seq<byte>>, s: seq<byte>)
    requires PoolsTerminated(st) && st.shareStrings && |s| < TWO_64 && Pools(st.buf, st.stringPool, texts)
    ensures var i := First(texts, s); var t := String(st, s);
      && |t.stack| == |st.stack| + 1
      && var v := t.stack[|st.stack|];
      && v.typ == STRING && v.width == WidthU(|s|)
      && if i < |texts| then
        && t.buf == st.buf && t.stringPool == st.stringPool && v.bits == st.stringPool[i].0 <= |t.buf|
        && (forall x :: Means(t.buf, v, VString(x)) <==> Shows(t.buf, v, texts[i], x))
        && var a, w := ByteWidth(WidthU(|texts[i]|)), ByteWidth(v.width);
        && (w <= a ==> forall x :: Means(t.buf, v, VString(x)) <==> x == High(texts[i], w))
        && (w == a ==> High(texts[i], w) == texts[i])
      else
        && Means(t.buf, v, VString(s)) && t.stringPool == st.stringPool + [(v.bits, |s|)]
        && StringAt(t.buf, v.bits, s)
  {
    var (buf, v) := CreateBlob(st.buf, s, [0], STRING);
    assert v.typ == STRING && v.width == WidthU(|s|);
    var i := First(texts, s);
    StringLookup(st, texts, s);
    hide CreateBlob, BytesAt, WidthU, First, String, Means, PoolsTerminated, StringAt, Cut, Shows, ByteWidth;
    if i < |texts| {
      var u := Value(st.stringPool[i].0, STRING, WidthU(|s|));
      HitShows(st.buf, st.stringPool, texts, i, u);
    }
  }

  lemma HitShows(buf: seq<byte>, pool: seq<(nat, nat)>, texts: seq<seq<byte>>, i: nat, v: Value)
    requires Pools(buf, pool, texts) && i < |texts| && v.bits == pool[i].0 && v.typ == STRING
    ensures v.bits <= |buf| && |texts[i]| < TWO_64
    ensures forall x :: Means(buf, v, VString(x)) <==> Shows(buf, v, texts[i], x)
    ensures var a, w := ByteWidth(WidthU(|texts[i]|)), ByteWidth(v.width);
      && (w <= a ==> forall x :: Means(buf, v, VString(x)) <==> x == High(texts[i], w))
      && (w == a ==> High(texts[i], w) == texts[i])
  {
    hide Means, Shows, WidthU, ByteWidth;
    var a, w := ByteWidth(WidthU(|texts[i]|)), ByteWidth(v.width);
    forall x ensures Means(buf, v, VString(x)) <==> Shows(buf, v, texts[i], x) {
      MeansFound(buf, v, texts[i], x);
    }
    if w <= a {
      forall x ensures Means(buf, v, VString(x)) <==> x == High(texts[i], w) {
        MeansFound(buf, v, texts[i], x);
        ShowsHigh(buf, v, texts[i], x);
      }
    }
  }

  // What the call does, by what the pool holds.
  lemma StringLookup(st: State, texts: seq<seq<byte>>, s: seq<byte>)
    requires PoolsTerminated(st) && st.shareStrings && |s| < TWO_64 && Pools(st.buf, st.stringPool, texts)
    ensures var i := First(texts, s); var (buf, v) := CreateBlob(st.buf, s, [0], STRING);
      && String(st, s) == (if i < |texts| then Push(st, Value(st.stringPool[i].0, STRING, WidthU(|s|)))
                           else Push(st.(buf := buf, stringPool := st.stringPool + [(v.bits, |s|)]), v))
      && Means(buf, v, VString(s)) && StringAt(buf, v.bits, s)
  {
    var (buf, v) := CreateBlob(st.buf, s, [0], STRING);
    BlobShows(st.buf, s, [0], STRING);
    BlobEnds(st.buf, s);
    BlobTerminated(st.buf, s, STRING);
    assert v.typ == STRING && v.width == WidthU(|s|);
    hide CreateBlob, BytesAt, WidthU, FindString, First, Means, Terminated;
    PoolsStayTerminated(st, buf);
    PoolsStay(st.buf, buf, st.stringPool, texts);
    hide Pools, StringAt, PoolsTerminated;
    FindFirst(buf, st.stringPool, texts, v.bits, s);
  }

  lemma PoolsStay(a: seq<byte>, b: seq<byte>, pool: seq<(nat, nat)>, texts: seq<seq<byte>>)
    requires Pools(a, pool, texts) && a <= b
    ensures |pool| == |texts|
    ensures forall i :: 0 <= i < |pool| ==> pool[i].1 == |texts[i]| && StringAt(b, pool[i].0, texts[i])
  {
    hide StringAt, BytesAt;
    forall i | 0 <= i < |pool| ensures StringAt(b, pool[i].0, texts[i]) {
      StringAtStable(a, b, pool[i].0, texts[i]);
    }
  }

  // The pool after a new string.
  lemma PoolAfter(st: State, s: seq<byte>)
    requires PoolsTerminated(st) && st.shareStrings && |s| < TWO_64 && st.stringPool == []
    ensures var t := String(st, s);
      PoolsTerminated(t) && t.shareStrings && Pools(t.buf, t.stringPool, [s]) && |t.stack| == |st.stack| + 1
  {
    SharedStringIff(st, [], s);
    BlobShows(st.buf, s, [0], STRING);
    var t := String(st, s);
    assert t.buf == CreateBlob(st.buf, s, [0], STRING).0 && t.keyPool == st.keyPool;
    hide CreateBlob, WidthU, String;
    PoolsStayTerminated(st, t.buf);
    var v := t.stack[|st.stack|];
    CStringCuts(t.buf, v.bits, s);
    hide KeysTerminated;
    assert BytesAt(t.buf, v.bits, ByteWidth(WidthU(|s|)), s);
  }

  // Of two shared strings of one length that agree up to a NUL, the second
  // reads back as the first.
  lemma SecondReadsAsFirst(x: seq<byte>, y: seq<byte>)
    requires |x| == |y| < TWO_64 && Cut(x) == Cut(y) && x != y
    ensures var t := Initial(true, true);
      && PoolsTerminated(t) && PoolsTerminated(String(t, x))
      && var u := String(String(t, x), y);
      && |u.stack| == 2 && Means(u.buf, u.stack[1], VString(x)) && !Means(u.buf, u.stack[1], VString(y))
  {
    hide String, Means, Pools, Cut;
    PoolAfter(Initial(true, true), x);
    assert First([x], y) == 0;
    SharedStringIff(String(Initial(true, true), x), [x], y);
  }

  // For example `a\0c`, shared after `a\0b`.
  lemma SharedNulIsLost()
    ensures var t := Initial(true, true);
      && PoolsTerminated(t) && PoolsTerminated(String(t, [97, 0, 98]))
      && var u := String(String(t, [97, 0, 98]), [97, 0, 99]);
      && |u.stack| == 2 && Means(u.buf, u.stack[1], VString([97, 0, 98])) && !Means(u.buf, u.stack[1], VString([97, 0, 99]))
  {
    var x, y: seq<byte> := [97, 0, 98], [97, 0, 99];
    assert x[1..] == [0, 98] && y[1..] == [0, 99];
    assert Cut(x[1..]) == [] && Cut(y[1..]) == [];
    assert x[2] != y[2];
    hide String, Means;
    SecondReadsAsFirst(x, y);
  }
}
