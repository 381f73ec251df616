// Sharing over whole runs: a key or string that was stored once is found again
// at the same offset however much is built in between.
module FlexSharing {
  import opened Bits
  import opened Bytes
  import opened Ordering
  import opened Options
  import opened FlexWidth
  import opened FlexTypes
  import opened FlexReader
  import opened FlexSpec
  import opened FlexVectors
  import opened FlexObjects
  import opened FlexRuns
  import opened FlexInvariant
  import opened FlexPools
  import opened FlexRoundTrip

  // A step only appends to the buffer and to the pools.
  ghost predicate Grows(a: State, b: State) {
    && a.buf <= b.buf && a.keyPool <= b.keyPool && a.stringPool <= b.stringPool
    && a.shareKeys == b.shareKeys && a.shareStrings == b.shareStrings
  }

  lemma VectorGrows(st: State, start: nat, typed: bool, fixed: bool)
    requires Roomy(st) && start <= |st.stack| && TypedOk(st.stack[start..], typed, fixed)
    ensures Grows(st, EndVector(st, start, typed, fixed))
  {
    var vals := st.stack[start..];
    hide CreateVector, VectorWidth;
    CreateExtends(st.buf, vals, typed, fixed, None, VectorWidth(|st.buf|, vals, start, 1, st.force, None));
  }

  lemma MapGrows(st: State, start: nat)
    requires Roomy(st) && start <= |st.stack| && KeysFirst(st.stack[start..]) && |CreateKeys(st, start).0| <= MAX_SIZE
    ensures Grows(st, EndMap(st, start))
  {
    var vals := ValsOf(SortPairs(st.buf, Pairs(st.stack[start..])));
    var (buf, keys) := CreateKeys(st, start);
    PairsPlaced(st, start);
    MapPlaced(st, start);
    KeysExtend(st, start);
    hide CreateVector, VectorWidth, CreateKeys, SortPairs, ValsOf;
    CreateExtends(buf, vals, false, false, Some(keys), VectorWidth(|buf|, vals, start + 1, 2, st.force, Some(keys)));
  }

  lemma KeysExtend(st: State, start: nat)
    requires Roomy(st) && start <= |st.stack| && KeysFirst(st.stack[start..])
    ensures st.buf <= CreateKeys(st, start).0
  {
    var ks := KeysOf(SortPairs(st.buf, Pairs(st.stack[start..])));
    PairsPlaced(st, start);
    hide CreateVector, VectorWidth, SortPairs, KeysOf;
    CreateExtends(st.buf, ks, true, false, None, VectorWidth(|st.buf|, ks, start, 2, st.force, None));
  }

  lemma ScalarsGrow(st: State, elems: seq<nat>, typ: nat, bw: Width, fixed: bool)
    requires IsInline(typ) && IsTypedVectorElementType(typ) && (fixed ==> 2 <= |elems| <= 4)
    ensures Grows(st, ScalarVector(st, elems, typ, bw, fixed))
  {
    HeadLength(st.buf, |elems|, fixed, None, bw);
    hide VectorHead, WriteFields;
    FieldsExtend(VectorHead(st.buf, |elems|, fixed, None, bw), ScalarValues(elems, typ, bw), bw);
  }

  lemma StringGrows(st: State, s: seq<byte>)
    requires PoolsTerminated(st) && |s| < TWO_64
    ensures Grows(st, String(st, s))
  {
    BlobShows(st.buf, s, [0], STRING);
    hide CreateBlob, FindString;
  }

  lemma StepGrows(st: State, op: Op)
    requires Roomy(st) && PoolsTerminated(st) && Legal(st, op)
    ensures Grows(st, Step(st, op))
  {
    hide Roomy, PoolsTerminated, EndVector, EndMap, ScalarVector, String, Key, Blob, PushIndirect, CreateKeys, Grows;
    match op
    case OIndirectInt(i) => IndirectGrows(st, Wrap(8, i), INDIRECT_INT, WidthI(i));
    case OIndirectUInt(u) => IndirectGrows(st, u, INDIRECT_UINT, WidthU(u));
    case OKey(s) => KeyGrows(st, s);
    case OString(s) => StringGrows(st, s);
    case OBlob(s) => BlobGrows(st, s);
    case OScalars(typ, bw, elems, fixed) => ScalarsGrow(st, Images(elems), typ, bw, fixed);
    case OVector(start, typed, fixed) => VectorGrows(st, start, typed, fixed);
    case OMap(start) => MapGrows(st, start);
    case _ => InlineGrows(st, op);
  }

  lemma IndirectGrows(st: State, bits: nat, typ: nat, bw: Width)
    ensures Grows(st, PushIndirect(st, bits, typ, bw))
  {
    hide ToLE;
  }

  lemma KeyGrows(st: State, s: seq<byte>)
    requires PoolsTerminated(st)
    ensures Grows(st, Key(st, s))
  {
    hide FindKey;
  }

  lemma BlobGrows(st: State, s: seq<byte>)
    requires |s| < TWO_64
    ensures Grows(st, Blob(st, s))
  {
    BlobShows(st.buf, s, [], BLOB);
    hide CreateBlob;
  }

  lemma InlineGrows(st: State, op: Op)
    requires Roomy(st) && PoolsTerminated(st) && Legal(st, op)
    requires op.ONull? || op.OBool? || op.OInt? || op.OUInt? || op.OForce?
    ensures Grows(st, Step(st, op))
  {
    hide Roomy, PoolsTerminated;
  }

  lemma {:induction false} RunGrows(st: State, ops: seq<Op>)
    requires CanRun(st, ops)
    ensures Grows(st, Run(st, ops))
    decreases |ops|
  {
    if ops != [] {
      StepGrows(st, ops[0]);
      hide Legal, Step;
      RunGrows(Step(st, ops[0]), ops[1..]);
    }
  }

  // ------------------------------------------------------------------ sharing

  lemma KeyStaysPooled(a: State, b: State, s: seq<byte>, p: nat)
    requires KeyPooled(a, s, p) && Grows(a, b)
    ensures KeyPooled(b, s, p)
  {
    KeyStable(a.buf, b.buf, p);
  }

  lemma KeyIsPooled(st: State, s: seq<byte>)
    requires PoolsTerminated(st) && KeyPoolOk(st.buf, st.keyPool) && st.shareKeys && NulFree(s)
    ensures var t := Key(st, s); t.stack != [] && KeyPooled(t, s, t.stack[|t.stack| - 1].bits)
  {
    SharedKey(st, s);
    KeyWritten(st.buf, s);
    hide KeyPoolOk, KeyAt, Key;
  }

  lemma PooledOnce(st: State, s: seq<byte>, p: nat, q: nat)
    requires KeyPoolOk(st.buf, st.keyPool) && KeyPooled(st, s, p) && KeyPooled(st, s, q)
    ensures p == q
  {
    var i :| 0 <= i < |st.keyPool| && st.keyPool[i] == p;
    var j :| 0 <= j < |st.keyPool| && st.keyPool[j] == q;
  }

  lemma KnownKey(st: State, s: seq<byte>, p: nat)
    requires PoolsTerminated(st) && KeyPoolOk(st.buf, st.keyPool) && st.shareKeys && NulFree(s) && KeyPooled(st, s, p)
    ensures Key(st, s) == Push(st, Value(p, KEY, 0))
  {
    SharedKey(st, s);
    hide KeyPoolOk, KeyPooled, Key, PoolsTerminated;
    var q :| KeyPooled(st, s, q) && Key(st, s) == Push(st, Value(q, KEY, 0));
    PooledOnce(st, s, p, q);
  }

  lemma OtherKey(st: State, s: seq<byte>, t: seq<byte>, p: nat)
    requires PoolsTerminated(st) && KeyPoolOk(st.buf, st.keyPool) && st.shareKeys && NulFree(t)
    requires KeyPooled(st, s, p) && s != t
    ensures var c := Key(st, t); c.stack != [] && c.stack[|c.stack| - 1].bits != p
  {
    KeyIsPooled(st, t);
    KeyGrows(st, t);
    hide Key, KeyPoolOk, PoolsTerminated;
    KeyStaysPooled(st, Key(st, t), s, p);
  }

  lemma PooledAfterRun(st: State, ts: seq<Tree>, s: seq<byte>, p: nat, ops: seq<Op>)
    requires Inv(st, ts) && ExpressibleRun(ts, ops, st.shareStrings) && MemoryRun(st, ops)
    requires KeyPooled(st, s, p) && st.shareKeys
    ensures CanRun(st, ops)
    ensures var b := Run(st, ops);
      PoolsTerminated(b) && KeyPoolOk(b.buf, b.keyPool) && b.shareKeys && KeyPooled(b, s, p)
  {
    hide Inv, Run, CanRun, MemoryRun, ExpressibleRun, KeyPooled, KeyPoolOk, PoolsTerminated;
    RunKeeps(st, ts, ops);
    RunGrows(st, ops);
    InvPools(Run(st, ops), TreeRun(ts, ops));
    KeyStaysPooled(st, Run(st, ops), s, p);
  }

  // A key stored before any run is used again after it: the same text gives
  // the same offset and adds not one byte; another text gives another offset.
  lemma KeysAreShared(st: State, ts: seq<Tree>, s: seq<byte>, t: seq<byte>, ops: seq<Op>)
    requires PoolsTerminated(st) && Inv(st, ts) && CanStep(st, ts, OKey(s)) && st.shareKeys && NulFree(t)
    requires ExpressibleRun(ts + [VKey(s)], ops, st.shareStrings) && MemoryRun(Key(st, s), ops)
    ensures var a := Key(st, s);
      && a.stack != [] && CanRun(a, ops) && PoolsTerminated(Run(a, ops))
      && var p := a.stack[|a.stack| - 1].bits;
         var c := Key(Run(a, ops), t);
      && (s == t ==> c == Push(Run(a, ops), Value(p, KEY, 0)))
      && (s != t ==> c.stack != [] && c.stack[|c.stack| - 1].bits != p)
  {
    InvPools(st, ts);
    KeyIsPooled(st, s);
    KeyStepKeeps(st, ts, s);
    KeyGrows(st, s);
    hide Inv, Key, Run, CanRun, MemoryRun, ExpressibleRun, KeyPooled, KeyPoolOk, PoolsTerminated;
    var a := Key(st, s);
    var p := a.stack[|a.stack| - 1].bits;
    PooledAfterRun(a, ts + [VKey(s)], s, p, ops);
    if s == t {
      KnownKey(Run(a, ops), s, p);
    } else {
      OtherKey(Run(a, ops), s, t, p);
    }
  }

  // ------------------------------------------------------------------ strings

  lemma StringStaysPooled(a: State, b: State, s: seq<byte>, so: (nat, nat))
    requires StringPooled(a, s, so) && Grows(a, b)
    ensures StringPooled(b, s, so)
  {
    KeyStable(a.buf, b.buf, so.0);
  }

  lemma StringIsPooled(st: State, s: seq<byte>) returns (so: (nat, nat))
    requires PoolsTerminated(st) && StringPoolOk(st.buf, st.stringPool) && st.shareStrings && NulFree(s) && |s| < TWO_64
    ensures var t := String(st, s); t.stack != [] && so.0 == t.stack[|t.stack| - 1].bits && StringPooled(t, s, so)
  {
    hide StringPoolOk, String, CreateBlob, PoolsTerminated, WidthU, Terminated, BytesAt, CString;
    SharedString(st, s);
    StringWritten(st.buf, s);
    if so1 :| StringPooled(st, s, so1) && String(st, s) == Push(st, Value(so1.0, STRING, WidthU(|s|))) {
      so := so1;
    } else {
      so := (CreateBlob(st.buf, s, [0], STRING).1.bits, |s|);
    }
  }

  lemma StringPooledOnce(st: State, s: seq<byte>, a: (nat, nat), b: (nat, nat))
    requires StringPoolOk(st.buf, st.stringPool) && StringPooled(st, s, a) && StringPooled(st, s, b)
    ensures a == b
  {
    hide PooledString, CString;
    var i :| 0 <= i < |st.stringPool| && st.stringPool[i] == a;
    var j :| 0 <= j < |st.stringPool| && st.stringPool[j] == b;
  }

  lemma KnownString(st: State, s: seq<byte>, so: (nat, nat))
    requires PoolsTerminated(st) && StringPoolOk(st.buf, st.stringPool) && st.shareStrings && NulFree(s) && |s| < TWO_64
    requires StringPooled(st, s, so)
    ensures String(st, s) == Push(st, Value(so.0, STRING, WidthU(|s|)))
  {
    SharedString(st, s);
    hide StringPoolOk, StringPooled, String, PoolsTerminated, WidthU;
    var q :| StringPooled(st, s, q) && String(st, s) == Push(st, Value(q.0, STRING, WidthU(|s|)));
    StringPooledOnce(st, s, so, q);
  }

  lemma OtherString(st: State, s: seq<byte>, t: seq<byte>, so: (nat, nat))
    requires PoolsTerminated(st) && StringPoolOk(st.buf, st.stringPool) && st.shareStrings && NulFree(t) && |t| < TWO_64
    requires StringPooled(st, s, so) && s != t
    ensures var c := String(st, t); c.stack != [] && c.stack[|c.stack| - 1].bits != so.0
  {
    var q := StringIsPooled(st, t);
    StringGrows(st, t);
    hide String, StringPoolOk, PoolsTerminated;
    StringStaysPooled(st, String(st, t), s, so);
  }

  lemma StringPooledAfterRun(st: State, ts: seq<Tree>, s: seq<byte>, so: (nat, nat), ops: seq<Op>)
    requires Inv(st, ts) && ExpressibleRun(ts, ops, st.shareStrings) && MemoryRun(st, ops)
    requires StringPooled(st, s, so) && st.shareStrings
    ensures CanRun(st, ops)
    ensures var b := Run(st, ops);
      PoolsTerminated(b) && StringPoolOk(b.buf, b.stringPool) && b.shareStrings && StringPooled(b, s, so)
  {
    hide Inv, Run, CanRun, MemoryRun, ExpressibleRun, StringPooled, StringPoolOk, PoolsTerminated;
    RunKeeps(st, ts, ops);
    RunGrows(st, ops);
    InvPools(Run(st, ops), TreeRun(ts, ops));
    StringStaysPooled(st, Run(st, ops), s, so);
  }

  // The same for strings, on NUL-free text.
  lemma StringsAreShared(st: State, ts: seq<Tree>, s: seq<byte>, t: seq<byte>, ops: seq<Op>)
    requires PoolsTerminated(st) && Inv(st, ts) && CanStep(st, ts, OString(s)) && st.shareStrings
    requires NulFree(t) && |t| < TWO_64
    requires ExpressibleRun(ts + [VString(s)], ops, st.shareStrings) && MemoryRun(String(st, s), ops)
    ensures var a := String(st, s);
      && a.stack != [] && CanRun(a, ops) && PoolsTerminated(Run(a, ops))
      && var p := a.stack[|a.stack| - 1].bits;
         var c := String(Run(a, ops), t);
      && (s == t ==> c == Push(Run(a, ops), Value(p, STRING, WidthU(|s|))))
      && (s != t ==> c.stack != [] && c.stack[|c.stack| - 1].bits != p)
  {
    InvPools(st, ts);
    var so := StringIsPooled(st, s);
    StringStepKeeps(st, ts, s);
    StringGrows(st, s);
    hide Inv, String, Run, CanRun, MemoryRun, ExpressibleRun, StringPooled, StringPoolOk, PoolsTerminated, WidthU;
    var a := String(st, s);
    StringPooledAfterRun(a, ts + [VString(s)], s, so, ops);
    if s == t {
      KnownString(Run(a, ops), s, so);
    } else {
      OtherString(Run(a, ops), s, t, so);
    }
  }

  // -------------------------------------------------------------- without sharing

  // Without key sharing every key is written where the buffer ends, whether it
  // was written before or not, so no two calls ever give the same offset.
  lemma UnsharedKeys(st: State, s: seq<byte>, ops: seq<Op>, t: seq<byte>)
    requires PoolsTerminated(st) && !st.shareKeys && CanRun(Key(st, s), ops) && PoolsTerminated(Run(Key(st, s), ops))
    ensures var a := Key(st, s); var b := Run(a, ops); var c := Key(b, t);
      && a.buf == st.buf + s + [0] && c.buf == b.buf + t + [0]
      && a.stack == st.stack + [Value(|st.buf|, KEY, 0)] && c.stack == b.stack + [Value(|b.buf|, KEY, 0)]
      && |b.buf| > |st.buf|
  {
    RunGrows(Key(st, s), ops);
    hide Run, CanRun, PoolsTerminated;
  }

  lemma UnsharedString(st: State, s: seq<byte>)
    requires PoolsTerminated(st) && !st.shareStrings && |s| < TWO_64
    ensures var t := String(st, s);
      && t.stack != [] && var p := t.stack[|t.stack| - 1].bits;
      && |st.buf| < p && p + |s| + 1 == |t.buf| && t.buf[p..p + |s|] == s && t.stringPool == st.stringPool
  {
    hide AlignTo, WidthU, ToLE;
    AlignExtends(st.buf, WidthU(|s|));
  }

  lemma AlignExtends(buf: seq<byte>, bw: Width)
    ensures |buf| <= |AlignTo(buf, bw)|
  {
    hide ByteWidth;
  }

  // The same for strings.
  lemma UnsharedStrings(st: State, s: seq<byte>, ops: seq<Op>, t: seq<byte>)
    requires PoolsTerminated(st) && !st.shareStrings && |s| < TWO_64 && |t| < TWO_64
    requires CanRun(String(st, s), ops) && PoolsTerminated(Run(String(st, s), ops))
    ensures var a := String(st, s); var c := String(Run(a, ops), t);
      && a.stack != [] && c.stack != []
      && c.stack[|c.stack| - 1].bits > a.stack[|a.stack| - 1].bits + |s|
  {
    RunGrows(String(st, s), ops);
    UnsharedString(st, s);
    hide Run, CanRun, PoolsTerminated, String;
    UnsharedString(Run(String(st, s), ops), t);
  }
}
