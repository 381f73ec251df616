// What a successful verification promises on arbitrary bytes: every accessor of
// every reachable table, vector and string stays inside the buffer, and the
// counters tell the shape of the tree that is read.
module VerifierSoundness {
  import opened Bits
  import opened Bytes
  import opened Options
  import opened Reader
  import opened VerifierSpec

  lemma ReadInRange(b: seq<byte>, p: nat, n: nat)
    requires p + n <= |b|
    ensures ReadU(b, p, n) == Some(U(b, p, n))
  {
  }

  // A lookup that succeeds at even fields only needs the table to be readable.
  lemma FieldReads(b: seq<byte>, p: nat, f: nat)
    requires TableReadable(b, p) && f % 2 == 0
    ensures FieldOffset(b, p, f) == Some(Entry(b, p, f))
  {
  }

  lemma StringReads(b: seq<byte>, str: nat)
    requires VerifyString(b, str)
    ensures ReadString(b, str).Some?
  {
    hide AlignedTo, FromLE;
    ReadInRange(b, str, 4);
  }

  lemma ElementReads(b: seq<byte>, vec: nat, i: nat)
    requires vec + 4 + 4 * i + 4 <= |b|
    ensures ElementPos(b, vec, i) == Some(Element(b, vec, i))
  {
  }

  lemma {:induction false} StringsRead(b: seq<byte>, vec: nat, i: nat, n: nat)
    requires i <= n && vec + 4 + 4 * n <= |b| && VerifyStringsFrom(b, vec, i, n)
    ensures ReadStrings(b, vec, i, n).Some?
    decreases n - i
  {
    if i < n {
      ElementReads(b, vec, i);
      StringReads(b, Element(b, vec, i));
      StringsRead(b, vec, i + 1, n);
    }
  }

  lemma {:induction false} ScalarsRead(b: seq<byte>, vec: nat, s: nat, i: nat, n: nat)
    requires i <= n && vec + 4 + s * n <= |b|
    ensures ReadScalars(b, vec, s, i, n).Some?
    decreases n - i
  {
    if i < n {
      ElementFits(s, i, n);
      ReadInRange(b, vec + 4 + s * i, s);
      ScalarsRead(b, vec, s, i + 1, n);
    }
  }

  lemma {:induction false} ElementFits(s: nat, i: nat, n: nat)
    requires i < n
    ensures s * i + s <= s * n
  {
    if i + 1 < n {
      ElementFits(s, i, n - 1);
    }
    Successor(s, n - 1);
  }

  lemma Successor(s: nat, n: nat)
    ensures s * (n + 1) == s * n + s
  {
  }

  // The tree a verified table reads as, and what the counters say about it.
  ghost predicate ReadsWithin(tree: Option<Tree>, lim: Limits, st: Counters, after: Counters) {
    && tree.Some?
    && (Counts(lim) ==> after.tables == st.tables + Count(tree.value) <= lim.maxTables)
    && after.started == st.started + Count(tree.value)
    && st.depth + Depth(tree.value) <= lim.maxDepth
    && after.deepest == Max(st.deepest, st.depth + Depth(tree.value))
  }

  ghost predicate ValsWithin(vals: Option<seq<Val>>, lim: Limits, st: Counters, after: Counters) {
    && vals.Some?
    && (Counts(lim) ==> after.tables == st.tables + CountVals(vals.value) <= lim.maxTables)
    && after.started == st.started + CountVals(vals.value)
    && st.depth + DepthVals(vals.value) <= lim.maxDepth
    && after.deepest == Max(st.deepest, st.depth + DepthVals(vals.value))
  }

  ghost predicate ValWithin(v: Option<Val>, lim: Limits, st: Counters, after: Counters) {
    && v.Some?
    && (Counts(lim) ==> after.tables == st.tables + CountVal(v.value) <= lim.maxTables)
    && after.started == st.started + CountVal(v.value)
    && st.depth + DepthVal(v.value) <= lim.maxDepth
    && after.deepest == Max(st.deepest, st.depth + DepthVal(v.value))
  }

  ghost predicate TreesWithin(ts: Option<seq<Tree>>, lim: Limits, st: Counters, after: Counters) {
    && ts.Some?
    && (Counts(lim) ==> after.tables == st.tables + CountTrees(ts.value) <= lim.maxTables)
    && after.started == st.started + CountTrees(ts.value)
    && st.depth + DepthTrees(ts.value) <= lim.maxDepth
    && after.deepest == Max(st.deepest, st.depth + DepthTrees(ts.value))
  }

  lemma {:induction false} TableSound(sch: Schema, b: seq<byte>, t: nat, p: nat, lim: Limits, st: Counters, fuel: nat)
    requires |b| < MAX_BUFFER_SIZE && SchemaOk(sch) && t < |sch|
    requires Shallow(b, p, st.depth) && (Counts(lim) ==> st.tables <= lim.maxTables)
    requires VerifyTable(sch, b, t, p, lim, st).ok && fuel + st.depth >= lim.maxDepth
    ensures ReadsWithin(ReadTable(sch, b, t, p, fuel), lim, st, VerifyTable(sch, b, t, p, lim, st).st)
    decreases Room(b, p), 4, 0
  {
    hide VerifyTableStart, TableReadable;
    StartMakesReadable(b, p, lim, st);
    var s := VerifyTableStart(b, p, lim, st);
    FieldsSound(sch, b, sch[t], p, lim, s.st, fuel - 1);
  }

  lemma {:induction false} FieldsSound(sch: Schema, b: seq<byte>, fs: seq<FieldSpec>, p: nat,
                                       lim: Limits, st: Counters, fuel: nat)
    requires |b| < MAX_BUFFER_SIZE && SchemaOk(sch) && SpecsOk(sch, fs) && TableReadable(b, p)
    requires st.depth > 0 && Shallow(b, p, st.depth - 1)
    requires Counted(lim, st) && VerifyFields(sch, b, fs, p, lim, st).ok && fuel + st.depth >= lim.maxDepth
    ensures ValsWithin(ReadFields(sch, b, fs, p, fuel), lim, st, VerifyFields(sch, b, fs, p, lim, st).st)
    decreases Room(b, p), 3, |fs|
  {
    hide SchemaOk, SpecOk, TableReadable;
    if fs != [] {
      var f := VerifyFieldVal(sch, b, fs[0], p, lim, st);
      FieldSound(sch, b, fs[0], p, lim, st, fuel);
      FieldsSound(sch, b, fs[1..], p, lim, f.st, fuel);
      var vals := ReadFields(sch, b, fs, p, fuel);
      assert vals.value[1..] == ReadFields(sch, b, fs[1..], p, fuel).value;
    }
  }

  lemma {:induction false} FieldSound(sch: Schema, b: seq<byte>, f: FieldSpec, p: nat,
                                      lim: Limits, st: Counters, fuel: nat)
    requires |b| < MAX_BUFFER_SIZE && SchemaOk(sch) && SpecOk(sch, f) && TableReadable(b, p)
    requires st.depth > 0 && Shallow(b, p, st.depth - 1)
    requires Counted(lim, st) && VerifyFieldVal(sch, b, f, p, lim, st).ok && fuel + st.depth >= lim.maxDepth
    ensures ValWithin(ReadFieldVal(sch, b, f, p, fuel), lim, st, VerifyFieldVal(sch, b, f, p, lim, st).st)
    decreases Room(b, p), 2, 0
  {
    hide SchemaOk, TableReadable, FieldOffset, VerifyReferenced, ReadReferenced;
    FieldReads(b, p, f.id);
    var e := Entry(b, p, f.id);
    if e != 0 && !f.kind.KScalar? {
      ReadInRange(b, p + e, 4);
      ReferencedSound(sch, b, f.kind, Target(b, p + e), lim, st, fuel);
    }
  }

  lemma {:induction false} ReferencedSound(sch: Schema, b: seq<byte>, k: Kind, q: nat,
                                           lim: Limits, st: Counters, fuel: nat)
    requires |b| < MAX_BUFFER_SIZE && SchemaOk(sch) && KindOk(sch, k) && !k.KScalar?
    requires Shallow(b, q, st.depth)
    requires Counted(lim, st) && VerifyReferenced(sch, b, k, q, lim, st).ok && fuel + st.depth >= lim.maxDepth
    ensures ValWithin(ReadReferenced(sch, b, k, q, fuel), lim, st, VerifyReferenced(sch, b, k, q, lim, st).st)
    decreases Room(b, q), 5, 0
  {
    hide SchemaOk, ScalarInRange, FromLE;
    match k
    case KString => StringReads(b, q);
    case KStrings =>
      ReadInRange(b, q, 4);
      StringsRead(b, q, 0, Length(b, q));
    case KScalars(s) =>
      ReadInRange(b, q, 4);
      ScalarsRead(b, q, s, 0, Length(b, q));
    case KTable(t) => TableSound(sch, b, t, q, lim, st, fuel);
    case KTables(t) =>
      ReadInRange(b, q, 4);
      TablesSound(sch, b, t, q, 0, Length(b, q), lim, st, fuel);
  }

  lemma {:induction false} TablesSound(sch: Schema, b: seq<byte>, t: nat, vec: nat, i: nat, n: nat,
                                       lim: Limits, st: Counters, fuel: nat)
    requires |b| < MAX_BUFFER_SIZE && SchemaOk(sch) && t < |sch|
    requires i <= n && vec + 4 + 4 * n <= |b|
    requires Shallow(b, vec, st.depth)
    requires Counted(lim, st) && VerifyTables(sch, b, t, vec, i, n, lim, st).ok && fuel + st.depth >= lim.maxDepth
    ensures TreesWithin(ReadTables(sch, b, t, vec, i, n, fuel), lim, st, VerifyTables(sch, b, t, vec, i, n, lim, st).st)
    decreases Room(b, vec), 1, 0, n - i
  {
    hide SchemaOk;
    if i < n {
      var r := VerifyTable(sch, b, t, Element(b, vec, i), lim, st);
      ElementReads(b, vec, i);
      TableSound(sch, b, t, Element(b, vec, i), lim, st, fuel);
      TablesSound(sch, b, t, vec, i + 1, n, lim, r.st, fuel);
      var ts := ReadTables(sch, b, t, vec, i, n, fuel);
      assert ts.value[1..] == ReadTables(sch, b, t, vec, i + 1, n, fuel).value;
    }
  }

  // Verification of a whole buffer: the root is found, and following every
  // accessor from it never leaves the buffer.
  lemma BufferSound(sch: Schema, b: seq<byte>, t: nat, sizePrefix: bool, identifier: seq<byte>, lim: Limits)
    requires |b| < MAX_BUFFER_SIZE && SchemaOk(sch) && t < |sch|
    requires VerifyBuffer(sch, b, t, sizePrefix, identifier, lim).ok
    ensures var pos := RootPos(b, if sizePrefix then 4 else 0);
      && pos.Some?
      && var tree := ReadTable(sch, b, t, pos.value, lim.maxDepth);
      tree.Some? && Depth(tree.value) <= lim.maxDepth && (lim.maxTables < MAX_32 ==> Count(tree.value) <= lim.maxTables)
  {
    hide ScalarInRange, SchemaOk, FromLE;
    var start := if sizePrefix then 4 else 0;
    var o := VerifyOffset(b, start);
    ReadInRange(b, start, 4);
    assert RootPos(b, start) == Some(start + o);
    TableSound(sch, b, t, start + o, lim, Zero, lim.maxDepth);
  }
}
