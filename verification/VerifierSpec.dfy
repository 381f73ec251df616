// The buffer verifier as a function: range and alignment checks on untyped
// bytes, and the depth and table counters threaded through the generated
// `Verify` chains.  Alignment checking is on.
module VerifierSpec {
  import opened Bits
  import opened Bytes
  import opened Options
  import opened Reader

  // The counters and their limits are 32 bits wide.
  type uint32 = n: nat | n < TWO_32

  const MAX_32: uint32 := TWO_32 - 1

  function Next(n: uint32): uint32 {
    if n == MAX_32 then 0 else n + 1
  }

  function Previous(n: uint32): uint32 {
    if n == 0 then MAX_32 else n - 1
  }

  datatype Limits = Limits(maxDepth: uint32, maxTables: uint32)

  // The counters; `started` is the true number of table starts let through, and
  // `deepest` the greatest depth at which one was.
  datatype Counters = Counters(depth: uint32, tables: uint32, started: nat, deepest: nat)

  const Zero: Counters := Counters(0, 0, 0, 0)

  datatype Outcome = Outcome(ok: bool, st: Counters)

  // Any range within the buffer.
  predicate InRange(b: seq<byte>, elem: nat, len: nat) {
    len < |b| && elem <= |b| - len
  }

  predicate AlignedTo(elem: nat, s: nat)
    requires s > 0
  {
    And(elem, s - 1) == 0
  }

  predicate ScalarInRange(b: seq<byte>, elem: nat, s: nat)
    requires s > 0
  {
    AlignedTo(elem, s) && InRange(b, elem, s)
  }

  lemma ZeroAligned(s: nat)
    requires s > 0
    ensures AlignedTo(0, s)
  {
  }

  function U(b: seq<byte>, p: nat, n: nat): nat
    requires p + n <= |b|
  {
    FromLE(b[p..p + n])
  }

  // The offset stored at `start`, or zero if it cannot be followed.
  function VerifyOffset(b: seq<byte>, start: nat): (o: nat)
    ensures o != 0 ==> InRange(b, start, 4) && o == U(b, start, 4) && start + o < |b|
  {
    if !ScalarInRange(b, start, 4) then 0
    else
      var o := U(b, start, 4);
      if o == 0 || o >= 0x8000_0000 || !InRange(b, start + o, 1) then 0 else o
  }

  // The end of a vector whose length and elements are in range, or zero.
  function VerifyVectorOrString(b: seq<byte>, veco: nat, elemSize: nat): (end: nat)
    requires elemSize > 0
    ensures end != 0 ==> InRange(b, veco, 4) && end == veco + 4 + elemSize * U(b, veco, 4) && end <= |b|
  {
    if !ScalarInRange(b, veco, 4) then 0
    else
      var size := U(b, veco, 4);
      if size >= MAX_BUFFER_SIZE / elemSize then 0
      else if InRange(b, veco, 4 + elemSize * size) then veco + 4 + elemSize * size
      else 0
  }

  predicate VerifyVector(b: seq<byte>, veco: nat, elemSize: nat)
    requires elemSize > 0
  {
    VerifyVectorOrString(b, veco, elemSize) != 0
  }

  predicate VerifyString(b: seq<byte>, str: nat) {
    var end := VerifyVectorOrString(b, str, 1);
    end != 0 && InRange(b, end, 1) && b[end] == 0
  }

  // Element `i` of a vector of offsets that passed `VerifyVector`.
  function Element(b: seq<byte>, vec: nat, i: nat): nat
    requires vec + 4 + 4 * i + 4 <= |b|
  {
    vec + 4 + 4 * i + U(b, vec + 4 + 4 * i, 4)
  }

  predicate VerifyStringsFrom(b: seq<byte>, vec: nat, i: nat, n: nat)
    requires i <= n && vec + 4 + 4 * n <= |b|
    decreases n - i
  {
    i == n || (VerifyString(b, Element(b, vec, i)) && VerifyStringsFrom(b, vec, i + 1, n))
  }

  function Length(b: seq<byte>, vec: nat): nat
    requires vec + 4 <= |b|
  {
    U(b, vec, 4)
  }

  // Enough of a table is in range for every field to be looked up.
  predicate TableReadable(b: seq<byte>, p: nat) {
    && ReadSOffset(b, p).Some?
    && var vtable := p - ReadSOffset(b, p).value;
    && 0 <= vtable && vtable + 2 <= |b|
    && U(b, vtable, 2) % 2 == 0
    && vtable + U(b, vtable, 2) <= |b|
  }

  // Subtraction of a signed offset in 64-bit unsigned arithmetic.
  function VTablePos(b: seq<byte>, p: nat): nat
    requires ReadSOffset(b, p).Some?
  {
    (p - ReadSOffset(b, p).value) % TWO_64
  }

  function VerifyComplexity(lim: Limits, st: Counters): Outcome {
    var depth, tables := Next(st.depth), Next(st.tables);
    if depth <= lim.maxDepth && tables <= lim.maxTables
    then Outcome(true, st.(depth := depth, tables := tables))
    else Outcome(false, st.(depth := depth, tables := tables))
  }

  function VerifyTableStart(b: seq<byte>, p: nat, lim: Limits, st: Counters): (r: Outcome)
    ensures r.ok ==> r.st == Counters(Next(st.depth), Next(st.tables), st.started + 1, Max(st.deepest, Next(st.depth)))
    ensures r.ok ==> r.st.depth <= lim.maxDepth && r.st.tables <= lim.maxTables
  {
    if !ScalarInRange(b, p, 4) then Outcome(false, st)
    else
      var vtable := VTablePos(b, p);
      var c := VerifyComplexity(lim, st);
      if !c.ok then c
      else if ScalarInRange(b, vtable, 2) && AlignedTo(U(b, vtable, 2), 2) && InRange(b, vtable, U(b, vtable, 2))
      then Outcome(true, c.st.(started := c.st.started + 1, deepest := Max(c.st.deepest, c.st.depth)))
      else Outcome(false, c.st)
  }

  lemma WrapInRange(x: int)
    requires -0x1_0000_0000 <= x < 0x2_0000_0000
    ensures x >= 0 ==> x % TWO_64 == x
    ensures x < 0 ==> x % TWO_64 > MAX_BUFFER_SIZE
  {
    if x < 0 {
      DivModUnique(x, TWO_64, -1, x + TWO_64);
    }
  }

  lemma ReadSOffsetBound(b: seq<byte>, p: int)
    requires ReadSOffset(b, p).Some?
    ensures -0x8000_0000 <= ReadSOffset(b, p).value < 0x8000_0000
  {
    RangeAt();
    FromLEBound(b[p..p + 4]);
  }

  lemma EvenMask(n: nat)
    ensures AlignedTo(n, 2) <==> n % 2 == 0
  {
    assert Pow2(1) == 2;
    AndLowMask(n, 1);
  }

  // A table start that is let through makes every field lookup safe: the even
  // vtable size is what keeps the last entry inside.
  lemma StartMakesReadable(b: seq<byte>, p: nat, lim: Limits, st: Counters)
    requires |b| < MAX_BUFFER_SIZE && VerifyTableStart(b, p, lim, st).ok
    ensures TableReadable(b, p)
    ensures VTablePos(b, p) == p - ReadSOffset(b, p).value
  {
    hide FromLE, And;
    ReadSOffsetBound(b, p);
    WrapInRange(p - ReadSOffset(b, p).value);
    EvenMask(U(b, VTablePos(b, p), 2));
  }

  // An entry that starts inside a vtable of even size ends inside it.
  lemma EvenEntry(f: nat, size: nat)
    requires f % 2 == 0 && size % 2 == 0
    ensures f < size ==> f + 2 <= size
  {
    var d := size / 2 - f / 2;
    assert size - f == 2 * d;
  }

  // The entry of an even field, read without leaving the buffer.
  function Entry(b: seq<byte>, p: nat, f: nat): (e: nat)
    requires TableReadable(b, p) && f % 2 == 0
    ensures FieldOffset(b, p, f) == Some(e)
  {
    hide FromLE;
    EvenEntry(f, U(b, p - ReadSOffset(b, p).value, 2));
    FieldOffset(b, p, f).value
  }

  // Where a reference field points.
  function Target(b: seq<byte>, at: nat): nat
    requires at + 4 <= |b|
  {
    at + U(b, at, 4)
  }

  // References lead forward, so this much of the buffer is left for what a
  // table refers to.
  function Room(b: seq<byte>, p: nat): nat {
    if p < |b| then |b| - p else 0
  }

  // The depth leaves room for every table that can still be nested, so the
  // depth counter never wraps: a table of `p` has counted itself already.
  predicate Shallow(b: seq<byte>, p: nat, depth: nat) {
    depth + Room(b, p) <= MAX_BUFFER_SIZE
  }

  // Any smaller limit on the number of tables stops the count before it wraps.
  predicate Counts(lim: Limits) {
    lim.maxTables < MAX_32
  }

  // Counters within the limits, after at least as many nested starts as now.
  predicate Counted(lim: Limits, st: Counters) {
    st.depth <= lim.maxDepth && st.depth <= st.deepest && (Counts(lim) ==> st.tables <= lim.maxTables)
  }

  // ------------------------------------------------------ generated chains

  function VerifyTable(sch: Schema, b: seq<byte>, t: nat, p: nat, lim: Limits, st: Counters): (r: Outcome)
    requires |b| < MAX_BUFFER_SIZE && SchemaOk(sch) && t < |sch|
    ensures r.ok ==> r.st.depth == st.depth
    decreases Room(b, p), 4, 0
  {
    var s := VerifyTableStart(b, p, lim, st);
    if !s.ok then s
    else
      StartMakesReadable(b, p, lim, st);
      var f := VerifyFields(sch, b, sch[t], p, lim, s.st);
      if !f.ok then f else Outcome(true, f.st.(depth := Previous(f.st.depth)))
  }

  function VerifyFields(sch: Schema, b: seq<byte>, fs: seq<FieldSpec>, p: nat, lim: Limits, st: Counters): (r: Outcome)
    requires |b| < MAX_BUFFER_SIZE && SchemaOk(sch) && SpecsOk(sch, fs) && TableReadable(b, p)
    ensures r.ok ==> r.st.depth == st.depth
    decreases Room(b, p), 3, |fs|
  {
    if fs == [] then Outcome(true, st)
    else
      var f := VerifyFieldVal(sch, b, fs[0], p, lim, st);
      if !f.ok then f else VerifyFields(sch, b, fs[1..], p, lim, f.st)
  }

  function VerifyFieldVal(sch: Schema, b: seq<byte>, f: FieldSpec, p: nat, lim: Limits, st: Counters): (r: Outcome)
    requires |b| < MAX_BUFFER_SIZE && SchemaOk(sch) && SpecOk(sch, f) && TableReadable(b, p)
    ensures r.ok ==> r.st.depth == st.depth
    decreases Room(b, p), 2, 0
  {
    var e := Entry(b, p, f.id);
    if f.kind.KScalar? then Outcome(e == 0 || InRange(b, p + e, f.kind.size), st)
    else if e == 0 then Outcome(!f.required, st)
    else if VerifyOffset(b, p + e) == 0 then Outcome(false, st)
    else VerifyReferenced(sch, b, f.kind, Target(b, p + e), lim, st)
  }

  function VerifyReferenced(sch: Schema, b: seq<byte>, k: Kind, q: nat, lim: Limits, st: Counters): (r: Outcome)
    requires |b| < MAX_BUFFER_SIZE && SchemaOk(sch) && KindOk(sch, k) && !k.KScalar?
    ensures r.ok ==> r.st.depth == st.depth
    decreases Room(b, q), 5, 0
  {
    match k
    case KString => Outcome(VerifyString(b, q), st)
    case KStrings => Outcome(VerifyVector(b, q, 4) && VerifyStringsFrom(b, q, 0, Length(b, q)), st)
    case KScalars(s) => Outcome(VerifyVector(b, q, s), st)
    case KTable(t) => VerifyTable(sch, b, t, q, lim, st)
    case KTables(t) =>
      if VerifyVector(b, q, 4) then VerifyTables(sch, b, t, q, 0, Length(b, q), lim, st) else Outcome(false, st)
  }

  function VerifyTables(sch: Schema, b: seq<byte>, t: nat, vec: nat, i: nat, n: nat, lim: Limits, st: Counters): (r: Outcome)
    requires |b| < MAX_BUFFER_SIZE && SchemaOk(sch) && t < |sch|
    requires i <= n && vec + 4 + 4 * n <= |b|
    ensures r.ok ==> r.st.depth == st.depth
    decreases Room(b, vec), 1, 0, n - i
  {
    if i == n then Outcome(true, st)
    else
      var r := VerifyTable(sch, b, t, Element(b, vec, i), lim, st);
      if !r.ok then r else VerifyTables(sch, b, t, vec, i + 1, n, lim, r.st)
  }

  // BufferHasIdentifier: four bytes after the root offset.
  predicate HasIdentifier(b: seq<byte>, start: nat, identifier: seq<byte>) {
    start + 8 <= |b| && b[start + 4..start + 8] == identifier
  }

  function VerifyBufferFromStart(sch: Schema, b: seq<byte>, t: nat, start: nat, identifier: seq<byte>, lim: Limits): Outcome
    requires |b| < MAX_BUFFER_SIZE && SchemaOk(sch) && t < |sch|
  {
    if identifier != [] && !HasIdentifier(b, start, identifier) then Outcome(false, Zero)
    else
      var o := VerifyOffset(b, start);
      if o == 0 then Outcome(false, Zero) else VerifyTable(sch, b, t, start + o, lim, Zero)
  }

  // VerifyBufferFromStart as written: it asks for eight bytes from the beginning
  // of the buffer and then compares those behind `start`, so that behind a size
  // prefix the comparison may read the memory that follows the buffer.
  function CheckedFromStart(sch: Schema, b: seq<byte>, behind: seq<byte>, t: nat, start: nat, identifier: seq<byte>, lim: Limits): Outcome
    requires |b| < MAX_BUFFER_SIZE && SchemaOk(sch) && t < |sch|
  {
    if identifier != [] && (|b| < 8 || !HasIdentifier(b + behind, start, identifier)) then Outcome(false, Zero)
    else
      var o := VerifyOffset(b, start);
      if o == 0 then Outcome(false, Zero) else VerifyTable(sch, b, t, start + o, lim, Zero)
  }

  // What lies there makes no difference: a buffer with a size prefix and no room
  // for an identifier has no room for a root table either.
  lemma BehindIsIgnored(sch: Schema, b: seq<byte>, behind: seq<byte>, t: nat, start: nat, identifier: seq<byte>, lim: Limits)
    requires |b| < MAX_BUFFER_SIZE && SchemaOk(sch) && t < |sch| && (start == 0 || start == 4) && |behind| >= 4
    ensures CheckedFromStart(sch, b, behind, t, start, identifier, lim) == VerifyBufferFromStart(sch, b, t, start, identifier, lim)
  {
    hide SchemaOk, FromLE;
    if start + 8 <= |b| {
      assert (b + behind)[start + 4..start + 8] == b[start + 4..start + 8];
    } else if start == 4 && VerifyOffset(b, start) != 0 {
      hide VerifyOffset;
      NoRoomForRoot(sch, b, t, start + VerifyOffset(b, start), lim);
    }
  }

  lemma NoRoomForRoot(sch: Schema, b: seq<byte>, t: nat, p: nat, lim: Limits)
    requires |b| < MAX_BUFFER_SIZE && SchemaOk(sch) && t < |sch| && |b| < 12 && p > 4
    ensures VerifyTable(sch, b, t, p, lim, Zero) == Outcome(false, Zero)
  {
    hide SchemaOk;
    assert Pow2(2) == 4;
    AndLowMask(p, 2);
    assert p % 4 != 0 || p >= 8;
    hide And;
  }

  // The size prefix is the length of what follows it.
  predicate PrefixOk(b: seq<byte>) {
    ScalarInRange(b, 0, 4) && U(b, 0, 4) == |b| - 4
  }

  // VerifyBuffer and VerifySizePrefixedBuffer; no identifier is an empty one.
  function VerifyBuffer(sch: Schema, b: seq<byte>, t: nat, sizePrefix: bool, identifier: seq<byte>, lim: Limits): Outcome
    requires |b| < MAX_BUFFER_SIZE && SchemaOk(sch) && t < |sch|
  {
    if !sizePrefix then VerifyBufferFromStart(sch, b, t, 0, identifier, lim)
    else if PrefixOk(b) then VerifyBufferFromStart(sch, b, t, 4, identifier, lim)
    else Outcome(false, Zero)
  }
}
