// What each FlexBuffers builder call does to the buffer and the value stack.
module FlexSpec {
  import opened Bits
  import opened Bytes
  import opened Alignment
  import opened Ordering
  import opened Sorting
  import opened Options
  import opened FlexWidth
  import opened FlexTypes

  // ----------------------------------------------------------------- writing

  function AlignTo(buf: seq<byte>, bw: Width): seq<byte> {
    buf + Zeros(Padding(|buf|, ByteWidth(bw)))
  }

  function WriteScalar(buf: seq<byte>, bits: nat, bw: Width): seq<byte> {
    buf + ToLE(ByteWidth(bw), bits)
  }

  // Offsets are stored relative to where they are written.
  function WriteOffset(buf: seq<byte>, u: nat, bw: Width): seq<byte> {
    WriteScalar(buf, Wrap(8, |buf| - u), bw)
  }

  function WriteAny(buf: seq<byte>, v: Value, bw: Width): seq<byte> {
    if IsInline(v.typ) then WriteScalar(buf, v.bits, bw) else WriteOffset(buf, v.bits, bw)
  }

  function WriteFields(buf: seq<byte>, vals: seq<Value>, bw: Width): seq<byte> {
    if vals == [] then buf
    else WriteAny(WriteFields(buf, vals[..|vals| - 1], bw), vals[|vals| - 1], bw)
  }

  function TypeBytes(vals: seq<Value>, bw: Width): (s: seq<byte>)
    ensures |s| == |vals|
  {
    if vals == [] then []
    else TypeBytes(vals[..|vals| - 1], bw) + [StoredPackedType(vals[|vals| - 1], bw)]
  }

  // ------------------------------------------------------------------ vectors

  // The stack positions `start`, `start + step`, ... of a vector's elements.
  function Index(start: nat, step: nat, k: nat): nat
    requires step == 1 || step == 2
  {
    if step == 2 then start + 2 * k else start + k
  }

  function Strided(stack: seq<Value>, start: nat, step: nat): (vals: seq<Value>)
    requires step == 1 || step == 2
    ensures forall k :: 0 <= k < |vals| ==> Index(start, step, k) < |stack| && vals[k] == stack[Index(start, step, k)]
    ensures Index(start, step, |vals|) >= |stack|
  {
    var rest := if start < |stack| then |stack| - start else 0;
    seq(if step == 2 then (rest + 1) / 2 else rest,
        k requires 0 <= k && Index(start, step, k) < |stack| => stack[Index(start, step, k)])
  }

  // The index an estimate uses: the stack position past the prefix fields.
  function Slot(start: nat, step: nat, prefix: nat, k: nat): nat
    requires step == 1 || step == 2
  {
    Index(start, step, k) + prefix
  }

  // All offsets of the stack point into the buffer.
  predicate AllPlaced(vals: seq<Value>, size: nat) {
    forall i :: 0 <= i < |vals| ==> Placed(vals[i], size)
  }

  // The largest width among `base` and the estimates of the elements.
  function WidestElem(vals: seq<Value>, size: nat, start: nat, step: nat, prefix: nat, base: Width): Width
    requires (step == 1 || step == 2) && AllPlaced(vals, size)
    requires size <= MAX_SIZE && Slot(start, step, prefix, |vals|) <= MAX_SIZE / 8
  {
    if vals == [] then base
    else
      var n := |vals| - 1;
      MaxWidth(WidestElem(vals[..n], size, start, step, prefix, base),
               ElemWidth(vals[n], size, Slot(start, step, prefix, n)))
  }

  // A map puts the offset to its keys and their width before the size.
  function PrefixElems(keys: Option<Value>): nat {
    if keys.Some? then 3 else 1
  }

  function VectorWidth(size: nat, vals: seq<Value>, start: nat, step: nat, force: Width, keys: Option<Value>): Width
    requires (step == 1 || step == 2) && AllPlaced(vals, size) && (keys.Some? ==> Placed(keys.value, size))
    requires size <= MAX_SIZE && Slot(start, step, 3, |vals|) <= MAX_SIZE / 8
  {
    var base := MaxWidth(force, WidthU(|vals|));
    match keys
    case None => WidestElem(vals, size, start, step, 1, base)
    case Some(k) => WidestElem(vals, size, start, step, 3, MaxWidth(base, ElemWidth(k, size, 0)))
  }

  // The type of a typed vector comes from its first element.
  function ElementType(vals: seq<Value>): nat {
    if vals == [] then KEY else vals[0].typ
  }

  // What the assertions ask of a typed or fixed vector.
  predicate TypedOk(vals: seq<Value>, typed: bool, fixed: bool) {
    && (fixed ==> typed && 2 <= |vals| <= 4)
    && (typed ==> IsTypedVectorElementType(ElementType(vals)) && forall i :: 0 <= i < |vals| ==> vals[i].typ == vals[0].typ)
  }

  function VectorType(vals: seq<Value>, typed: bool, fixed: bool, keys: Option<Value>): nat
    requires TypedOk(vals, typed, fixed)
  {
    if keys.Some? then MAP
    else if typed then ToTypedVector(ElementType(vals), if fixed then |vals| else 0)
    else VECTOR
  }

  function WriteMapPrefix(buf: seq<byte>, keys: Option<Value>, bw: Width): seq<byte> {
    match keys
    case None => buf
    case Some(k) => WriteScalar(WriteOffset(buf, k.bits, bw), Shl(1, k.width), bw)
  }

  // The bytes before the elements: alignment, then what a map adds, then the size.
  function VectorHead(buf: seq<byte>, len: nat, fixed: bool, keys: Option<Value>, bw: Width): seq<byte> {
    var h := WriteMapPrefix(AlignTo(buf, bw), keys, bw);
    if fixed then h else WriteScalar(h, len, bw)
  }

  function CreateVector(buf: seq<byte>, vals: seq<Value>, typed: bool, fixed: bool, keys: Option<Value>, bw: Width)
    : (seq<byte>, Value)
    requires TypedOk(vals, typed, fixed)
  {
    var head := VectorHead(buf, |vals|, fixed, keys, bw);
    var body := WriteFields(head, vals, bw);
    (if typed then body else body + TypeBytes(vals, bw),
     Value(|head|, VectorType(vals, typed, fixed, keys), bw))
  }

  function CreateBlob(buf: seq<byte>, data: seq<byte>, trailing: seq<byte>, typ: nat): (seq<byte>, Value)
    requires |data| < TWO_64
  {
    var bw := WidthU(|data|);
    var head := WriteScalar(AlignTo(buf, bw), |data|, bw);
    (head + data + trailing, Value(|head|, typ, bw))
  }

  // ------------------------------------------------------------------ pooling

  // `std::set` finds an element that is neither less nor greater.
  predicate SameKey(buf: seq<byte>, a: nat, b: nat)
    requires Terminated(buf, a) && Terminated(buf, b)
  {
    !(StrCmp(buf, a, buf, b) < 0) && !(StrCmp(buf, b, buf, a) < 0)
  }

  predicate KeysTerminated(buf: seq<byte>, pool: seq<nat>) {
    forall i :: 0 <= i < |pool| ==> Terminated(buf, pool[i])
  }

  function FindKey(buf: seq<byte>, pool: seq<nat>, off: nat): Option<nat>
    requires KeysTerminated(buf, pool) && Terminated(buf, off)
  {
    if pool == [] then None
    else if SameKey(buf, pool[0], off) then Some(pool[0])
    else FindKey(buf, pool[1..], off)
  }

  // `strncmp`: at most `n` characters.
  function StrNCmp(m: seq<byte>, i: nat, j: nat, n: nat): int
    requires Terminated(m, i) && Terminated(m, j)
    decreases n
  {
    if n == 0 then 0
    else if m[i] != m[j] then m[i] - m[j]
    else if m[i] == 0 then 0
    else StrNCmp(m, i + 1, j + 1, n - 1)
  }

  function Min(a: nat, b: nat): nat {
    if a < b then a else b
  }

  predicate SameString(buf: seq<byte>, a: (nat, nat), b: (nat, nat))
    requires Terminated(buf, a.0) && Terminated(buf, b.0)
  {
    var n := Min(a.1, b.1) + 1;
    !(StrNCmp(buf, a.0, b.0, n) < 0) && !(StrNCmp(buf, b.0, a.0, n) < 0)
  }

  predicate StringsTerminated(buf: seq<byte>, pool: seq<(nat, nat)>) {
    forall i :: 0 <= i < |pool| ==> Terminated(buf, pool[i].0)
  }

  function FindString(buf: seq<byte>, pool: seq<(nat, nat)>, so: (nat, nat)): Option<(nat, nat)>
    requires StringsTerminated(buf, pool) && Terminated(buf, so.0)
  {
    if pool == [] then None
    else if SameString(buf, pool[0], so) then Some(pool[0])
    else FindString(buf, pool[1..], so)
  }

  // ------------------------------------------------------------------- builder

  datatype State = State(buf: seq<byte>, stack: seq<Value>, keyPool: seq<nat>, stringPool: seq<(nat, nat)>,
                         shareKeys: bool, shareStrings: bool, force: Width)

  function Initial(shareKeys: bool, shareStrings: bool): State {
    State([], [], [], [], shareKeys, shareStrings, 0)
  }

  function Push(st: State, v: Value): State {
    st.(stack := st.stack + [v])
  }

  function Null(st: State): State {
    Push(st, Value(0, NULL_TYPE, 0))
  }

  function Bool(st: State, b: bool): State {
    Push(st, Value(if b then 1 else 0, BOOL, 0))
  }

  function Int(st: State, i: int): State
    requires Int64(i)
  {
    Push(st, Value(Wrap(8, i), INT, WidthI(i)))
  }

  function UInt(st: State, u: nat): State
    requires u < TWO_64
  {
    Push(st, Value(u, UINT, WidthU(u)))
  }

  function PushIndirect(st: State, bits: nat, typ: nat, bw: Width): State {
    var buf := AlignTo(st.buf, bw);
    Push(st.(buf := WriteScalar(buf, bits, bw)), Value(|buf|, typ, bw))
  }

  function IndirectInt(st: State, i: int): State
    requires Int64(i)
  {
    PushIndirect(st, Wrap(8, i), INDIRECT_INT, WidthI(i))
  }

  function IndirectUInt(st: State, u: nat): State
    requires u < TWO_64
  {
    PushIndirect(st, u, INDIRECT_UINT, WidthU(u))
  }

  predicate PoolsTerminated(st: State) {
    KeysTerminated(st.buf, st.keyPool) && StringsTerminated(st.buf, st.stringPool)
  }

  lemma PoolsStayTerminated(st: State, buf: seq<byte>)
    requires PoolsTerminated(st) && st.buf <= buf
    ensures KeysTerminated(buf, st.keyPool) && StringsTerminated(buf, st.stringPool)
  {
    forall i | 0 <= i < |st.keyPool| ensures Terminated(buf, st.keyPool[i]) {
      TerminatedStable(st.buf, buf, st.keyPool[i]);
    }
    forall i | 0 <= i < |st.stringPool| ensures Terminated(buf, st.stringPool[i].0) {
      TerminatedStable(st.buf, buf, st.stringPool[i].0);
    }
  }

  lemma TerminatedStable(a: seq<byte>, b: seq<byte>, i: nat)
    requires Terminated(a, i) && a <= b
    ensures Terminated(b, i)
  {
    var k :| i <= k < |a| && a[k] == 0;
    assert b[k] == 0;
  }

  lemma EndsTerminated(buf: seq<byte>, s: seq<byte>)
    ensures Terminated(buf + s + [0], |buf|)
  {
    assert (buf + s + [0])[|buf| + |s|] == 0;
  }

  // Write the key, look it up, and drop it again if it was already there.
  function Key(st: State, s: seq<byte>): State
    requires PoolsTerminated(st)
  {
    var sloc := |st.buf|;
    var buf := st.buf + s + [0];
    if st.shareKeys then
      PoolsStayTerminated(st, buf); EndsTerminated(st.buf, s);
      match FindKey(buf, st.keyPool, sloc)
      case Some(known) => Push(st, Value(known, KEY, 0))
      case None => Push(st.(buf := buf, keyPool := st.keyPool + [sloc]), Value(sloc, KEY, 0))
    else Push(st.(buf := buf), Value(sloc, KEY, 0))
  }

  lemma BlobTerminated(buf: seq<byte>, s: seq<byte>, typ: nat)
    requires |s| < TWO_64
    ensures var (b, v) := CreateBlob(buf, s, [0], typ); buf <= b && Terminated(b, v.bits)
  {
    var bw := WidthU(|s|);
    EndsTerminated(WriteScalar(AlignTo(buf, bw), |s|, bw), s);
  }

  function String(st: State, s: seq<byte>): State
    requires PoolsTerminated(st) && |s| < TWO_64
  {
    var (buf, v) := CreateBlob(st.buf, s, [0], STRING);
    if st.shareStrings then
      var so := (v.bits, |s|);
      BlobTerminated(st.buf, s, STRING); PoolsStayTerminated(st, buf);
      match FindString(buf, st.stringPool, so)
      case Some(known) => Push(st, v.(bits := known.0))
      case None => Push(st.(buf := buf, stringPool := st.stringPool + [so]), v)
    else Push(st.(buf := buf), v)
  }

  function Blob(st: State, s: seq<byte>): State
    requires |s| < TWO_64
  {
    var (buf, v) := CreateBlob(st.buf, s, [], BLOB);
    Push(st.(buf := buf), v)
  }

  // The address space bounds the buffer and the stack.
  predicate Roomy(st: State) {
    |st.buf| <= MAX_SIZE && |st.stack| + 8 <= MAX_SIZE / 8 && AllPlaced(st.stack, |st.buf|)
  }

  function EndVector(st: State, start: nat, typed: bool, fixed: bool): State
    requires Roomy(st) && start <= |st.stack| && TypedOk(st.stack[start..], typed, fixed)
  {
    var vals := st.stack[start..];
    var bw := VectorWidth(|st.buf|, vals, start, 1, st.force, None);
    var (buf, vec) := CreateVector(st.buf, vals, typed, fixed, None, bw);
    st.(buf := buf, stack := st.stack[..start] + [vec])
  }

  function ScalarValues(elems: seq<nat>, typ: nat, bw: Width): (vals: seq<Value>)
    ensures |vals| == |elems|
  {
    seq(|elems|, i requires 0 <= i < |elems| => Value(elems[i], typ, bw))
  }

  // A vector of scalars that all keep the width of their C++ type.
  function ScalarVector(st: State, elems: seq<nat>, typ: nat, bw: Width, fixed: bool): State
    requires IsInline(typ) && IsTypedVectorElementType(typ) && (fixed ==> 2 <= |elems| <= 4)
  {
    var head := VectorHead(st.buf, |elems|, fixed, None, bw);
    Push(st.(buf := WriteFields(head, ScalarValues(elems, typ, bw), bw)),
         Value(|head|, ToTypedVector(typ, if fixed then |elems| else 0), bw))
  }

  // ------------------------------------------------------------------- maps

  datatype TwoValue = TwoValue(key: Value, val: Value)

  function Pairs(vals: seq<Value>): (ps: seq<TwoValue>)
    requires |vals| % 2 == 0
    ensures |ps| == |vals| / 2
  {
    seq(|vals| / 2, k requires 0 <= k < |vals| / 2 => TwoValue(vals[2 * k], vals[2 * k + 1]))
  }

  function KeyText(buf: seq<byte>, o: nat): seq<byte> {
    if Terminated(buf, o) then CString(buf, o) else []
  }

  function PairKey(buf: seq<byte>): TwoValue -> seq<byte> {
    (p: TwoValue) => KeyText(buf, p.key.bits)
  }

  // Sort the pairs by the text of their keys.
  function SortPairs(buf: seq<byte>, ps: seq<TwoValue>): (r: seq<TwoValue>)
    ensures |r| == |ps|
  {
    Sort(StringLessThan, PairKey(buf), ps)
  }

  // The pairs as they lie on the stack.
  function Flatten(ps: seq<TwoValue>): (vals: seq<Value>)
    ensures |vals| == 2 * |ps|
  {
    seq(2 * |ps|, i requires 0 <= i < 2 * |ps| => if i % 2 == 0 then ps[i / 2].key else ps[i / 2].val)
  }

  function KeysOf(ps: seq<TwoValue>): seq<Value> {
    seq(|ps|, k requires 0 <= k < |ps| => ps[k].key)
  }

  function ValsOf(ps: seq<TwoValue>): seq<Value> {
    seq(|ps|, k requires 0 <= k < |ps| => ps[k].val)
  }

  predicate KeysFirst(vals: seq<Value>) {
    |vals| % 2 == 0 && forall k :: 0 <= k < |vals| / 2 ==> vals[2 * k].typ == KEY
  }

  lemma {:induction false} SortedPairsFrom(buf: seq<byte>, ps: seq<TwoValue>)
    ensures forall p :: p in SortPairs(buf, ps) ==> p in ps
  {
    forall p | p in SortPairs(buf, ps) ensures p in ps {
      SortMembers(StringLessThan, PairKey(buf), ps, p);
    }
  }

  // Two vectors: all keys, then all values, the second with an offset to the first.
  function EndMap(st: State, start: nat): State
    requires Roomy(st) && start <= |st.stack| && KeysFirst(st.stack[start..])
    requires |CreateKeys(st, start).0| <= MAX_SIZE
  {
    var ps := SortPairs(st.buf, Pairs(st.stack[start..]));
    var (buf1, keys) := CreateKeys(st, start);
    MapPlaced(st, start);
    var bw := VectorWidth(|buf1|, ValsOf(ps), start + 1, 2, st.force, Some(keys));
    var (buf2, vec) := CreateVector(buf1, ValsOf(ps), false, false, Some(keys), bw);
    st.(buf := buf2, stack := st.stack[..start] + [vec])
  }

  function CreateKeys(st: State, start: nat): (seq<byte>, Value)
    requires Roomy(st) && start <= |st.stack| && KeysFirst(st.stack[start..])
  {
    var ps := SortPairs(st.buf, Pairs(st.stack[start..]));
    PairsPlaced(st, start);
    var bw := VectorWidth(|st.buf|, KeysOf(ps), start, 2, st.force, None);
    CreateVector(st.buf, KeysOf(ps), true, false, None, bw)
  }

  lemma PairsPlaced(st: State, start: nat)
    requires Roomy(st) && start <= |st.stack| && KeysFirst(st.stack[start..])
    ensures var ps := SortPairs(st.buf, Pairs(st.stack[start..]));
      && AllPlaced(KeysOf(ps), |st.buf|) && AllPlaced(ValsOf(ps), |st.buf|)
      && TypedOk(KeysOf(ps), true, false) && ElementType(KeysOf(ps)) == KEY
      && start + 2 * |ps| == |st.stack|
  {
    var vals := st.stack[start..];
    var ps := SortPairs(st.buf, Pairs(vals));
    SortedPairsFrom(st.buf, Pairs(vals));
    forall k | 0 <= k < |ps|
      ensures Placed(ps[k].key, |st.buf|) && Placed(ps[k].val, |st.buf|) && ps[k].key.typ == KEY
    {
      assert ps[k] in Pairs(vals);
    }
  }

  lemma MapPlaced(st: State, start: nat)
    requires Roomy(st) && start <= |st.stack| && KeysFirst(st.stack[start..])
    ensures var ps := SortPairs(st.buf, Pairs(st.stack[start..]));
      var (buf1, keys) := CreateKeys(st, start);
      && AllPlaced(ValsOf(ps), |buf1|) && Placed(keys, |buf1|) && keys.typ == VECTOR_KEY
      && |st.buf| <= |buf1|
      && start + 2 * |ps| == |st.stack|
  {
    PairsPlaced(st, start);
    var ps := SortPairs(st.buf, Pairs(st.stack[start..]));
    var bw := VectorWidth(|st.buf|, KeysOf(ps), start, 2, st.force, None);
    FieldsExtend(VectorHead(st.buf, |ps|, false, None, bw), KeysOf(ps), bw);
  }

  lemma {:induction false} FieldsExtend(buf: seq<byte>, vals: seq<Value>, bw: Width)
    ensures buf <= WriteFields(buf, vals, bw)
  {
    if vals != [] {
      FieldsExtend(buf, vals[..|vals| - 1], bw);
    }
  }

  // ------------------------------------------------------------------ finish

  function Finish(st: State): seq<byte>
    requires Roomy(st) && |st.stack| == 1
  {
    var v := st.stack[0];
    var bw := ElemWidth(v, |st.buf|, 0);
    WriteAny(AlignTo(st.buf, bw), v, bw) + [StoredPackedType(v, 0), ByteWidth(bw)]
  }
}
