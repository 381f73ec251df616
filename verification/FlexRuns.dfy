// Runs of the FlexBuffers builder as a stack machine, and the machine on trees
// that it implements.
module FlexRuns {
  import opened Bits
  import opened Bytes
  import opened Ordering
  import opened Sorting
  import opened FlexWidth
  import opened FlexTypes
  import opened FlexReader
  import opened FlexSpec
  import opened FlexVectors

  datatype Op =
    | ONull
    | OBool(b: bool)
    | OInt(i: int)
    | OUInt(u: nat)
    | OIndirectInt(i: int)
    | OIndirectUInt(u: nat)
    | OKey(chars: seq<byte>)
    | OString(chars: seq<byte>)
    | OBlob(bytes: seq<byte>)
    | OScalars(typ: nat, bw: Width, elems: seq<int>, fixed: bool)
    | OVector(start: nat, typed: bool, fixed: bool)
    | OMap(start: nat)
    | OForce(bw: Width)

  // ----------------------------------------------------------- the builder

  function Images(elems: seq<int>): (r: seq<nat>)
    ensures |r| == |elems|
  {
    seq(|elems|, i requires 0 <= i < |elems| => Wrap(8, elems[i]))
  }

  // What the assertions of the builder, and the types of its arguments, ask.
  ghost predicate Legal(st: State, op: Op)
    requires Roomy(st)
  {
    match op
    case OInt(i) => Int64(i)
    case OUInt(u) => u < TWO_64
    case OIndirectInt(i) => Int64(i)
    case OIndirectUInt(u) => u < TWO_64
    case OKey(s) => |s| <= MAX_SIZE
    case OString(s) => |s| <= MAX_SIZE
    case OBlob(s) => |s| <= MAX_SIZE
    case OScalars(typ, bw, elems, fixed) =>
      && IsInline(typ) && IsTypedVectorElementType(typ)
      && |elems| <= MAX_SIZE && WidthU(|elems|) <= bw && (fixed ==> 2 <= |elems| <= 4)
    case OVector(start, typed, fixed) => start <= |st.stack| && TypedOk(st.stack[start..], typed, fixed)
    case OMap(start) =>
      && start <= |st.stack| && KeysFirst(st.stack[start..])
      && DistinctKeys(PairKey(st.buf), Pairs(st.stack[start..]))
      && |CreateKeys(st, start).0| <= MAX_SIZE
    case _ => true
  }

  function Step(st: State, op: Op): State
    requires Roomy(st) && PoolsTerminated(st) && Legal(st, op)
  {
    match op
    case ONull => Null(st)
    case OBool(b) => Bool(st, b)
    case OInt(i) => Int(st, i)
    case OUInt(u) => UInt(st, u)
    case OIndirectInt(i) => IndirectInt(st, i)
    case OIndirectUInt(u) => IndirectUInt(st, u)
    case OKey(s) => Key(st, s)
    case OString(s) => String(st, s)
    case OBlob(s) => Blob(st, s)
    case OScalars(typ, bw, elems, fixed) => ScalarVector(st, Images(elems), typ, bw, fixed)
    case OVector(start, typed, fixed) => EndVector(st, start, typed, fixed)
    case OMap(start) => EndMap(st, start)
    case OForce(bw) => st.(force := bw)
  }

  // --------------------------------------------------- the machine on trees

  function TypeOf(v: Tree): nat {
    match v
    case VNull => NULL_TYPE
    case VBool(_) => BOOL
    case VInt(_) => INT
    case VUInt(_) => UINT
    case VIndirectInt(_) => INDIRECT_INT
    case VIndirectUInt(_) => INDIRECT_UINT
    case VKey(_) => KEY
    case VString(_) => STRING
    case VBlob(_) => BLOB
    case VVector(_) => VECTOR
    case VTyped(t, _) => t
    case VMap(_, _) => MAP
  }

  // Types of typed vector elements that read back as they were written: no
  // strings, and in a vector of fixed length numbers only.
  predicate Decodable(t: nat, fixed: bool) {
    t == INT || t == UINT || (!fixed && (t == BOOL || t == KEY))
  }

  function ScalarTree(typ: nat, i: int): Tree {
    if typ == INT then VInt(i) else if typ == BOOL then VBool(i != 0) else if i >= 0 then VUInt(i) else VNull
  }

  function ScalarTrees(typ: nat, elems: seq<int>): (r: seq<Tree>)
    ensures |r| == |elems|
  {
    seq(|elems|, i requires 0 <= i < |elems| => ScalarTree(typ, elems[i]))
  }

  predicate ScalarIn(typ: nat, bw: Width, i: int) {
    if typ == INT then Int64(i) && IntFits(i, bw)
    else if typ == BOOL then 0 <= i <= 1
    else 0 <= i < Capacity(bw)
  }

  function TypedTree(es: seq<Tree>, fixed: bool): Tree {
    var t := if es == [] then KEY else TypeOf(es[0]);
    if IsTypedVectorElementType(t) && (fixed ==> 2 <= |es| <= 4)
    then VTyped(ToTypedVector(t, if fixed then |es| else 0), es)
    else VNull
  }

  datatype Entry = Entry(key: seq<byte>, val: Tree)

  predicate KeysFirstTrees(es: seq<Tree>) {
    |es| % 2 == 0 && forall k :: 0 <= k < |es| / 2 ==> es[2 * k].VKey?
  }

  function Entries(es: seq<Tree>): (r: seq<Entry>)
    requires KeysFirstTrees(es)
    ensures |r| == |es| / 2
  {
    seq(|es| / 2, k requires 0 <= k < |es| / 2 => Entry(es[2 * k].chars, es[2 * k + 1]))
  }

  function EntryKey(): Entry -> seq<byte> {
    (e: Entry) => e.key
  }

  function SortEntries(ps: seq<Entry>): (r: seq<Entry>)
    ensures |r| == |ps|
  {
    Sort(StringLessThan, EntryKey(), ps)
  }

  function MapTree(ps: seq<Entry>): Tree {
    VMap(seq(|ps|, i requires 0 <= i < |ps| => ps[i].key), seq(|ps|, i requires 0 <= i < |ps| => ps[i].val))
  }

  // What the interface and the format can represent: 64-bit numbers, NUL-free
  // keys, NUL-free shared strings, typed vectors whose type the reader
  // recognises, and maps with distinct keys.
  ghost predicate Expressible(ts: seq<Tree>, op: Op, shareStrings: bool) {
    match op
    case OInt(i) => Int64(i)
    case OUInt(u) => u < TWO_64
    case OIndirectInt(i) => Int64(i)
    case OIndirectUInt(u) => u < TWO_64
    case OKey(s) => NulFree(s)
    case OString(s) => shareStrings ==> NulFree(s)
    case OScalars(typ, bw, elems, fixed) =>
      && Decodable(typ, fixed) && typ != KEY && |elems| < Capacity(bw) && (fixed ==> 2 <= |elems| <= 4)
      && forall i :: 0 <= i < |elems| ==> ScalarIn(typ, bw, elems[i])
    case OVector(start, typed, fixed) =>
      && start <= |ts|
      && (fixed ==> typed && 2 <= |ts[start..]| <= 4)
      && (typed ==> forall i :: start <= i < |ts| ==> Decodable(TypeOf(ts[i]), fixed) && TypeOf(ts[i]) == TypeOf(ts[start]))
    case OMap(start) =>
      start <= |ts| && KeysFirstTrees(ts[start..]) && DistinctKeys(EntryKey(), Entries(ts[start..]))
    case _ => true
  }

  // One step on trees; it does not look at the buffer, the pools or the flags.
  function TreeStep(ts: seq<Tree>, op: Op): seq<Tree> {
    match op
    case ONull => ts + [VNull]
    case OBool(b) => ts + [VBool(b)]
    case OInt(i) => ts + [VInt(i)]
    case OUInt(u) => ts + [VUInt(u)]
    case OIndirectInt(i) => ts + [VIndirectInt(i)]
    case OIndirectUInt(u) => ts + [VIndirectUInt(u)]
    case OKey(s) => ts + [VKey(s)]
    case OString(s) => ts + [VString(s)]
    case OBlob(s) => ts + [VBlob(s)]
    case OScalars(typ, _, elems, fixed) =>
      ts + [if IsTypedVectorElementType(typ) && (fixed ==> 2 <= |elems| <= 4)
            then VTyped(ToTypedVector(typ, if fixed then |elems| else 0), ScalarTrees(typ, elems))
            else VNull]
    case OVector(start, typed, fixed) =>
      if start <= |ts| then ts[..start] + [if typed then TypedTree(ts[start..], fixed) else VVector(ts[start..])] else ts
    case OMap(start) =>
      if start <= |ts| && KeysFirstTrees(ts[start..])
      then ts[..start] + [MapTree(SortEntries(Entries(ts[start..])))]
      else ts
    case OForce(_) => ts
  }

  // ------------------------------------------------------------- invariant

  ghost predicate KeyPoolOk(buf: seq<byte>, pool: seq<nat>) {
    && KeysTerminated(buf, pool)
    && forall i, j :: 0 <= i < j < |pool| ==> CString(buf, pool[i]) != CString(buf, pool[j])
  }

  // A pooled string is stored with the width of its length.
  predicate PooledString(buf: seq<byte>, so: (nat, nat)) {
    && so.1 < TWO_64 && so.0 <= |buf|
    && Terminated(buf, so.0) && |CString(buf, so.0)| == so.1
    && BytesAt(buf, so.0, ByteWidth(WidthU(so.1)), CString(buf, so.0))
  }

  ghost predicate StringPoolOk(buf: seq<byte>, pool: seq<(nat, nat)>) {
    && (forall i :: 0 <= i < |pool| ==> PooledString(buf, pool[i]))
    && forall i, j :: 0 <= i < j < |pool| ==> CString(buf, pool[i].0) != CString(buf, pool[j].0)
  }

  ghost predicate Inv(st: State, ts: seq<Tree>) {
    && Roomy(st)
    && AllMean(st.buf, st.stack, ts)
    && KeyPoolOk(st.buf, st.keyPool)
    && StringPoolOk(st.buf, st.stringPool)
  }

  ghost predicate CanStep(st: State, ts: seq<Tree>, op: Op)
    requires Inv(st, ts)
  {
    Legal(st, op) && Expressible(ts, op, st.shareStrings) && Roomy(Step(st, op))
  }

  // What the address space must hold: the argument, the intermediate buffers
  // and the result.
  ghost predicate Memory(st: State, op: Op)
    requires Roomy(st) && PoolsTerminated(st)
  {
    && (op.OKey? ==> |op.chars| <= MAX_SIZE) && (op.OString? ==> |op.chars| <= MAX_SIZE)
    && (op.OBlob? ==> |op.bytes| <= MAX_SIZE) && (op.OScalars? ==> |op.elems| <= MAX_SIZE)
    && (op.OMap? && op.start <= |st.stack| && KeysFirst(st.stack[op.start..]) ==> |CreateKeys(st, op.start).0| <= MAX_SIZE)
    && (Legal(st, op) ==> Roomy(Step(st, op)))
  }
}
