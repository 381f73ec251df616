// Schemas, the values they describe, and the table and vector accessors.
module Reader {
  import opened Bits
  import opened Bytes
  import opened Options

  // What the code generator knows of a field: its vtable offset and its type.
  datatype Kind =
    | KScalar(size: nat, def: nat)
    | KString
    | KStrings
    | KScalars(size: nat)
    | KTable(table: nat)
    | KTables(table: nat)

  datatype FieldSpec = FieldSpec(id: nat, kind: Kind, required: bool)

  // A table type is a position in the schema; its fields come in declaration order.
  type Schema = seq<seq<FieldSpec>>

  predicate KindOk(sch: Schema, k: Kind) {
    match k
    case KScalar(s, def) => (s == 1 || s == 2 || s == 4 || s == 8) && def < Range(s)
    case KScalars(s) => s == 1 || s == 2 || s == 4 || s == 8
    case KTable(t) => t < |sch|
    case KTables(t) => t < |sch|
    case _ => true
  }

  predicate SpecOk(sch: Schema, f: FieldSpec) {
    4 <= f.id <= 0xFFFC && f.id % 2 == 0 && KindOk(sch, f.kind) && (f.kind.KScalar? ==> !f.required)
  }

  predicate SpecsOk(sch: Schema, fs: seq<FieldSpec>) {
    forall i :: 0 <= i < |fs| ==> SpecOk(sch, fs[i])
  }

  predicate SchemaOk(sch: Schema) {
    forall t :: 0 <= t < |sch| ==> SpecsOk(sch, sch[t])
  }

  // The tree a buffer stands for: one value per declared field.
  datatype Tree = Node(vals: seq<Val>)

  datatype Val =
    | VScalar(value: nat)
    | VNull
    | VString(chars: seq<byte>)
    | VStrings(strings: seq<seq<byte>>)
    | VScalars(values: seq<nat>)
    | VTable(tree: Tree)
    | VTables(trees: seq<Tree>)

  // ------------------------------------------------ depth and table count

  function Depth(t: Tree): (n: nat)
    ensures n > 0
  {
    1 + DepthVals(t.vals)
  }

  function DepthVals(vs: seq<Val>): nat {
    if vs == [] then 0 else Max(DepthVal(vs[0]), DepthVals(vs[1..]))
  }

  function DepthVal(v: Val): nat {
    match v
    case VTable(t) => Depth(t)
    case VTables(ts) => DepthTrees(ts)
    case _ => 0
  }

  function DepthTrees(ts: seq<Tree>): nat {
    if ts == [] then 0 else Max(Depth(ts[0]), DepthTrees(ts[1..]))
  }

  function Count(t: Tree): (n: nat)
    ensures n > 0
  {
    1 + CountVals(t.vals)
  }

  function CountVals(vs: seq<Val>): nat {
    if vs == [] then 0 else CountVal(vs[0]) + CountVals(vs[1..])
  }

  function CountVal(v: Val): nat {
    match v
    case VTable(t) => Count(t)
    case VTables(ts) => CountTrees(ts)
    case _ => 0
  }

  function CountTrees(ts: seq<Tree>): nat {
    if ts == [] then 0 else Count(ts[0]) + CountTrees(ts[1..])
  }

  lemma ConsVals(v: Val, vs: seq<Val>)
    ensures DepthVals([v] + vs) == Max(DepthVal(v), DepthVals(vs))
    ensures CountVals([v] + vs) == CountVal(v) + CountVals(vs)
  {
    assert ([v] + vs)[1..] == vs;
  }

  lemma ConsTrees(t: Tree, ts: seq<Tree>)
    ensures DepthTrees([t] + ts) == Max(Depth(t), DepthTrees(ts))
    ensures CountTrees([t] + ts) == Count(t) + CountTrees(ts)
  {
    assert ([t] + ts)[1..] == ts;
  }

  // -------------------------------------------------------------- accessors
  // Positions count from the start of the buffer.  `None` means that the
  // accessor would touch a byte outside the buffer.

  function ReadU(b: seq<byte>, p: int, n: nat): Option<nat> {
    if 0 <= p && p + n <= |b| then Some(FromLE(b[p..p + n])) else None
  }

  function ReadSOffset(b: seq<byte>, p: int): Option<int> {
    var u :- ReadU(b, p, 4);
    if u < 0x8000_0000 then Some(u) else Some(u - TWO_32)
  }

  // GetOptionalFieldOffset: zero when the field is absent.
  function FieldOffset(b: seq<byte>, p: int, f: nat): Option<nat> {
    var soffset :- ReadSOffset(b, p);
    var vtable := p - soffset;
    var vtsize :- ReadU(b, vtable, 2);
    if f < vtsize then ReadU(b, vtable + f, 2) else Some(0)
  }

  function GetField(b: seq<byte>, p: int, f: nat, s: nat, def: nat): Option<nat> {
    var o :- FieldOffset(b, p, f);
    if o != 0 then ReadU(b, p + o, s) else Some(def)
  }

  datatype Pointer = Null | To(pos: int)

  function GetPointer(b: seq<byte>, p: int, f: nat): Option<Pointer> {
    var o :- FieldOffset(b, p, f);
    if o == 0 then Some(Null)
    else
      var off :- ReadU(b, p + o, 4);
      Some(To(p + o + off))
  }

  // The characters of a string; its terminator must be there too.
  function ReadString(b: seq<byte>, p: int): Option<seq<byte>> {
    var n :- ReadU(b, p, 4);
    if p + 4 + n < |b| && b[p + 4 + n] == 0 then Some(b[p + 4..p + 4 + n]) else None
  }

  // Where element `i` of a vector of offsets points.
  function ElementPos(b: seq<byte>, p: int, i: nat): Option<int> {
    var off :- ReadU(b, p + 4 + 4 * i, 4);
    Some(p + 4 + 4 * i + off)
  }

  function ReadStrings(b: seq<byte>, p: int, i: nat, n: nat): Option<seq<seq<byte>>>
    requires i <= n
    decreases n - i
  {
    if i == n then Some([])
    else
      var q :- ElementPos(b, p, i);
      var s :- ReadString(b, q);
      var rest :- ReadStrings(b, p, i + 1, n);
      Some([s] + rest)
  }

  function ReadScalars(b: seq<byte>, p: int, s: nat, i: nat, n: nat): Option<seq<nat>>
    requires i <= n
    decreases n - i
  {
    if i == n then Some([])
    else
      var v :- ReadU(b, p + 4 + s * i, s);
      var rest :- ReadScalars(b, p, s, i + 1, n);
      Some([v] + rest)
  }

  // ------------------------------------------- reading a whole table tree

  // Follows every accessor of a table type, at most `fuel` tables deep.
  function ReadTable(sch: Schema, b: seq<byte>, t: nat, p: int, fuel: nat): Option<Tree>
    decreases fuel, 0, 0
  {
    if fuel == 0 || t >= |sch| then None
    else
      var vals :- ReadFields(sch, b, sch[t], p, fuel - 1);
      Some(Node(vals))
  }

  function ReadFields(sch: Schema, b: seq<byte>, fs: seq<FieldSpec>, p: int, fuel: nat): Option<seq<Val>>
    decreases fuel, 3, |fs|
  {
    if fs == [] then Some([])
    else
      var v :- ReadFieldVal(sch, b, fs[0], p, fuel);
      var rest :- ReadFields(sch, b, fs[1..], p, fuel);
      Some([v] + rest)
  }

  function ReadFieldVal(sch: Schema, b: seq<byte>, f: FieldSpec, p: int, fuel: nat): Option<Val>
    decreases fuel, 2, 0
  {
    if f.kind.KScalar? then
      var v :- GetField(b, p, f.id, f.kind.size, f.kind.def);
      Some(VScalar(v))
    else
      var ptr :- GetPointer(b, p, f.id);
      if ptr.Null? then Some(VNull) else ReadReferenced(sch, b, f.kind, ptr.pos, fuel)
  }

  function ReadReferenced(sch: Schema, b: seq<byte>, k: Kind, q: int, fuel: nat): Option<Val>
    requires !k.KScalar?
    decreases fuel, 1, 1
  {
    match k
    case KString =>
      var s :- ReadString(b, q);
      Some(VString(s))
    case KStrings =>
      var n :- ReadU(b, q, 4);
      var ss :- ReadStrings(b, q, 0, n);
      Some(VStrings(ss))
    case KScalars(s) =>
      var n :- ReadU(b, q, 4);
      var vs :- ReadScalars(b, q, s, 0, n);
      Some(VScalars(vs))
    case KTable(t) =>
      var tree :- ReadTable(sch, b, t, q, fuel);
      Some(VTable(tree))
    case KTables(t) =>
      var n :- ReadU(b, q, 4);
      var ts :- ReadTables(sch, b, t, q, 0, n, fuel);
      Some(VTables(ts))
  }

  function ReadTables(sch: Schema, b: seq<byte>, t: nat, p: int, i: nat, n: nat, fuel: nat): Option<seq<Tree>>
    requires i <= n
    decreases fuel, 1, 0, n - i
  {
    if i == n then Some([])
    else
      var q :- ElementPos(b, p, i);
      var tree :- ReadTable(sch, b, t, q, fuel);
      var rest :- ReadTables(sch, b, t, p, i + 1, n, fuel);
      Some([tree] + rest)
  }

  // GetRoot, for a buffer whose root offset is stored at `start`.
  function RootPos(b: seq<byte>, start: nat): Option<int> {
    var off :- ReadU(b, start, 4);
    Some(start + off)
  }
}
