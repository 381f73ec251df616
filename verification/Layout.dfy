// How a finished object lies in the builder's bytes, and why it keeps lying
// there: every predicate below survives any growth of the buffer.
module Layout {
  import opened Bytes
  import opened Alignment
  import opened BuilderSpec

  // A field as the caller set it: a scalar with its schema default, or a
  // reference to an object built before.
  datatype FieldVal =
    | FScalar(size: nat, value: nat, def: nat)
    | FRef(ref: nat)

  // What was built at an offset.  A table also records which vtable it uses.
  datatype Obj =
    | OString(chars: seq<byte>)
    | ORefs(refs: seq<nat>)
    | OScalars(size: nat, vals: seq<nat>)
    | OTable(fields: map<nat, FieldVal>, vtOff: nat, vtable: seq<byte>)

  ghost predicate StringAt(d: seq<byte>, o: nat, s: seq<byte>) {
    && 4 + |s| + 1 <= o <= |d|
    && o % 4 == 0
    && At(d, o, 4) == ToLE(4, |s|)
    && At(d, o - 4, |s|) == s
    && At(d, o - 4 - |s|, 1) == [0]
  }

  ghost predicate RefAt(d: seq<byte>, o: nat, ref: nat) {
    && 4 <= o <= |d|
    && o % 4 == 0
    && 0 < ref < o
    && At(d, o, 4) == ToLE(4, o - ref)
  }

  ghost predicate RefsAt(d: seq<byte>, o: nat, refs: seq<nat>) {
    && 4 + 4 * |refs| <= o <= |d|
    && o % 4 == 0
    && At(d, o, 4) == ToLE(4, |refs|)
    && forall i :: 0 <= i < |refs| ==> RefAt(d, o - 4 - 4 * i, refs[i])
  }

  ghost predicate ScalarsAt(d: seq<byte>, minalign: nat, o: nat, s: nat, vals: seq<nat>) {
    && ScalarSize(s)
    && 4 + s * |vals| <= o <= |d|
    && o % 4 == 0
    && Aligned(o - 4, s)
    && Aligned(minalign, s)
    && At(d, o, 4) == ToLE(4, |vals|)
    && forall i :: 0 <= i < |vals| ==> ScalarAt(d, o - 4, s, i, vals[i])
  }

  ghost predicate ScalarAt(d: seq<byte>, first: nat, s: nat, i: nat, v: nat) {
    && s + s * i <= first <= |d|
    && At(d, first - s * i, s) == ToLE(s, v)
  }

  // The entry a reader finds for field `f`: zero beyond the end of the vtable.
  function Entry(vt: seq<byte>, f: nat): nat {
    if f + 2 <= |vt| then FromLE(vt[f..f + 2]) else 0
  }

  ghost predicate VTableAt(d: seq<byte>, v: nat, vt: seq<byte>) {
    && 4 <= |vt| <= v <= |d|
    && |vt| < 0x1_0000
    && |vt| % 2 == 0
    && v % 2 == 0
    && At(d, v, |vt|) == vt
    && FromLE(vt[..2]) == |vt|
  }

  ghost predicate FieldAt(d: seq<byte>, minalign: nat, o: nat, e: nat, f: FieldVal) {
    match f
    case FScalar(s, v, def) =>
      && ScalarSize(s)
      && v < Range(s)
      && if e == 0 then v == def
         else
           && e + s <= o <= |d|
           && Aligned(o - e, s)
           && Aligned(minalign, s)
           && At(d, o - e, s) == ToLE(s, v)
    case FRef(ref) =>
      0 < e < o && RefAt(d, o - e, ref)
  }

  // The bytes a stored field takes in its table.
  function FieldSize(f: FieldVal): nat {
    match f
    case FScalar(s, _, _) => s
    case FRef(_) => 4
  }

  // The second word of a vtable is the size of the table: every stored field
  // ends within it.
  ghost predicate InlineFields(vt: seq<byte>, o: nat, fields: map<nat, FieldVal>) {
    && 4 <= |vt| && FromLE(vt[2..4]) <= o
    && forall f :: f in fields && Entry(vt, f) != 0 ==> Entry(vt, f) + FieldSize(fields[f]) <= FromLE(vt[2..4])
  }

  // The vtable ends with the entry of a stored field.
  predicate Trimmed(vt: seq<byte>) {
    |vt| > 4 ==> Entry(vt, |vt| - 2) != 0
  }

  predicate FieldId(f: nat) {
    4 <= f <= 0xFFFC && f % 2 == 0
  }

  ghost predicate TableAt(d: seq<byte>, minalign: nat, o: nat, fields: map<nat, FieldVal>, v: nat, vt: seq<byte>) {
    && 4 <= o <= |d|
    && o % 4 == 0
    && At(d, o, 4) == SOffset(v, o)
    && VTableAt(d, v, vt)
    && (forall f :: f in fields ==> FieldId(f) && FieldAt(d, minalign, o, Entry(vt, f), fields[f]))
    && (forall f :: FieldId(f) && f !in fields ==> Entry(vt, f) == 0)
    && InlineFields(vt, o, fields) && Trimmed(vt)
  }

  ghost predicate ObjAt(d: seq<byte>, minalign: nat, o: nat, obj: Obj) {
    match obj
    case OString(s) => StringAt(d, o, s)
    case ORefs(refs) => RefsAt(d, o, refs)
    case OScalars(s, vals) => ScalarsAt(d, minalign, o, s, vals)
    case OTable(fields, v, vt) => TableAt(d, minalign, o, fields, v, vt)
  }

  // ------------------------------------------------------------- stability

  lemma DivisibleTransitive(s: nat, a: nat, b: nat)
    requires ScalarSize(s) && IsAlignment(a) && IsAlignment(b)
    requires a <= b && Aligned(a, s)
    ensures Aligned(b, s)
  {
  }

  lemma RefStable(d: seq<byte>, e: seq<byte>, o: nat, ref: nat)
    requires Extends(d, e) && RefAt(d, o, ref)
    ensures RefAt(e, o, ref)
  {
    AtStable(d, e, o, 4);
  }

  lemma StringStable(d: seq<byte>, e: seq<byte>, o: nat, s: seq<byte>)
    requires Extends(d, e) && StringAt(d, o, s)
    ensures StringAt(e, o, s)
  {
    AtStable(d, e, o, 4);
    AtStable(d, e, o - 4, |s|);
    AtStable(d, e, o - 4 - |s|, 1);
  }

  lemma VTableStable(d: seq<byte>, e: seq<byte>, v: nat, vt: seq<byte>)
    requires Extends(d, e) && VTableAt(d, v, vt)
    ensures VTableAt(e, v, vt)
  {
    AtStable(d, e, v, |vt|);
  }

  lemma FieldStable(d: seq<byte>, e: seq<byte>, m: nat, n: nat, o: nat, entry: nat, f: FieldVal)
    requires Extends(d, e) && FieldAt(d, m, o, entry, f)
    requires IsAlignment(m) && IsAlignment(n) && m <= n
    ensures FieldAt(e, n, o, entry, f)
  {
    match f
    case FScalar(s, v, def) =>
      if entry != 0 {
        DivisibleTransitive(s, m, n);
        AtStable(d, e, o - entry, s);
      }
    case FRef(ref) => RefStable(d, e, o - entry, ref);
  }

  lemma RefsStable(d: seq<byte>, e: seq<byte>, o: nat, refs: seq<nat>)
    requires Extends(d, e) && RefsAt(d, o, refs)
    ensures RefsAt(e, o, refs)
  {
    AtStable(d, e, o, 4);
    forall i | 0 <= i < |refs| ensures RefAt(e, o - 4 - 4 * i, refs[i]) {
      RefStable(d, e, o - 4 - 4 * i, refs[i]);
    }
  }

  lemma ScalarsStable(d: seq<byte>, e: seq<byte>, m: nat, n: nat, o: nat, s: nat, vals: seq<nat>)
    requires Extends(d, e) && ScalarsAt(d, m, o, s, vals)
    requires IsAlignment(m) && IsAlignment(n) && m <= n
    ensures ScalarsAt(e, n, o, s, vals)
  {
    hide At;
    AtStable(d, e, o, 4);
    DivisibleTransitive(s, m, n);
    forall i | 0 <= i < |vals| ensures ScalarAt(e, o - 4, s, i, vals[i]) {
      assert ScalarAt(d, o - 4, s, i, vals[i]);
      AtStable(d, e, o - 4 - s * i, s);
    }
  }

  lemma TableStable(d: seq<byte>, e: seq<byte>, m: nat, n: nat, o: nat,
                    fields: map<nat, FieldVal>, v: nat, vt: seq<byte>)
    requires Extends(d, e) && TableAt(d, m, o, fields, v, vt)
    requires IsAlignment(m) && IsAlignment(n) && m <= n
    ensures TableAt(e, n, o, fields, v, vt)
  {
    hide At, FieldAt, VTableAt, Entry, InlineFields, Trimmed;
    AtStable(d, e, o, 4);
    VTableStable(d, e, v, vt);
    forall f | f in fields ensures FieldId(f) && FieldAt(e, n, o, Entry(vt, f), fields[f]) {
      FieldStable(d, e, m, n, o, Entry(vt, f), fields[f]);
    }
  }

  lemma ObjStable(d: seq<byte>, e: seq<byte>, m: nat, n: nat, o: nat, obj: Obj)
    requires Extends(d, e) && ObjAt(d, m, o, obj)
    requires IsAlignment(m) && IsAlignment(n) && m <= n
    ensures ObjAt(e, n, o, obj)
  {
    hide StringAt, RefsAt, ScalarsAt, TableAt;
    match obj
    case OString(s) => StringStable(d, e, o, s);
    case ORefs(refs) => RefsStable(d, e, o, refs);
    case OScalars(s, vals) => ScalarsStable(d, e, m, n, o, s, vals);
    case OTable(fields, v, vt) => TableStable(d, e, m, n, o, fields, v, vt);
  }
}
