// The verifier as an object: its two counters are fields that table starts
// advance, and vectors are walked by loops.
module Verifier {
  import opened Bits
  import opened Bytes
  import opened Reader
  import S = VerifierSpec

  class Verifier {
    const buf: seq<byte>
    // The memory that follows the buffer.
    const behind: seq<byte>
    const maxDepth: S.uint32
    const maxTables: S.uint32
    var depth: S.uint32
    var numTables: S.uint32
    ghost var started: nat
    ghost var deepest: nat

    ghost function Limits(): S.Limits {
      S.Limits(maxDepth, maxTables)
    }

    ghost function Counters(): S.Counters
      reads this
    {
      S.Counters(depth, numTables, started, deepest)
    }

    constructor (buf: seq<byte>, behind: seq<byte>, maxDepth: S.uint32, maxTables: S.uint32)
      requires |buf| < MAX_BUFFER_SIZE
      ensures this.buf == buf && this.behind == behind && Limits() == S.Limits(maxDepth, maxTables) && Counters() == S.Zero
    {
      this.buf, this.behind, this.maxDepth, this.maxTables := buf, behind, maxDepth, maxTables;
      depth, numTables, started, deepest := 0, 0, 0, 0;
    }

    method VerifyComplexity() returns (ok: bool)
      modifies `depth, `numTables
      ensures S.Outcome(ok, Counters()) == S.VerifyComplexity(Limits(), old(Counters()))
    {
      depth := S.Next(depth);
      numTables := S.Next(numTables);
      ok := depth <= maxDepth && numTables <= maxTables;
    }

    method EndTable() returns (ok: bool)
      modifies `depth
      ensures ok && Counters() == old(Counters()).(depth := S.Previous(old(depth)))
    {
      depth := S.Previous(depth);
      ok := true;
    }

    method VerifyTableStart(p: nat) returns (ok: bool)
      modifies this
      ensures S.Outcome(ok, Counters()) == S.VerifyTableStart(buf, p, Limits(), old(Counters()))
    {
      hide FromLE, S.AlignedTo;
      if !S.ScalarInRange(buf, p, 4) {
        return false;
      }
      var vtable := S.VTablePos(buf, p);
      ok := VerifyComplexity();
      if !ok {
        return false;
      }
      if !S.ScalarInRange(buf, vtable, 2) {
        return false;
      }
      var vtableSize := S.U(buf, vtable, 2);
      if !S.AlignedTo(vtableSize, 2) {
        return false;
      }
      if !S.InRange(buf, vtable, vtableSize) {
        return false;
      }
      started, deepest := started + 1, Max(deepest, depth);
      ok := true;
    }

    method VerifyVectorOfStrings(vec: nat) returns (ok: bool)
      requires S.VerifyVector(buf, vec, 4)
      ensures ok == S.VerifyStringsFrom(buf, vec, 0, S.Length(buf, vec))
    {
      hide S.VerifyString, FromLE;
      var n := S.Length(buf, vec);
      for i := 0 to n
        invariant S.VerifyStringsFrom(buf, vec, 0, n) == S.VerifyStringsFrom(buf, vec, i, n)
      {
        if !S.VerifyString(buf, S.Element(buf, vec, i)) {
          return false;
        }
      }
      ok := true;
    }

    // The generated `Verify` of a table type.
    method VerifyTable(sch: Schema, t: nat, p: nat) returns (ok: bool)
      requires |buf| < MAX_BUFFER_SIZE && SchemaOk(sch) && t < |sch|
      modifies this
      ensures S.Outcome(ok, Counters()) == S.VerifyTable(sch, buf, t, p, Limits(), old(Counters()))
      decreases S.Room(buf, p), 4, 0
    {
      hide S.VerifyTableStart, S.VerifyFields, S.TableReadable, SpecsOk;
      ghost var before := Counters();
      ok := VerifyTableStart(p);
      if !ok {
        return false;
      }
      S.StartMakesReadable(buf, p, Limits(), before);
      ok := VerifyFields(sch, sch[t], p);
      if !ok {
        return false;
      }
      ok := EndTable();
    }

    // One check after another, in the order the fields are declared.
    method VerifyFields(sch: Schema, fs: seq<FieldSpec>, p: nat) returns (ok: bool)
      requires |buf| < MAX_BUFFER_SIZE && SchemaOk(sch) && SpecsOk(sch, fs) && S.TableReadable(buf, p)
      modifies this
      ensures S.Outcome(ok, Counters()) == S.VerifyFields(sch, buf, fs, p, Limits(), old(Counters()))
      decreases S.Room(buf, p), 3, |fs|
    {
      hide S.TableReadable, SchemaOk, SpecOk, S.VerifyFieldVal;
      if fs == [] {
        return true;
      }
      ok := VerifyFieldVal(sch, fs[0], p);
      if ok {
        ok := VerifyFields(sch, fs[1..], p);
      }
    }

    method VerifyFieldVal(sch: Schema, f: FieldSpec, p: nat) returns (ok: bool)
      requires |buf| < MAX_BUFFER_SIZE && SchemaOk(sch) && SpecOk(sch, f) && S.TableReadable(buf, p)
      modifies this
      ensures S.Outcome(ok, Counters()) == S.VerifyFieldVal(sch, buf, f, p, Limits(), old(Counters()))
      decreases S.Room(buf, p), 2, 0
    {
      hide SchemaOk, FieldOffset, S.VerifyOffset, S.VerifyReferenced;
      var e := S.Entry(buf, p, f.id);
      if f.kind.KScalar? {
        return e == 0 || S.InRange(buf, p + e, f.kind.size);
      }
      if e == 0 {
        return !f.required;
      }
      if S.VerifyOffset(buf, p + e) == 0 {
        return false;
      }
      ok := VerifyReferenced(sch, f.kind, S.Target(buf, p + e));
    }

    method VerifyReferenced(sch: Schema, k: Kind, q: nat) returns (ok: bool)
      requires |buf| < MAX_BUFFER_SIZE && SchemaOk(sch) && KindOk(sch, k) && !k.KScalar?
      modifies this
      ensures S.Outcome(ok, Counters()) == S.VerifyReferenced(sch, buf, k, q, Limits(), old(Counters()))
      decreases S.Room(buf, q), 5, 0
    {
      hide SchemaOk, S.VerifyString, S.VerifyStringsFrom, S.VerifyTable, S.VerifyTables, FromLE;
      match k
      case KString => ok := S.VerifyString(buf, q);
      case KStrings =>
        ok := S.VerifyVector(buf, q, 4);
        if ok {
          ok := VerifyVectorOfStrings(q);
        }
      case KScalars(s) => ok := S.VerifyVector(buf, q, s);
      case KTable(t) => ok := VerifyTable(sch, t, q);
      case KTables(t) =>
        ok := S.VerifyVector(buf, q, 4);
        if ok {
          ok := VerifyVectorOfTables(sch, t, q);
        }
    }

    method VerifyVectorOfTables(sch: Schema, t: nat, vec: nat) returns (ok: bool)
      requires |buf| < MAX_BUFFER_SIZE && SchemaOk(sch) && t < |sch| && S.VerifyVector(buf, vec, 4)
      modifies this
      ensures S.Outcome(ok, Counters())
           == S.VerifyTables(sch, buf, t, vec, 0, S.Length(buf, vec), Limits(), old(Counters()))
      decreases S.Room(buf, vec), 1, 0
    {
      hide SchemaOk, S.VerifyTable, FromLE;
      var n := S.Length(buf, vec);
      ghost var before := Counters();
      for i := 0 to n
        invariant S.VerifyTables(sch, buf, t, vec, 0, n, Limits(), before)
               == S.VerifyTables(sch, buf, t, vec, i, n, Limits(), Counters())
      {
        ok := VerifyTable(sch, t, S.Element(buf, vec, i));
        if !ok {
          return false;
        }
      }
      ok := true;
    }

    method VerifyBufferFromStart(sch: Schema, t: nat, start: nat, identifier: seq<byte>) returns (ok: bool)
      requires start == 0 || start == 4
      requires |buf| < MAX_BUFFER_SIZE && SchemaOk(sch) && t < |sch| && Counters() == S.Zero && |behind| >= 4
      modifies this
      ensures S.Outcome(ok, Counters()) == S.VerifyBufferFromStart(sch, buf, t, start, identifier, Limits())
    {
      S.BehindIsIgnored(sch, buf, behind, t, start, identifier, Limits());
      hide SchemaOk, S.VerifyTable, S.VerifyOffset, S.VerifyBufferFromStart;
      if identifier != [] && (|buf| < 8 || !S.HasIdentifier(buf + behind, start, identifier)) {
        return false;
      }
      var o := S.VerifyOffset(buf, start);
      if o == 0 {
        return false;
      }
      ok := VerifyTable(sch, t, start + o);
    }

    method VerifyBuffer(sch: Schema, t: nat, identifier: seq<byte>) returns (ok: bool)
      requires |buf| < MAX_BUFFER_SIZE && SchemaOk(sch) && t < |sch| && Counters() == S.Zero && |behind| >= 4
      modifies this
      ensures S.Outcome(ok, Counters()) == S.VerifyBuffer(sch, buf, t, false, identifier, Limits())
    {
      hide SchemaOk, S.VerifyBufferFromStart;
      ok := VerifyBufferFromStart(sch, t, 0, identifier);
    }

    method VerifySizePrefixedBuffer(sch: Schema, t: nat, identifier: seq<byte>) returns (ok: bool)
      requires |buf| < MAX_BUFFER_SIZE && SchemaOk(sch) && t < |sch| && Counters() == S.Zero && |behind| >= 4
      modifies this
      ensures S.Outcome(ok, Counters()) == S.VerifyBuffer(sch, buf, t, true, identifier, Limits())
    {
      hide SchemaOk, S.VerifyBufferFromStart, FromLE;
      if !S.ScalarInRange(buf, 0, 4) {
        return false;
      }
      if S.U(buf, 0, 4) != |buf| - 4 {
        return false;
      }
      ok := VerifyBufferFromStart(sch, t, 4, identifier);
    }
  }
}
