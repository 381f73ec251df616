// Verification of arbitrary bytes stays within its budget, whether it succeeds or not.
module VerifierBudget {
  import opened Bytes
  import opened Reader
  import opened VerifierSpec

  ghost predicate Bounded(lim: Limits, st: Counters) {
    st.depth <= lim.maxDepth && st.deepest <= lim.maxDepth && (Counts(lim) ==> st.started <= st.tables <= lim.maxTables)
  }

  // At most one start exceeds a limit, and then everything fails.
  ghost predicate InBudget(lim: Limits, r: Outcome) {
    && (r.ok ==> Bounded(lim, r.st))
    && r.st.depth <= lim.maxDepth + 1 && r.st.deepest <= lim.maxDepth
    && (Counts(lim) ==> r.st.tables <= lim.maxTables + 1 && r.st.started <= lim.maxTables)
  }

  lemma {:induction false} TableBudget(sch: Schema, b: seq<byte>, t: nat, p: nat, lim: Limits, st: Counters)
    requires |b| < MAX_BUFFER_SIZE && SchemaOk(sch) && t < |sch| && Bounded(lim, st)
    ensures InBudget(lim, VerifyTable(sch, b, t, p, lim, st))
    decreases Room(b, p), 4, 0
  {
    hide TableReadable, ScalarInRange, InRange, AlignedTo, ReadSOffset;
    var s := VerifyTableStart(b, p, lim, st);
    if s.ok {
      StartMakesReadable(b, p, lim, st);
      FieldsBudget(sch, b, sch[t], p, lim, s.st);
    }
  }

  lemma {:induction false} FieldsBudget(sch: Schema, b: seq<byte>, fs: seq<FieldSpec>, p: nat, lim: Limits, st: Counters)
    requires |b| < MAX_BUFFER_SIZE && SchemaOk(sch) && SpecsOk(sch, fs) && TableReadable(b, p) && Bounded(lim, st)
    ensures InBudget(lim, VerifyFields(sch, b, fs, p, lim, st))
    decreases Room(b, p), 3, |fs|
  {
    hide TableReadable, SchemaOk, SpecOk;
    if fs != [] {
      var f := VerifyFieldVal(sch, b, fs[0], p, lim, st);
      FieldBudget(sch, b, fs[0], p, lim, st);
      if f.ok {
        FieldsBudget(sch, b, fs[1..], p, lim, f.st);
      }
    }
  }

  lemma {:induction false} FieldBudget(sch: Schema, b: seq<byte>, f: FieldSpec, p: nat, lim: Limits, st: Counters)
    requires |b| < MAX_BUFFER_SIZE && SchemaOk(sch) && SpecOk(sch, f) && TableReadable(b, p) && Bounded(lim, st)
    ensures InBudget(lim, VerifyFieldVal(sch, b, f, p, lim, st))
    decreases Room(b, p), 2, 0
  {
    hide SchemaOk, FieldOffset;
    var e := Entry(b, p, f.id);
    if !f.kind.KScalar? && e != 0 && VerifyOffset(b, p + e) != 0 {
      match f.kind
      case KTable(t) => TableBudget(sch, b, t, Target(b, p + e), lim, st);
      case KTables(t) =>
        if VerifyVector(b, Target(b, p + e), 4) {
          TablesBudget(sch, b, t, Target(b, p + e), 0, Length(b, Target(b, p + e)), lim, st);
        }
      case _ =>
    }
  }

  lemma {:induction false} TablesBudget(sch: Schema, b: seq<byte>, t: nat, vec: nat, i: nat, n: nat, lim: Limits, st: Counters)
    requires |b| < MAX_BUFFER_SIZE && SchemaOk(sch) && t < |sch| && Bounded(lim, st)
    requires i <= n && vec + 4 + 4 * n <= |b|
    ensures InBudget(lim, VerifyTables(sch, b, t, vec, i, n, lim, st))
    decreases Room(b, vec), 1, 0, n - i
  {
    hide SchemaOk;
    if i < n {
      var r := VerifyTable(sch, b, t, Element(b, vec, i), lim, st);
      TableBudget(sch, b, t, Element(b, vec, i), lim, st);
      if r.ok {
        TablesBudget(sch, b, t, vec, i + 1, n, lim, r.st);
      }
    }
  }

  // Whatever the bytes are: no table start is let through beyond the depth limit
  // or any limit on tables below the greatest, at most one start is tried
  // beyond, and success leaves the depth at zero.
  lemma BufferBudget(sch: Schema, b: seq<byte>, t: nat, sizePrefix: bool, identifier: seq<byte>, lim: Limits)
    requires |b| < MAX_BUFFER_SIZE && SchemaOk(sch) && t < |sch|
    ensures var r := VerifyBuffer(sch, b, t, sizePrefix, identifier, lim);
      && r.st.deepest <= lim.maxDepth && r.st.depth <= lim.maxDepth + 1
      && (r.ok ==> r.st.depth == 0)
      && (lim.maxTables < MAX_32 ==> r.st.started <= lim.maxTables && r.st.tables <= lim.maxTables + 1)
      && (lim.maxTables < MAX_32 && r.ok ==> r.st.started <= r.st.tables <= lim.maxTables)
  {
    hide VerifyOffset, SchemaOk, ScalarInRange, FromLE;
    var start := if sizePrefix then 4 else 0;
    var o := VerifyOffset(b, start);
    if o != 0 {
      TableBudget(sch, b, t, start + o, lim, Zero);
    }
  }
}
