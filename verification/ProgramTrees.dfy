// A program describes one tree, and every play of it builds a buffer that reads
// back as that tree, whatever the settings of the builder.
module ProgramTrees {
  import opened Bytes
  import opened BuilderSpec
  import opened Layout
  import opened Tables
  import opened Runs
  import opened RunInvariant
  import opened Finishing
  import opened ReadBack
  import opened BuiltBuffers
  import opened Options
  import opened Programs
  import R = Reader
  import V = VerifierSpec

  // ------------------------------------------------------------ the same tree

  // The tree the program describes at call `k`.  It looks at no offset.
  ghost function Meaning(sch: R.Schema, calls: seq<Call>, t: nat, k: nat): R.Tree
    requires TypedTable(sch, Described(calls), t, k)
  {
    Built(sch, Described(calls), t, k)
  }

  // The object at call `k`, built and described.
  lemma ThingAt(objs: map<nat, Obj>, rs: seq<nat>, calls: seq<Call>, k: nat)
    requires Carries(objs, rs, calls) && 0 < k <= |calls|
    ensures k in Described(calls) && Described(calls)[k] == Thing(calls[k - 1])
    ensures |rs| == |calls| && rs[k - 1] in objs && Same(rs, objs[rs[k - 1]], Described(calls)[k])
    ensures Names(calls[k - 1], k - 1)
  {
    hide Same, Names, Thing;
  }

  lemma {:induction false} FieldNamed(adds: seq<Add>, n: nat, f: nat)
    requires Names(NewTable(adds), n) && f in Fields(adds) && Fields(adds)[f].FRef?
    ensures 0 < Fields(adds)[f].ref <= n
  {
    var m := |adds| - 1;
    if f in Fields(adds[..m]) && Fields(adds)[f] == Fields(adds[..m])[f] {
      FieldNamed(adds[..m], n, f);
    }
  }

  // A field that is a reference leads to an earlier call.
  lemma FieldRef(objs: map<nat, Obj>, rs: seq<nat>, calls: seq<Call>, k: nat, f: nat)
    requires Carries(objs, rs, calls) && Closed(objs) && 0 < k <= |calls| && Described(calls)[k].OTable?
    requires f in Described(calls)[k].fields && Described(calls)[k].fields[f].FRef?
    ensures var r := Described(calls)[k].fields[f].ref;
      && |rs| == |calls| && rs[k - 1] in objs && objs[rs[k - 1]].OTable?
      && 0 < r < k && f in objs[rs[k - 1]].fields
      && objs[rs[k - 1]].fields[f] == FRef(rs[r - 1]) && rs[r - 1] in objs && rs[r - 1] < rs[k - 1]
  {
    ThingAt(objs, rs, calls, k);
    var r := Described(calls)[k].fields[f].ref;
    FieldNamed(calls[k - 1].adds, k - 1, f);
    assert SameField(rs, objs[rs[k - 1]].fields[f], Described(calls)[k].fields[f]);
    hide Carries, Names, Fields;
    assert rs[r - 1] in Refs(objs[rs[k - 1]]);
  }

  lemma ElementRef(objs: map<nat, Obj>, rs: seq<nat>, calls: seq<Call>, k: nat, i: nat)
    requires Carries(objs, rs, calls) && Closed(objs) && 0 < k <= |calls|
    requires Described(calls)[k].ORefs? && i < |Described(calls)[k].refs|
    ensures var r := Described(calls)[k].refs[i];
      && |rs| == |calls| && rs[k - 1] in objs && objs[rs[k - 1]].ORefs? && i < |objs[rs[k - 1]].refs|
      && 0 < r < k && objs[rs[k - 1]].refs[i] == rs[r - 1] && rs[r - 1] in objs && rs[r - 1] < rs[k - 1]
  {
    ThingAt(objs, rs, calls, k);
    hide Carries;
    assert objs[rs[k - 1]].refs[i] in Refs(objs[rs[k - 1]]);
  }

  // Built and described agree on types.
  lemma {:induction false} SameTypes(sch: R.Schema, objs: map<nat, Obj>, rs: seq<nat>, calls: seq<Call>, t: nat, k: nat)
    requires Carries(objs, rs, calls) && Closed(objs) && 0 < k <= |calls|
    ensures |rs| == |calls|
    ensures TypedTable(sch, objs, t, rs[k - 1]) <==> TypedTable(sch, Described(calls), t, k)
    decreases k, 2
  {
    ThingAt(objs, rs, calls, k);
    hide Carries, Closed, TypedField;
    if t < |sch| && Described(calls)[k].OTable? {
      forall i | 0 <= i < |sch[t]|
        ensures TypedField(sch, objs, sch[t][i], rs[k - 1]) <==> TypedField(sch, Described(calls), sch[t][i], k)
      {
        SameFieldTypes(sch, objs, rs, calls, sch[t][i], k);
      }
    }
  }

  lemma {:induction false} SameFieldTypes(sch: R.Schema, objs: map<nat, Obj>, rs: seq<nat>, calls: seq<Call>,
                                          f: R.FieldSpec, k: nat)
    requires Carries(objs, rs, calls) && Closed(objs) && 0 < k <= |calls| == |rs|
    requires Described(calls)[k].OTable? && rs[k - 1] in objs && objs[rs[k - 1]].OTable?
    ensures TypedField(sch, objs, f, rs[k - 1]) <==> TypedField(sch, Described(calls), f, k)
    decreases k, 1
  {
    ThingAt(objs, rs, calls, k);
    var fields := Described(calls)[k].fields;
    assert SameFields(rs, objs[rs[k - 1]].fields, fields);
    hide Carries, Closed, TypedTable;
    if f.id in fields {
      assert SameField(rs, objs[rs[k - 1]].fields[f.id], fields[f.id]);
      if fields[f.id].FRef? {
        hide TypedField;
        SameRefTypes(sch, objs, rs, calls, f, k, fields[f.id].ref);
      }
    }
  }

  lemma {:induction false} SameRefTypes(sch: R.Schema, objs: map<nat, Obj>, rs: seq<nat>, calls: seq<Call>,
                                        f: R.FieldSpec, k: nat, r: nat)
    requires Carries(objs, rs, calls) && Closed(objs) && 0 < k <= |calls| == |rs|
    requires Described(calls)[k].OTable? && rs[k - 1] in objs && objs[rs[k - 1]].OTable?
    requires f.id in Described(calls)[k].fields && Described(calls)[k].fields[f.id] == FRef(r)
    ensures TypedField(sch, objs, f, rs[k - 1]) <==> TypedField(sch, Described(calls), f, k)
    decreases k, 0, 1
  {
    FieldRef(objs, rs, calls, k, f.id);
    ThingAt(objs, rs, calls, r);
    hide Carries, Closed, TypedTable;
    match f.kind
    case KStrings => SameStringTypes(objs, rs, calls, r);
    case KTable(t) => SameTypes(sch, objs, rs, calls, t, r);
    case KTables(t) => SameTableTypes(sch, objs, rs, calls, t, r, k);
    case _ =>
  }

  // All elements of the vector at call `r` are strings, built or described.
  ghost predicate AllStrings(objs: map<nat, Obj>, o: nat) {
    IsRefs(objs, o) && forall i :: 0 <= i < |objs[o].refs| ==> IsString(objs, objs[o].refs[i])
  }

  ghost predicate AllTables(sch: R.Schema, objs: map<nat, Obj>, t: nat, o: nat, bound: nat) {
    && IsRefs(objs, o)
    && forall i :: 0 <= i < |objs[o].refs| ==> objs[o].refs[i] < bound && TypedTable(sch, objs, t, objs[o].refs[i])
  }

  lemma SameStringTypes(objs: map<nat, Obj>, rs: seq<nat>, calls: seq<Call>, r: nat)
    requires Carries(objs, rs, calls) && Closed(objs) && 0 < r <= |calls| == |rs|
    ensures AllStrings(objs, rs[r - 1]) <==> AllStrings(Described(calls), r)
  {
    ThingAt(objs, rs, calls, r);
    hide Carries, Closed;
    if Described(calls)[r].ORefs? {
      forall i | 0 <= i < |Described(calls)[r].refs|
        ensures IsString(objs, objs[rs[r - 1]].refs[i]) <==> IsString(Described(calls), Described(calls)[r].refs[i])
      {
        ElementRef(objs, rs, calls, r, i);
        ThingAt(objs, rs, calls, Described(calls)[r].refs[i]);
      }
    }
  }

  lemma {:induction false} SameTableTypes(sch: R.Schema, objs: map<nat, Obj>, rs: seq<nat>, calls: seq<Call>,
                                          t: nat, r: nat, k: nat)
    requires Carries(objs, rs, calls) && Closed(objs) && 0 < r < k <= |calls| == |rs| && rs[r - 1] < rs[k - 1]
    ensures AllTables(sch, objs, t, rs[r - 1], rs[k - 1]) <==> AllTables(sch, Described(calls), t, r, k)
    decreases k, 0, 0
  {
    ThingAt(objs, rs, calls, r);
    hide Carries, Closed, TypedTable;
    if Described(calls)[r].ORefs? {
      forall i | 0 <= i < |Described(calls)[r].refs|
        ensures objs[rs[r - 1]].refs[i] < rs[k - 1] && Described(calls)[r].refs[i] < k
        ensures TypedTable(sch, objs, t, objs[rs[r - 1]].refs[i]) <==> TypedTable(sch, Described(calls), t, Described(calls)[r].refs[i])
      {
        ElementRef(objs, rs, calls, r, i);
        SameTypes(sch, objs, rs, calls, t, Described(calls)[r].refs[i]);
      }
    }
  }

  // They agree on the tree.
  lemma {:induction false} SameTrees(sch: R.Schema, objs: map<nat, Obj>, rs: seq<nat>, calls: seq<Call>, t: nat, k: nat)
    requires Carries(objs, rs, calls) && Closed(objs) && 0 < k <= |calls| == |rs|
    requires TypedTable(sch, Described(calls), t, k) && TypedTable(sch, objs, t, rs[k - 1])
    ensures Built(sch, objs, t, rs[k - 1]) == Built(sch, Described(calls), t, k)
    decreases k, 2, 0
  {
    hide Carries, Closed, TypedField, BuiltFields;
    SameVals(sch, objs, rs, calls, sch[t], k);
  }

  lemma {:induction false} SameVals(sch: R.Schema, objs: map<nat, Obj>, rs: seq<nat>, calls: seq<Call>,
                                    fs: seq<R.FieldSpec>, k: nat)
    requires Carries(objs, rs, calls) && Closed(objs) && 0 < k <= |calls| == |rs|
    requires Described(calls)[k].OTable? && rs[k - 1] in objs && objs[rs[k - 1]].OTable?
    requires forall i :: 0 <= i < |fs| ==> TypedField(sch, Described(calls), fs[i], k)
    requires forall i :: 0 <= i < |fs| ==> TypedField(sch, objs, fs[i], rs[k - 1])
    ensures BuiltFields(sch, objs, fs, rs[k - 1]) == BuiltFields(sch, Described(calls), fs, k)
    decreases k, 1, |fs|
  {
    hide Carries, Closed, TypedField, BuiltField;
    if fs != [] {
      SameVal(sch, objs, rs, calls, fs[0], k);
      SameVals(sch, objs, rs, calls, fs[1..], k);
    }
  }

  lemma {:induction false} SameVal(sch: R.Schema, objs: map<nat, Obj>, rs: seq<nat>, calls: seq<Call>,
                                   f: R.FieldSpec, k: nat)
    requires Carries(objs, rs, calls) && Closed(objs) && 0 < k <= |calls| == |rs|
    requires Described(calls)[k].OTable? && rs[k - 1] in objs && objs[rs[k - 1]].OTable?
    requires TypedField(sch, Described(calls), f, k) && TypedField(sch, objs, f, rs[k - 1])
    ensures BuiltField(sch, objs, f, rs[k - 1]) == BuiltField(sch, Described(calls), f, k)
    decreases k, 0, 1
  {
    ThingAt(objs, rs, calls, k);
    var fields := Described(calls)[k].fields;
    assert SameFields(rs, objs[rs[k - 1]].fields, fields);
    hide Carries, Closed, TypedTable;
    if f.id in fields {
      assert SameField(rs, objs[rs[k - 1]].fields[f.id], fields[f.id]);
      if fields[f.id].FRef? {
        var r := fields[f.id].ref;
        FieldRef(objs, rs, calls, k, f.id);
        ThingAt(objs, rs, calls, r);
        match f.kind
        case KStrings => SameStrings(objs, rs, calls, objs[rs[r - 1]].refs, Described(calls)[r].refs);
        case KTable(t) => SameTrees(sch, objs, rs, calls, t, r);
        case KTables(t) => SameTables(sch, objs, rs, calls, t, objs[rs[r - 1]].refs, Described(calls)[r].refs, rs[k - 1], k);
        case _ =>
      }
    }
  }

  lemma {:induction false} SameStrings(objs: map<nat, Obj>, rs: seq<nat>, calls: seq<Call>, os: seq<nat>, ks: seq<nat>)
    requires Carries(objs, rs, calls) && Elements(rs, os, ks)
    requires forall i :: 0 <= i < |os| ==> IsString(objs, os[i])
    requires forall i :: 0 <= i < |ks| ==> IsString(Described(calls), ks[i])
    ensures BuiltStrings(objs, os) == BuiltStrings(Described(calls), ks)
  {
    if ks != [] {
      assert IsString(objs, os[0]) && IsString(Described(calls), ks[0]);
      ThingAt(objs, rs, calls, ks[0]);
      hide Carries;
      SameStrings(objs, rs, calls, os[1..], ks[1..]);
    }
  }

  lemma {:induction false} SameTables(sch: R.Schema, objs: map<nat, Obj>, rs: seq<nat>, calls: seq<Call>,
                                      t: nat, os: seq<nat>, ks: seq<nat>, bound: nat, k: nat)
    requires Carries(objs, rs, calls) && Closed(objs) && |calls| == |rs| && Elements(rs, os, ks)
    requires forall i :: 0 <= i < |os| ==> os[i] < bound && TypedTable(sch, objs, t, os[i])
    requires forall i :: 0 <= i < |ks| ==> ks[i] < k && TypedTable(sch, Described(calls), t, ks[i])
    ensures BuiltTables(sch, objs, t, os, bound) == BuiltTables(sch, Described(calls), t, ks, k)
    decreases k, 0, 0, |ks|
  {
    hide Carries, Closed, TypedTable, Built;
    if ks != [] {
      SameTrees(sch, objs, rs, calls, t, ks[0]);
      SameTables(sch, objs, rs, calls, t, os[1..], ks[1..], bound, k);
    }
  }

  // ------------------------------------------------------------- main results

  ghost function Root(ops: seq<Op>, k: nat): nat
    requires (StartInv(); CanRun(Start, ops))
  {
    StartInv();
    Offset(Results(Start, [], ops), k)
  }

  lemma PlayEnds(sch: R.Schema, calls: seq<Call>, ops: seq<Op>, t: nat, k: nat)
    requires (StartInv(); CanRun(Start, ops) && Plays(Start, [], calls, ops))
    requires TypedTable(sch, Described(calls), t, k)
    ensures var w := Run(Start, ops); var rs := Results(Start, [], ops);
      && Inv(w) && 0 < k <= |calls| == |rs| && Root(ops, k) == rs[k - 1] && rs[k - 1] in w.objs
      && Carries(w.objs, rs, calls) && Closed(w.objs)
  {
    hide CanRun, Plays, Run, Results, TypedField, Same, Names, Thing;
    StartInv();
    assert Carries(Start.objs, [], []);
    PlayCarries(Start, [], [], calls, ops);
    assert [] + calls == calls;
  }

  lemma RootCanFinish(sch: R.Schema, calls: seq<Call>, ops: seq<Op>, t: nat, k: nat, identifier: seq<byte>)
    requires (StartInv(); CanRun(Start, ops) && Plays(Start, [], calls, ops))
    requires TypedTable(sch, Described(calls), t, k) && (|identifier| == 0 || |identifier| == 4)
    ensures CanFinish(Run(Start, ops).st, Root(ops, k), identifier)
  {
    hide CanRun, Plays, Run, Results, TypedTable, Carries, Inv, CanFinish, Root, Closed;
    StartInv();
    PlayEnds(sch, calls, ops, t, k);
    ObjectCanFinish(Run(Start, ops), Root(ops, k), identifier);
  }

  lemma ObjectCanFinish(w: World, o: nat, identifier: seq<byte>)
    requires Inv(w) && o in w.objs && (|identifier| == 0 || |identifier| == 4)
    ensures CanFinish(w.st, o, identifier)
  {
    hide LiveVTables, ObjAt, Closed, VTablesKnown, PoolKnown;
  }

  // A play of the program that ends in a finished buffer whose root is call `k`.
  ghost predicate CanPlay(sch: R.Schema, calls: seq<Call>, ops: seq<Op>, t: nat, k: nat,
                          identifier: seq<byte>, sizePrefix: bool) {
    && R.SchemaOk(sch)
    && (StartInv(); CanRun(Start, ops) && Plays(Start, [], calls, ops))
    && TypedTable(sch, Described(calls), t, k)
    && (|identifier| == 0 || |identifier| == 4)
    && (RootCanFinish(sch, calls, ops, t, k, identifier);
        |Finish(Run(Start, ops).st, Root(ops, k), identifier, sizePrefix).data| < MAX_BUFFER_SIZE)
  }

  // A play builds the tree its program describes, whatever the settings.
  lemma PlayBuilds(sch: R.Schema, calls: seq<Call>, ops: seq<Op>, t: nat, k: nat, identifier: seq<byte>, sizePrefix: bool)
    requires CanPlay(sch, calls, ops, t, k, identifier, sizePrefix)
    ensures CanBuild(sch, ops, t, Root(ops, k), identifier, sizePrefix)
    ensures Intended(sch, ops, t, Root(ops, k), identifier, sizePrefix) == Meaning(sch, calls, t, k)
  {
    hide CanFinishRun, Objects, TypedTable, R.SchemaOk, Built, Root, Described;
    PlayFinishes(sch, calls, ops, t, k, identifier, sizePrefix);
    PlayMeans(sch, calls, ops, t, k, identifier, sizePrefix);
  }

  lemma PlayFinishes(sch: R.Schema, calls: seq<Call>, ops: seq<Op>, t: nat, k: nat, identifier: seq<byte>, sizePrefix: bool)
    requires CanPlay(sch, calls, ops, t, k, identifier, sizePrefix)
    ensures (StartInv(); CanRun(Start, ops)) && CanFinishRun(ops, Root(ops, k), identifier, sizePrefix)
  {
    StartInv();
    RootCanFinish(sch, calls, ops, t, k, identifier);
    hide CanRun, Plays, Run, Results, TypedTable, Inv, CanFinish, Finish, R.SchemaOk, Root;
  }

  lemma PlayMeans(sch: R.Schema, calls: seq<Call>, ops: seq<Op>, t: nat, k: nat, identifier: seq<byte>, sizePrefix: bool)
    requires CanPlay(sch, calls, ops, t, k, identifier, sizePrefix)
    ensures (StartInv(); CanRun(Start, ops)) && TypedTable(sch, Objects(ops), t, Root(ops, k))
    ensures Built(sch, Objects(ops), t, Root(ops, k)) == Meaning(sch, calls, t, k)
  {
    StartInv();
    PlayEnds(sch, calls, ops, t, k);
    hide CanRun, Plays, Run, Results, TypedTable, Carries, Inv, Closed, CanFinish, Finish, R.SchemaOk, Built;
    var objs, rs := Run(Start, ops).objs, Results(Start, [], ops);
    SameTypes(sch, objs, rs, calls, t, k);
    SameTrees(sch, objs, rs, calls, t, k);
  }

  // Two plays of one program, under settings changed at will in either: both
  // buffers read back as the tree of the program, and the verifier gives both
  // the same verdict.
  lemma SettingsAreInvisible(sch: R.Schema, calls: seq<Call>, ops1: seq<Op>, ops2: seq<Op>, t: nat, k: nat,
                             identifier: seq<byte>, sizePrefix: bool, fuel: nat, lim: V.Limits)
    requires CanPlay(sch, calls, ops1, t, k, identifier, sizePrefix)
    requires CanPlay(sch, calls, ops2, t, k, identifier, sizePrefix)
    requires fuel >= R.Depth(Meaning(sch, calls, t, k))
    ensures Decoded(sch, calls, ops1, t, k, identifier, sizePrefix, fuel) == Some(Meaning(sch, calls, t, k))
    ensures Decoded(sch, calls, ops2, t, k, identifier, sizePrefix, fuel) == Some(Meaning(sch, calls, t, k))
    ensures Accepted(sch, calls, ops1, t, k, identifier, sizePrefix, lim)
       <==> Accepted(sch, calls, ops2, t, k, identifier, sizePrefix, lim)
  {
    PlayDecodes(sch, calls, ops1, t, k, identifier, sizePrefix, fuel, lim);
    PlayDecodes(sch, calls, ops2, t, k, identifier, sizePrefix, fuel, lim);
  }

  // What the accessors make of the buffer of a play.
  ghost function Decoded(sch: R.Schema, calls: seq<Call>, ops: seq<Op>, t: nat, k: nat,
                         identifier: seq<byte>, sizePrefix: bool, fuel: nat): Option<R.Tree>
    requires CanPlay(sch, calls, ops, t, k, identifier, sizePrefix)
  {
    PlayBuilds(sch, calls, ops, t, k, identifier, sizePrefix);
    var d := Buffer(sch, ops, t, Root(ops, k), identifier, sizePrefix);
    var pos :- R.RootPos(d, RootAt(sizePrefix));
    R.ReadTable(sch, d, t, pos, fuel)
  }

  ghost predicate Accepted(sch: R.Schema, calls: seq<Call>, ops: seq<Op>, t: nat, k: nat,
                           identifier: seq<byte>, sizePrefix: bool, lim: V.Limits)
    requires CanPlay(sch, calls, ops, t, k, identifier, sizePrefix)
  {
    PlayBuilds(sch, calls, ops, t, k, identifier, sizePrefix);
    var d := Buffer(sch, ops, t, Root(ops, k), identifier, sizePrefix);
    V.VerifyBuffer(sch, d, t, sizePrefix, identifier, lim).ok
  }

  lemma PlayDecodes(sch: R.Schema, calls: seq<Call>, ops: seq<Op>, t: nat, k: nat,
                    identifier: seq<byte>, sizePrefix: bool, fuel: nat, lim: V.Limits)
    requires CanPlay(sch, calls, ops, t, k, identifier, sizePrefix)
    requires fuel >= R.Depth(Meaning(sch, calls, t, k))
    ensures var tree := Meaning(sch, calls, t, k);
      && Decoded(sch, calls, ops, t, k, identifier, sizePrefix, fuel) == Some(tree)
      && (Accepted(sch, calls, ops, t, k, identifier, sizePrefix, lim)
          <==> R.Depth(tree) <= lim.maxDepth && (R.Count(tree) <= lim.maxTables || lim.maxTables == V.MAX_32))
  {
    hide CanRun, Plays, TypedTable, Finish, R.SchemaOk, CanBuild, Buffer, Intended, R.ReadTable, R.RootPos, V.VerifyBuffer, Root, R.Depth, R.Count, Meaning;
    PlayBuilds(sch, calls, ops, t, k, identifier, sizePrefix);
    BuiltBufferReadsBack(sch, ops, t, Root(ops, k), identifier, sizePrefix, fuel);
    BuiltBufferVerifies(sch, ops, t, Root(ops, k), identifier, sizePrefix, lim);
  }

  // The same for one program under two fixed settings of sharing, vtable
  // deduplication and forced defaults.
  lemma ReplaysAgree(sch: R.Schema, calls: seq<Call>, f: Settings, g: Settings, t: nat, k: nat,
                     identifier: seq<byte>, sizePrefix: bool, fuel: nat)
    requires Fits(Prepared(f), [], calls, f.share) && Fits(Prepared(g), [], calls, g.share)
    requires CanPlay(sch, calls, Played(calls, f), t, k, identifier, sizePrefix)
    requires CanPlay(sch, calls, Played(calls, g), t, k, identifier, sizePrefix)
    requires fuel >= R.Depth(Meaning(sch, calls, t, k))
    ensures Decoded(sch, calls, Played(calls, f), t, k, identifier, sizePrefix, fuel)
         == Decoded(sch, calls, Played(calls, g), t, k, identifier, sizePrefix, fuel)
         == Some(Meaning(sch, calls, t, k))
  {
    hide Played, CanPlay, Decoded, Meaning, R.Depth;
    SettingsAreInvisible(sch, calls, Played(calls, f), Played(calls, g), t, k, identifier, sizePrefix, fuel,
      V.Limits(0, 0));
  }
}
