// Vectors of tables sorted by a key field, and looking a key up in them.
module SortedTables {
  import opened Options
  import opened Bytes
  import opened Ordering
  import opened Sorting
  import opened BuilderSpec
  import opened Layout
  import opened Runs
  import opened RunInvariant
  import opened ReadBack
  import opened Reflection
  import R = Reader

  // ------------------------------------------------------------------- keys
  // The generated tables are keyed by a string, or by a signed 64-bit number
  // in the case of enum values.

  datatype Key = Text(chars: seq<byte>) | Number(value: int)

  predicate KeyField(f: R.FieldSpec) {
    FieldId(f.id) && (f.kind.KString? || (f.kind.KScalar? && f.kind.size == 8 && f.kind.def < Range(8)))
  }

  // KeyCompareLessThan: the order of strings, or of numbers.
  predicate KeyLess(a: Key, b: Key) {
    match a
    case Text(s) => b.Number? || StringLessThan(s, b.chars)
    case Number(i) => b.Number? && i < b.value
  }

  lemma KeyOrder()
    ensures StrictTotal(KeyLess)
  {
    hide StringLessThan;
    forall a, b, c
      ensures !KeyLess(a, a)
      ensures a == b || KeyLess(a, b) || KeyLess(b, a)
      ensures KeyLess(a, b) && KeyLess(b, c) ==> KeyLess(a, c)
    {
      StringOrderIsStrictTotal(if a.Text? then a.chars else [], if b.Text? then b.chars else [], if c.Text? then c.chars else []);
    }
  }

  function AsNumber(v: nat): Key {
    Number(if v < Range(8) then Signed(8, v) else 0)
  }

  // The key of the table at position `q`, as the comparators read it.
  function StoredKey(d: seq<byte>, f: R.FieldSpec, q: int): Key {
    if f.kind.KScalar? then
      match R.GetField(d, q, f.id, 8, f.kind.def)
      case Some(v) => AsNumber(v)
      case None => Number(0)
    else
      match R.GetPointer(d, q, f.id)
      case Some(To(pos)) => if R.ReadString(d, pos).Some? then Text(R.ReadString(d, pos).value) else Text([])
      case _ => Text([])
  }

  // `std::sort` with the comparator, which reads the unfinished buffer.
  function SortByKey(d: seq<byte>, f: R.FieldSpec, refs: seq<nat>): (r: seq<nat>)
    ensures |r| == |refs|
  {
    Sort(KeyLess, o => StoredKey(d, f, |d| - o), refs)
  }

  function CreateVectorOfSortedTables(st: State, f: R.FieldSpec, refs: seq<nat>): State
    requires forall i :: 0 <= i < |refs| ==> refs[i] <= |st.data|
  {
    SortKeeps(st.data, f, refs, |st.data|);
    CreateOffsetVector(st, SortByKey(st.data, f, refs))
  }

  lemma SortKeeps(d: seq<byte>, f: R.FieldSpec, refs: seq<nat>, bound: nat)
    requires forall i :: 0 <= i < |refs| ==> refs[i] <= bound
    ensures forall i :: 0 <= i < |refs| ==> SortByKey(d, f, refs)[i] in refs && SortByKey(d, f, refs)[i] <= bound
  {
    var sorted := SortByKey(d, f, refs);
    forall i | 0 <= i < |refs| ensures sorted[i] in refs && sorted[i] <= bound {
      assert sorted[i] in sorted;
      SortMembers(KeyLess, o => StoredKey(d, f, |d| - o), refs, sorted[i]);
    }
  }

  // The key field of the table holds a key; a number may be absent, which
  // stands for the default.
  ghost predicate Keyed(objs: map<nat, Obj>, f: R.FieldSpec, o: nat) {
    && o in objs && objs[o].OTable?
    && var fields := objs[o].fields;
       if f.kind.KScalar?
       then f.id in fields ==> fields[f.id].FScalar? && fields[f.id].size == 8 && fields[f.id].def == f.kind.def
       else f.id in fields && fields[f.id].FRef? && IsString(objs, fields[f.id].ref)
  }

  ghost function KeyOf(objs: map<nat, Obj>, f: R.FieldSpec, o: nat): Key
    requires Keyed(objs, f, o)
  {
    var fields := objs[o].fields;
    if f.kind.KScalar? then AsNumber(if f.id in fields then fields[f.id].value else f.kind.def)
    else Text(objs[fields[f.id].ref].chars)
  }

  lemma NumberKeyIs(d: seq<byte>, m: nat, objs: map<nat, Obj>, f: R.FieldSpec, o: nat, q: int)
    requires Holds(d, m, objs) && KeyField(f) && f.kind.KScalar? && Keyed(objs, f, o) && q == |d| - o
    ensures StoredKey(d, f, q) == KeyOf(objs, f, o)
  {
    FieldTable(d, m, objs, o);
    hide Holds, R.GetField, AsNumber;
    ReadsScalarField(d, m, o, objs[o].fields, objs[o].vtOff, objs[o].vtable, f.id, 8, f.kind.def);
  }

  lemma StringHeld(d: seq<byte>, m: nat, objs: map<nat, Obj>, k: nat)
    requires Holds(d, m, objs) && IsString(objs, k)
    ensures StringAt(d, k, objs[k].chars) && |d| < MAX_BUFFER_SIZE
  {
    assert ObjAt(d, m, k, objs[k]);
  }

  lemma TextStored(d: seq<byte>, f: R.FieldSpec, q: int, pos: int, s: seq<byte>)
    requires !f.kind.KScalar? && R.GetPointer(d, q, f.id) == Some(R.To(pos)) && R.ReadString(d, pos) == Some(s)
    ensures StoredKey(d, f, q) == Text(s)
  {
    hide R.GetPointer, R.ReadString;
  }

  // The pointer of the field at position `q` leads to position `pos`.
  lemma TextPointer(d: seq<byte>, m: nat, objs: map<nat, Obj>, f: R.FieldSpec, o: nat, q: int, pos: int)
    requires Holds(d, m, objs) && FieldId(f.id) && f.kind.KString? && Keyed(objs, f, o)
    requires q == |d| - o && pos == |d| - objs[o].fields[f.id].ref
    ensures R.GetPointer(d, q, f.id) == Some(R.To(pos))
  {
    FieldTable(d, m, objs, o);
    hide Holds, TableAt, R.GetPointer;
    ReadsRefField(d, m, o, objs[o].fields, objs[o].vtOff, objs[o].vtable, f.id);
  }

  lemma TextAt(d: seq<byte>, m: nat, objs: map<nat, Obj>, k: nat, pos: int)
    requires Holds(d, m, objs) && IsString(objs, k) && pos == |d| - k
    ensures StringAt(d, k, objs[k].chars) && R.ReadString(d, pos) == Some(objs[k].chars)
  {
    StringHeld(d, m, objs, k);
    hide Holds, StringAt, R.ReadString;
    ReadsString(d, k, objs[k].chars);
  }

  lemma TextKeyIs(d: seq<byte>, m: nat, objs: map<nat, Obj>, f: R.FieldSpec, o: nat, q: int, pos: int)
    requires Holds(d, m, objs) && KeyField(f) && f.kind.KString? && Keyed(objs, f, o)
    requires q == |d| - o && pos == |d| - objs[o].fields[f.id].ref
    ensures StoredKey(d, f, q) == KeyOf(objs, f, o)
    ensures R.GetPointer(d, q, f.id) == Some(R.To(pos))
    ensures StringAt(d, objs[o].fields[f.id].ref, KeyOf(objs, f, o).chars)
  {
    hide Holds, StringAt, R.GetPointer, R.ReadString, StoredKey;
    TextPointer(d, m, objs, f, o, q, pos);
    TextAt(d, m, objs, objs[o].fields[f.id].ref, pos);
    TextStored(d, f, q, pos, objs[objs[o].fields[f.id].ref].chars);
  }

  // The comparator reads the key the table was given.
  lemma StoredKeyIs(d: seq<byte>, m: nat, objs: map<nat, Obj>, f: R.FieldSpec, o: nat, q: int)
    requires Holds(d, m, objs) && KeyField(f) && Keyed(objs, f, o) && q == |d| - o
    ensures StoredKey(d, f, q) == KeyOf(objs, f, o)
  {
    hide Holds, KeyOf, StoredKey;
    if f.kind.KScalar? {
      NumberKeyIs(d, m, objs, f, o, q);
    } else {
      TextKeyIs(d, m, objs, f, o, q, |d| - objs[o].fields[f.id].ref);
    }
  }

  ghost predicate AllKeyed(objs: map<nat, Obj>, f: R.FieldSpec, refs: seq<nat>) {
    forall i :: 0 <= i < |refs| ==> Keyed(objs, f, refs[i])
  }

  ghost function KeysOf(objs: map<nat, Obj>, f: R.FieldSpec, refs: seq<nat>): (ks: seq<Key>)
    requires AllKeyed(objs, f, refs)
    ensures |ks| == |refs|
  {
    seq(|refs|, i requires 0 <= i < |refs| => assert Keyed(objs, f, refs[i]); KeyOf(objs, f, refs[i]))
  }

  ghost predicate InKeyOrder(ks: seq<Key>) {
    forall i, j :: 0 <= i < j < |ks| ==> !KeyLess(ks[j], ks[i])
  }

  lemma MembersKeyed(objs: map<nat, Obj>, f: R.FieldSpec, refs: seq<nat>, sorted: seq<nat>)
    requires AllKeyed(objs, f, refs) && multiset(sorted) == multiset(refs)
    ensures AllKeyed(objs, f, sorted)
  {
    SameMembers(sorted, refs);
    hide Keyed;
    forall i | 0 <= i < |sorted| ensures Keyed(objs, f, sorted[i]) {
      assert sorted[i] in sorted;
      var j :| 0 <= j < |refs| && refs[j] == sorted[i];
    }
  }

  lemma SameMembers(s: seq<nat>, r: seq<nat>)
    requires multiset(s) == multiset(r)
    ensures forall o :: o in s <==> o in r
  {
    forall o ensures o in s <==> o in r {
      assert o in s <==> o in multiset(s);
      assert o in r <==> o in multiset(r);
    }
  }

  // The vector holds the same tables, in key order.
  lemma SortByKeySorts(d: seq<byte>, m: nat, objs: map<nat, Obj>, f: R.FieldSpec, refs: seq<nat>)
    requires Holds(d, m, objs) && KeyField(f) && AllKeyed(objs, f, refs)
    ensures multiset(SortByKey(d, f, refs)) == multiset(refs)
    ensures AllKeyed(objs, f, SortByKey(d, f, refs)) && InKeyOrder(KeysOf(objs, f, SortByKey(d, f, refs)))
  {
    var key := o => StoredKey(d, f, |d| - o);
    var sorted := SortByKey(d, f, refs);
    KeyOrder();
    SortContents(KeyLess, key, refs);
    SortSorts(KeyLess, key, refs);
    hide Holds, Keyed, KeyOf, Sort, StoredKey, KeyLess, StrictTotal, KeyField;
    MembersKeyed(objs, f, refs, sorted);
    StoredKeys(d, m, objs, f, sorted);
    forall i, j | 0 <= i < j < |sorted|
      ensures !KeyLess(KeysOf(objs, f, sorted)[j], KeysOf(objs, f, sorted)[i])
    {
      assert !KeyLess(key(sorted[j]), key(sorted[i]));
    }
  }

  lemma StoredKeys(d: seq<byte>, m: nat, objs: map<nat, Obj>, f: R.FieldSpec, refs: seq<nat>)
    requires Holds(d, m, objs) && KeyField(f) && AllKeyed(objs, f, refs)
    ensures forall i :: 0 <= i < |refs| ==> StoredKey(d, f, |d| - refs[i]) == KeysOf(objs, f, refs)[i]
  {
    hide Holds, Keyed, KeyOf, StoredKey, KeyField;
    forall i | 0 <= i < |refs| ensures StoredKey(d, f, |d| - refs[i]) == KeysOf(objs, f, refs)[i] {
      StoredKeyIs(d, m, objs, f, refs[i], |d| - refs[i]);
    }
  }

  // ------------------------------------------------------------ LookupByKey

  // Where the characters of a table's key start.
  function KeyChars(d: seq<byte>, q: int, f: nat): int {
    match R.GetPointer(d, q, f)
    case Some(To(pos)) => pos + 4
    case _ => -1
  }

  function Sign(b: bool): int {
    if b then 1 else 0
  }

  // KeyCompareWithValue: `strcmp` with the terminated search key, or the
  // difference of two comparisons.
  function CompareWithValue(d: seq<byte>, q: int, f: R.FieldSpec, k: Key): int {
    match k
    case Text(s) =>
      var c := KeyChars(d, q, f.id);
      assert (s + [0])[|s|] == 0;
      if 0 <= c && Terminated(d, c) then StrCmp(d, c, s + [0], 0) else 0
    case Number(i) =>
      var v := StoredKey(d, f, q);
      if v.Number? then Sign(v.value > i) - Sign(v.value < i) else 0
  }

  // The comparison `std::bsearch` makes with element `i`, its operands exchanged.
  function ElementCompare(d: seq<byte>, vec: int, i: nat, f: R.FieldSpec, k: Key): int {
    match R.ElementPos(d, vec, i)
    case Some(q) => -CompareWithValue(d, q, f, k)
    case None => 0
  }

  function Comparisons(d: seq<byte>, vec: int, n: nat, f: R.FieldSpec, k: Key): (cmp: seq<int>)
    ensures |cmp| == n
  {
    seq(n, i requires 0 <= i < n => ElementCompare(d, vec, i, f, k))
  }

  function LookupByKey(d: seq<byte>, vec: int, f: R.FieldSpec, k: Key): Option<R.Pointer> {
    var n :- R.ReadU(d, vec, 4);
    var i := BSearch(Comparisons(d, vec, n, f, k), 0, n);
    if i == -1 then Some(R.Null)
    else
      var q :- R.ElementPos(d, vec, i);
      Some(R.To(q))
  }

  // A C string as a search key has no embedded NUL.
  predicate SearchKey(f: R.FieldSpec, k: Key) {
    if f.kind.KScalar? then k.Number? else k.Text? && NulFree(k.chars)
  }

  lemma KeyBytes(d: seq<byte>, ref: nat, s: seq<byte>, c: int)
    requires StringAt(d, ref, s) && NulFree(s) && c == |d| - ref + 4
    ensures 0 <= c && Terminated(d, c) && CString(d, c) == s
  {
    hide ToLE;
    assert d[|d| - (ref - 4)..][..|s|] == d[c..c + |s|];
    assert d[|d| - (ref - 4 - |s|)..][..1][0] == d[c + |s|];
    CStringReads(d, c, s);
  }

  lemma TextCharsRead(d: seq<byte>, m: nat, objs: map<nat, Obj>, f: R.FieldSpec, o: nat, q: int)
    requires Holds(d, m, objs) && KeyField(f) && Keyed(objs, f, o) && q == |d| - o
    requires f.kind.KString? && SearchKey(f, KeyOf(objs, f, o))
    ensures var c := KeyChars(d, q, f.id);
      0 <= c && Terminated(d, c) && CString(d, c) == KeyOf(objs, f, o).chars
  {
    TextKeyIs(d, m, objs, f, o, q, |d| - objs[o].fields[f.id].ref);
    hide Holds, StringAt, Terminated, R.GetPointer, NulFree;
    KeyBytes(d, objs[o].fields[f.id].ref, KeyOf(objs, f, o).chars, KeyChars(d, q, f.id));
  }

  lemma TextCompare(d: seq<byte>, c: nat, s: seq<byte>, k: seq<byte>)
    requires Terminated(d, c) && CString(d, c) == s && NulFree(k)
    ensures Terminated(k + [0], 0)
    ensures var r := StrCmp(d, c, k + [0], 0);
      (r > 0 <==> StringLessThan(k, s)) && (r == 0 <==> s == k)
  {
    CStringReads(k + [0], 0, k);
    StrCmpSign(d, c, k + [0], 0);
    hide Terminated, NulFree, StringLessThan, CString;
    CompareReverse(k, s);
    CompareEqual(s, k);
    StringLessThanIsLexicographic(k, s);
  }

  // The outcome with the table at offset `o` is that of its key.
  lemma CompareIs(d: seq<byte>, m: nat, objs: map<nat, Obj>, f: R.FieldSpec, o: nat, q: int, k: Key)
    requires Holds(d, m, objs) && KeyField(f) && Keyed(objs, f, o) && q == |d| - o
    requires SearchKey(f, k) && SearchKey(f, KeyOf(objs, f, o))
    ensures var r := CompareWithValue(d, q, f, k);
      (r > 0 <==> KeyLess(k, KeyOf(objs, f, o))) && (r == 0 <==> KeyOf(objs, f, o) == k)
  {
    hide Holds, Keyed, StoredKey, Terminated, CString, KeyChars, NulFree, StringLessThan;
    if f.kind.KScalar? {
      NumberKeyIs(d, m, objs, f, o, q);
    } else {
      TextCharsRead(d, m, objs, f, o, q);
      TextCompare(d, KeyChars(d, q, f.id), KeyOf(objs, f, o).chars, k.chars);
    }
  }

  ghost predicate SearchKeys(objs: map<nat, Obj>, f: R.FieldSpec, refs: seq<nat>) {
    AllKeyed(objs, f, refs) && forall i :: 0 <= i < |refs| ==> SearchKey(f, KeysOf(objs, f, refs)[i])
  }

  ghost predicate ElementsLead(d: seq<byte>, vec: int, refs: seq<nat>) {
    forall i :: 0 <= i < |refs| ==> R.ElementPos(d, vec, i) == Some(|d| - refs[i])
  }

  lemma AllElements(d: seq<byte>, vec: nat, refs: seq<nat>)
    requires RefsAt(d, vec, refs) && |d| < MAX_BUFFER_SIZE
    ensures ElementsLead(d, |d| - vec, refs)
  {
    hide RefsAt, R.ElementPos;
    forall i | 0 <= i < |refs| ensures R.ElementPos(d, |d| - vec, i) == Some(|d| - refs[i]) {
      ReadsElement(d, vec, refs, i);
    }
  }

  lemma ComparisonsAre(d: seq<byte>, m: nat, objs: map<nat, Obj>, vec: int, refs: seq<nat>, f: R.FieldSpec, k: Key)
    requires Holds(d, m, objs) && ElementsLead(d, vec, refs) && KeyField(f)
    requires SearchKeys(objs, f, refs) && SearchKey(f, k)
    ensures Outcomes(KeyLess, KeysOf(objs, f, refs), k, Comparisons(d, vec, |refs|, f, k))
  {
    hide Holds, Keyed, KeyOf, KeyLess, SearchKey, KeyField, SearchKeys, ElementsLead, Comparisons, KeysOf;
    SearchKeysFacts(objs, f, refs);
    forall i | 0 <= i < |refs|
      ensures Comparisons(d, vec, |refs|, f, k)[i] < 0 <==> KeyLess(k, KeysOf(objs, f, refs)[i])
      ensures Comparisons(d, vec, |refs|, f, k)[i] == 0 <==> KeysOf(objs, f, refs)[i] == k
    {
      ComparisonIs(d, m, objs, vec, refs, f, k, i);
    }
  }

  lemma ComparisonIs(d: seq<byte>, m: nat, objs: map<nat, Obj>, vec: int, refs: seq<nat>, f: R.FieldSpec, k: Key, i: nat)
    requires Holds(d, m, objs) && ElementsLead(d, vec, refs) && KeyField(f)
    requires SearchKeys(objs, f, refs) && SearchKey(f, k) && i < |refs|
    ensures Comparisons(d, vec, |refs|, f, k)[i] < 0 <==> KeyLess(k, KeysOf(objs, f, refs)[i])
    ensures Comparisons(d, vec, |refs|, f, k)[i] == 0 <==> KeysOf(objs, f, refs)[i] == k
  {
    hide Holds, R.ElementPos, Keyed, KeyOf, KeyLess, SearchKey, KeyField, ElementCompare, SearchKeys;
    SearchKeysFacts(objs, f, refs);
    ElementIs(d, m, objs, f, refs[i], vec, i, |d| - refs[i], k);
  }

  lemma ElementIs(d: seq<byte>, m: nat, objs: map<nat, Obj>, f: R.FieldSpec, o: nat, vec: int, i: nat, q: int, k: Key)
    requires Holds(d, m, objs) && KeyField(f) && Keyed(objs, f, o) && q == |d| - o && R.ElementPos(d, vec, i) == Some(q)
    requires SearchKey(f, k) && SearchKey(f, KeyOf(objs, f, o))
    ensures var c := ElementCompare(d, vec, i, f, k);
      (c < 0 <==> KeyLess(k, KeyOf(objs, f, o))) && (c == 0 <==> KeyOf(objs, f, o) == k)
  {
    hide Holds, R.ElementPos, Keyed, KeyOf, KeyLess, SearchKey, CompareWithValue, KeyField;
    CompareIs(d, m, objs, f, o, q, k);
  }

  lemma SearchKeysFacts(objs: map<nat, Obj>, f: R.FieldSpec, refs: seq<nat>)
    requires SearchKeys(objs, f, refs)
    ensures AllKeyed(objs, f, refs)
    ensures forall i :: 0 <= i < |refs| ==> Keyed(objs, f, refs[i]) && SearchKey(f, KeyOf(objs, f, refs[i]))
  {
    hide Keyed, KeyOf, SearchKey;
    forall i | 0 <= i < |refs| ensures Keyed(objs, f, refs[i]) && SearchKey(f, KeyOf(objs, f, refs[i])) {
      assert SearchKey(f, KeysOf(objs, f, refs)[i]);
    }
  }

  // A table with the key is returned exactly when the vector holds one.
  ghost predicate Found(r: Option<R.Pointer>, n: nat, refs: seq<nat>, ks: seq<Key>, k: Key) {
    && r.Some? && |ks| == |refs|
    && (r.value.To? <==> k in ks)
    && (r.value.To? ==> exists i :: 0 <= i < |refs| && ks[i] == k && r.value.pos == n - refs[i])
  }

  lemma LookupResult(d: seq<byte>, vec: int, refs: seq<nat>, ks: seq<Key>, f: R.FieldSpec, k: Key)
    requires R.ReadU(d, vec, 4) == Some(|refs|) && ElementsLead(d, vec, refs) && |ks| == |refs|
    requires Outcomes(KeyLess, ks, k, Comparisons(d, vec, |refs|, f, k)) && InKeyOrder(ks)
    ensures Found(LookupByKey(d, vec, f, k), |d|, refs, ks, k)
  {
    hide R.ElementPos, Comparisons, R.ReadU, Searchable, KeyLess, StrictTotal;
    var cmp := Comparisons(d, vec, |refs|, f, k);
    KeyOrder();
    OrderedSearchable(KeyLess, ks, k, cmp);
    var i := BSearch(cmp, 0, |refs|);
    if i != -1 {
      assert ks[i] == k;
    } else if k in ks {
      var j :| 0 <= j < |ks| && ks[j] == k;
      BSearchFinds(cmp, 0, |refs|, j);
    }
  }

  // Looking a key up returns a table with that key exactly when there is one.
  lemma LookupFindsExactly(d: seq<byte>, m: nat, objs: map<nat, Obj>, vec: nat, refs: seq<nat>, f: R.FieldSpec, k: Key)
    requires Holds(d, m, objs) && vec in objs && objs[vec] == ORefs(refs) && KeyField(f)
    requires SearchKeys(objs, f, refs) && InKeyOrder(KeysOf(objs, f, refs)) && SearchKey(f, k)
    ensures Found(LookupByKey(d, |d| - vec, f, k), |d|, refs, KeysOf(objs, f, refs), k)
  {
    hide RefsAt, R.ElementPos, Comparisons, R.ReadU, LookupByKey, Found, InKeyOrder, SearchKey, KeyField, SearchKeys, KeysOf,
      ElementsLead, Outcomes;
    SearchKeysFacts(objs, f, refs);
    assert ObjAt(d, m, vec, objs[vec]) && |d| < MAX_BUFFER_SIZE;
    hide Holds;
    ReadsRefsLength(d, vec, refs);
    AllElements(d, vec, refs);
    ComparisonsAre(d, m, objs, |d| - vec, refs, f, k);
    LookupResult(d, |d| - vec, refs, KeysOf(objs, f, refs), f, k);
  }

  // ------------------------------------------------------ the generated keys

  // The tables of the reflection schema that have a key, and which field it is:
  // the value of an enum value, and the first field, a string, of the others.
  predicate HasKey(t: nat) {
    KEY_VALUE <= t <= SERVICE
  }

  function KeyFieldOf(t: nat): (f: R.FieldSpec)
    requires HasKey(t)
    ensures KeyField(f)
  {
    if t == ENUM_VAL then Scalar(6, 8, 0) else R.FieldSpec(4, R.KString, true)
  }

  // A table of such a type has its key set.
  lemma TypedIsKeyed(objs: map<nat, Obj>, t: nat, o: nat)
    requires HasKey(t) && TypedTable(ReflectionSchema, objs, t, o)
    ensures Keyed(objs, KeyFieldOf(t), o)
  {
    var k := if t == ENUM_VAL then 1 else 0;
    assert ReflectionSchema[t][k] == KeyFieldOf(t);
    assert TypedField(ReflectionSchema, objs, ReflectionSchema[t][k], o);
  }

  // ----------------------------------------------------------- whole builders

  // The step that makes a vector of the sorted references leaves the state of
  // CreateVectorOfSortedTables, and records the vector.
  lemma SortedStep(w: World, f: R.FieldSpec, refs: seq<nat>)
    requires Inv(w) && CanStep(w, MakeRefs(refs))
    ensures forall i :: 0 <= i < |refs| ==> refs[i] <= |w.st.data|
    ensures var op := MakeRefs(SortByKey(w.st.data, f, refs)); var t := CreateVectorOfSortedTables(w.st, f, refs);
      && CanStep(w, op) && Step(w, op).st == t && Result(w, op) == |t.data|
      && Step(w, op).objs == w.objs[|t.data| := ORefs(SortByKey(w.st.data, f, refs))]
  {
    var sorted := SortByKey(w.st.data, f, refs);
    RefsBelow(w, refs);
    SortKeeps(w.st.data, f, refs, |w.st.data|);
    hide Inv, SortByKey, CreateOffsetVector;
    assert CanStep(w, MakeRefs(sorted)) by {
      forall i | 0 <= i < |sorted| ensures sorted[i] in w.objs {
        assert sorted[i] in refs;
      }
    }
  }

  lemma WorldHolds(w: World)
    requires Inv(w) && |w.st.data| < MAX_BUFFER_SIZE
    ensures Holds(w.st.data, w.st.minalign, w.objs)
  {
    hide ObjAt;
  }

  lemma KeysKept(w: World, x: World, f: R.FieldSpec, refs: seq<nat>)
    requires Preserves(w, x) && AllKeyed(w.objs, f, refs)
    ensures AllKeyed(x.objs, f, refs) && KeysOf(x.objs, f, refs) == KeysOf(w.objs, f, refs)
  {
    hide Extends;
    forall i | 0 <= i < |refs| ensures Keyed(x.objs, f, refs[i]) && KeyOf(x.objs, f, refs[i]) == KeyOf(w.objs, f, refs[i]) {
      assert Keyed(w.objs, f, refs[i]);
    }
  }

  lemma SearchKeysSorted(objs: map<nat, Obj>, f: R.FieldSpec, refs: seq<nat>, sorted: seq<nat>)
    requires SearchKeys(objs, f, refs) && AllKeyed(objs, f, sorted) && multiset(sorted) == multiset(refs)
    ensures SearchKeys(objs, f, sorted)
    ensures forall k :: k in KeysOf(objs, f, sorted) <==> k in KeysOf(objs, f, refs)
  {
    SameMembers(sorted, refs);
    KeysAmong(objs, f, sorted, refs);
    KeysAmong(objs, f, refs, sorted);
    hide Keyed, KeyOf, SearchKey;
    var ks := KeysOf(objs, f, sorted);
    forall i | 0 <= i < |sorted| ensures SearchKey(f, ks[i]) {
      assert ks[i] in ks;
      var j :| 0 <= j < |refs| && KeysOf(objs, f, refs)[j] == ks[i];
      assert SearchKey(f, KeysOf(objs, f, refs)[j]);
    }
  }

  lemma KeysAmong(objs: map<nat, Obj>, f: R.FieldSpec, a: seq<nat>, b: seq<nat>)
    requires AllKeyed(objs, f, a) && AllKeyed(objs, f, b) && forall o :: o in a ==> o in b
    ensures forall k :: k in KeysOf(objs, f, a) ==> k in KeysOf(objs, f, b)
  {
    hide Keyed, KeyOf;
    forall k | k in KeysOf(objs, f, a) ensures k in KeysOf(objs, f, b) {
      var i :| 0 <= i < |a| && KeysOf(objs, f, a)[i] == k;
      assert a[i] in b;
      var j :| 0 <= j < |b| && b[j] == a[i];
      assert KeysOf(objs, f, b)[j] == k;
    }
  }

  // The position returned is that of one of the given tables with this key.
  ghost predicate FoundAmong(r: Option<R.Pointer>, n: nat, objs: map<nat, Obj>, f: R.FieldSpec, refs: seq<nat>, k: Key)
    requires AllKeyed(objs, f, refs)
  {
    && r.Some?
    && (r.value.To? <==> k in KeysOf(objs, f, refs))
    && (r.value.To? ==> exists i :: 0 <= i < |refs| && KeysOf(objs, f, refs)[i] == k && r.value.pos == n - refs[i])
  }

  lemma FoundTransfers(r: Option<R.Pointer>, n: nat, objs: map<nat, Obj>, f: R.FieldSpec, refs: seq<nat>, sorted: seq<nat>, k: Key)
    requires AllKeyed(objs, f, refs) && AllKeyed(objs, f, sorted) && multiset(sorted) == multiset(refs)
    requires forall k :: k in KeysOf(objs, f, sorted) <==> k in KeysOf(objs, f, refs)
    requires Found(r, n, sorted, KeysOf(objs, f, sorted), k)
    ensures FoundAmong(r, n, objs, f, refs, k)
  {
    SameMembers(sorted, refs);
    hide Keyed, KeyOf;
    if r.value.To? {
      var i :| 0 <= i < |sorted| && KeysOf(objs, f, sorted)[i] == k && r.value.pos == n - sorted[i];
      assert sorted[i] in refs;
      var j :| 0 <= j < |refs| && refs[j] == sorted[i];
      assert KeysOf(objs, f, refs)[j] == k;
    }
  }

  // A vector made by CreateVectorOfSortedTables from keyed tables, in any buffer
  // that holds what was built after it.
  lemma LookupAfter(w: World, x: World, d: seq<byte>, m: nat, f: R.FieldSpec, refs: seq<nat>, k: Key)
    requires Inv(w) && CanStep(w, MakeRefs(refs)) && |w.st.data| < MAX_BUFFER_SIZE && KeyField(f)
    requires SearchKeys(w.objs, f, refs) && SearchKey(f, k)
    requires CanStep(w, MakeRefs(SortByKey(w.st.data, f, refs)))
    requires Preserves(Step(w, MakeRefs(SortByKey(w.st.data, f, refs))), x) && Holds(d, m, x.objs)
    ensures AllKeyed(x.objs, f, refs) && KeysOf(x.objs, f, refs) == KeysOf(w.objs, f, refs)
    ensures forall i :: 0 <= i < |refs| ==> refs[i] <= |w.st.data|
    ensures var vec := |CreateVectorOfSortedTables(w.st, f, refs).data|;
      FoundAmong(LookupByKey(d, |d| - vec, f, k), |d|, x.objs, f, refs, k)
  {
    var sorted := SortByKey(w.st.data, f, refs);
    hide Inv, Holds, CanStep, Preserves, SortByKey, Keyed, KeyOf, SearchKey, LookupByKey, Found, FoundAmong, InKeyOrder, KeyField;
    var vec := VectorStays(w, x, f, refs);
    SortedKeys(w, f, refs);
    hide Step;
    SearchKeysSorted(w.objs, f, refs, sorted);
    KeysKept(w, x, f, refs);
    KeysKept(w, x, f, sorted);
    LookupFindsExactly(d, m, x.objs, vec, sorted, f, k);
    FoundTransfers(LookupByKey(d, |d| - vec, f, k), |d|, x.objs, f, refs, sorted, k);
  }

  lemma VectorStays(w: World, x: World, f: R.FieldSpec, refs: seq<nat>) returns (vec: nat)
    requires Inv(w) && CanStep(w, MakeRefs(refs)) && CanStep(w, MakeRefs(SortByKey(w.st.data, f, refs)))
    requires Preserves(Step(w, MakeRefs(SortByKey(w.st.data, f, refs))), x)
    ensures forall i :: 0 <= i < |refs| ==> refs[i] <= |w.st.data|
    ensures vec == |CreateVectorOfSortedTables(w.st, f, refs).data|
    ensures Preserves(w, x) && vec in x.objs && x.objs[vec] == ORefs(SortByKey(w.st.data, f, refs))
  {
    hide Inv, CanStep, SortByKey, CreateVectorOfSortedTables, Extends, Step;
    var y := Step(w, MakeRefs(SortByKey(w.st.data, f, refs)));
    SortedStep(w, f, refs);
    StepPreserves(w, MakeRefs(SortByKey(w.st.data, f, refs)));
    PreservesTransitive(w, y, x);
    vec := |CreateVectorOfSortedTables(w.st, f, refs).data|;
    assert vec in y.objs && y.objs[vec] == ORefs(SortByKey(w.st.data, f, refs));
  }

  lemma SortedKeys(w: World, f: R.FieldSpec, refs: seq<nat>)
    requires Inv(w) && |w.st.data| < MAX_BUFFER_SIZE && KeyField(f) && AllKeyed(w.objs, f, refs)
    ensures var sorted := SortByKey(w.st.data, f, refs);
      multiset(sorted) == multiset(refs) && AllKeyed(w.objs, f, sorted) && InKeyOrder(KeysOf(w.objs, f, sorted))
  {
    WorldHolds(w);
    hide Inv, Holds, SortByKey, AllKeyed, InKeyOrder, KeyField;
    SortByKeySorts(w.st.data, w.st.minalign, w.objs, f, refs);
  }
}
