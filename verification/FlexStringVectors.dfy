// Typed vectors of strings, which are deprecated: the builder writes them, and
// the reader takes their elements for keys.
module FlexStringVectors {
  import opened Bytes
  import opened Ordering
  import opened Options
  import opened FlexWidth
  import opened FlexTypes
  import opened FlexReader
  import opened FlexSpec
  import opened FlexFields
  import opened FlexVectors
  import opened FlexObjects
  import opened FlexInvariant
  import opened FlexNuls

  // These values stand for strings, each with its terminator.
  ghost predicate AreStrings(buf: seq<byte>, vals: seq<Value>, texts: seq<seq<byte>>) {
    |vals| == |texts| && forall i :: 0 <= i < |vals| ==> vals[i].typ == STRING && StringAt(buf, vals[i].bits, texts[i])
  }

  // The same values, taken for keys.
  function Retyped(vals: seq<Value>): (r: seq<Value>)
    ensures |r| == |vals|
  {
    seq(|vals|, i requires 0 <= i < |vals| => vals[i].(typ := KEY))
  }

  function CutKeys(texts: seq<seq<byte>>): (r: seq<Tree>)
    ensures |r| == |texts|
  {
    seq(|texts|, i requires 0 <= i < |texts| => VKey(Cut(texts[i])))
  }

  lemma StringsAreKeys(buf: seq<byte>, vals: seq<Value>, texts: seq<seq<byte>>)
    requires AreStrings(buf, vals, texts)
    ensures AllMean(buf, Retyped(vals), CutKeys(texts)) && TypedElements(Retyped(vals), CutKeys(texts), KEY)
  {
    hide StringAt, Cut;
    forall i | 0 <= i < |vals| ensures Means(buf, Retyped(vals)[i], CutKeys(texts)[i]) {
      StringIsKey(buf, vals[i], texts[i]);
    }
  }

  lemma StringIsKey(buf: seq<byte>, v: Value, s: seq<byte>)
    requires v.typ == STRING && StringAt(buf, v.bits, s)
    ensures Means(buf, v.(typ := KEY), VKey(Cut(s)))
  {
    CStringCuts(buf, v.bits, s);
    hide CString, Terminated, Cut;
  }

  // Both kinds of element are written in the same way.
  lemma {:induction false} SameFields(head: seq<byte>, vals: seq<Value>, bw: Width)
    requires forall i :: 0 <= i < |vals| ==> vals[i].typ == STRING
    ensures WriteFields(head, Retyped(vals), bw) == WriteFields(head, vals, bw)
  {
    if vals != [] {
      var n := |vals| - 1;
      SameFields(head, vals[..n], bw);
      assert Retyped(vals)[..n] == Retyped(vals[..n]);
      hide WriteOffset, WriteScalar;
    }
  }

  lemma SameVector(buf: seq<byte>, vals: seq<Value>, bw: Width)
    requires vals != [] && forall i :: 0 <= i < |vals| ==> vals[i].typ == STRING
    ensures var (b, v) := CreateVector(buf, vals, true, false, None, bw);
      v.typ == VECTOR_STRING_DEPRECATED && CreateVector(buf, Retyped(vals), true, false, None, bw) == (b, v.(typ := VECTOR_KEY))
  {
    SameFields(VectorHead(buf, |vals|, false, None, bw), vals, bw);
    hide WriteFields, VectorHead;
    assert Retyped(vals)[0].typ == KEY;
  }

  lemma SameFit(vals: seq<Value>, head: nat, bw: Width)
    requires AllFit(vals, head, bw) && forall i :: 0 <= i < |vals| ==> vals[i].typ == STRING
    ensures AllFit(Retyped(vals), head, bw)
  {
    hide FieldPos, Capacity;
    forall k | 0 <= k < |vals| ensures Fits(Retyped(vals)[k], FieldPos(head, k, bw), bw) {
      assert Fits(vals[k], FieldPos(head, k, bw), bw);
    }
  }

  lemma ShownAsStrings(b: seq<byte>, v: Value, es: seq<Tree>)
    requires v.typ == VECTOR_KEY && Means(b, v, VTyped(VECTOR_KEY, es))
    ensures Means(b, v.(typ := VECTOR_STRING_DEPRECATED), VTyped(VECTOR_STRING_DEPRECATED, es))
  {
    hide TypedShow, Size;
  }

  lemma StringsTyped(buf: seq<byte>, vals: seq<Value>, texts: seq<seq<byte>>)
    requires AreStrings(buf, vals, texts)
    ensures TypedOk(vals, true, false) && TypedOk(Retyped(vals), true, false) && ElementType(Retyped(vals)) == KEY
    ensures forall i :: 0 <= i < |vals| ==> vals[i].typ == STRING
  {
    hide StringAt;
  }

  lemma StringsShow(buf: seq<byte>, vals: seq<Value>, texts: seq<seq<byte>>, bw: Width)
    requires AreStrings(buf, vals, texts) && vals != [] && |vals| < Capacity(bw)
    requires AllFit(vals, FieldLoc(|buf|, Prefix(false, None), bw), bw)
    ensures TypedOk(vals, true, false)
    ensures var (b, v) := CreateVector(buf, vals, true, false, None, bw);
      Means(b, v, VTyped(VECTOR_STRING_DEPRECATED, CutKeys(texts)))
  {
    hide AreStrings, AllMean, AllFit, FieldLoc, Means, TypedElements, CreateVector, TypedOk, Capacity, ElementType;
    StringsTyped(buf, vals, texts);
    StringsAreKeys(buf, vals, texts);
    SameFit(vals, FieldLoc(|buf|, Prefix(false, None), bw), bw);
    SameVector(buf, vals, bw);
    TypedVectorShows(buf, buf, Retyped(vals), CutKeys(texts), false, bw);
    var (b, v) := CreateVector(buf, Retyped(vals), true, false, None, bw);
    ShownAsStrings(b, v, CutKeys(texts));
  }

  // A typed vector of strings reads back as a typed vector of keys: each string
  // up to its first NUL.
  lemma StringVectorShows(st: State, start: nat, texts: seq<seq<byte>>)
    requires Roomy(st) && start < |st.stack| && AreStrings(st.buf, st.stack[start..], texts)
    ensures TypedOk(st.stack[start..], true, false)
    ensures var t := EndVector(st, start, true, false);
      |t.stack| == start + 1 && Means(t.buf, t.stack[start], VTyped(VECTOR_STRING_DEPRECATED, CutKeys(texts)))
  {
    var vals := st.stack[start..];
    var bw := VectorWidth(|st.buf|, vals, start, 1, st.force, None);
    hide AreStrings, AllFit, FieldLoc, VectorWidth, Means, CreateVector, TypedOk, Capacity;
    StringsTyped(st.buf, vals, texts);
    VectorFits(|st.buf|, vals, start, 1, st.force, None, false, bw);
    StringsShow(st.buf, vals, texts, bw);
  }
}
