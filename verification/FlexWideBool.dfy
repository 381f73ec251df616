// A boolean in a field of two bytes, as the builder writes it beside a number
// that needs two, and what `MutateBool` leaves there.
module FlexWideBool {
  import opened Bits
  import opened Bytes
  import opened Alignment
  import opened Options
  import opened FlexWidth
  import opened FlexTypes
  import opened FlexReader
  import opened FlexSpec
  import opened FlexMutate

  const Stack: seq<Value> := [Value(1, BOOL, 0), Value(300, INT, 1)]

  // The vector [true, 300]: size, elements and types, then the root.
  const Vector: seq<byte> := [2, 0, 1, 0, 44, 1, 105, 5]
  const Buffer: seq<byte> := Vector + [6, 41, 1]

  lemma WidthOf300()
    ensures WidthI(300) == 1 && WidthU(2) == 0 && WidthU(6) == 0
    ensures Wrap(8, 300) == 300 && Wrap(8, 6) == 6
  {
    RangeAt();
    DivModUnique(300, TWO_64, 0, 300);
    DivModUnique(6, TWO_64, 0, 6);
    WidthIIsLeast(300);
    WidthUIsLeast(2);
    WidthUIsLeast(6);
    hide WidthI, WidthU, Wrap;
    assert IntFits(300, 1) && !IntFits(300, 0);
    assert 2 < Capacity(0) && 6 < Capacity(0);
  }

  lemma Pushed()
    ensures Int(Bool(Initial(false, false), true), 300) == Initial(false, false).(stack := Stack)
  {
    WidthOf300();
    hide WidthI;
  }

  lemma PaddingNone(n: nat, bw: Width)
    requires Aligned(n, ByteWidth(bw))
    ensures Padding(n, ByteWidth(bw)) == 0
  {
    PaddingSmallest(n, ByteWidth(bw), 0);
  }

  lemma TwoLE(x: byte, y: byte)
    ensures ToLE(2, x + 256 * y) == [x, y]
  {
    DivModUnique(x + 256 * y, 256, y, x);
    assert ToLE(1, y) == [y % 256] + ToLE(0, y / 256);
  }

  lemma Fields()
    ensures VectorHead([], 2, false, None, 1) == [2, 0]
    ensures WriteFields([2, 0], Stack, 1) == [2, 0, 1, 0, 44, 1]
  {
    PaddingNone(0, 1);
    TwoLE(2, 0);
    TwoLE(1, 0);
    TwoLE(44, 1);
    hide Padding, ToLE;
    assert Zeros(0) == [];
    assert Stack[..1] == [Stack[0]] && Stack[..1][..0] == [];
    assert WriteFields([2, 0], [], 1) == [2, 0];
    assert WriteFields([2, 0], Stack[..1], 1) == [2, 0, 1, 0];
  }

  lemma Types()
    ensures TypeBytes(Stack, 1) == [105, 5]
  {
    PackedTypeIs(1, BOOL);
    PackedTypeIs(1, INT);
    hide PackedType;
    assert Stack[..1] == [Stack[0]] && Stack[..1][..0] == [];
    assert TypeBytes([], 1) == [];
    assert TypeBytes(Stack[..1], 1) == [105];
  }

  // Of two scalars, the wider decides.
  lemma WidestOfTwo(a: Value, b: Value)
    requires IsInline(a.typ) && IsInline(b.typ)
    ensures WidestElem([a, b], 0, 0, 1, 1, 0) == MaxWidth(a.width, b.width)
  {
    assert [a, b][..1] == [a] && [a][..0] == [];
    assert WidestElem([a][..0], 0, 0, 1, 1, 0) == 0;
    assert WidestElem([a], 0, 0, 1, 1, 0) == a.width;
  }

  lemma WidthOfTwo(vals: seq<Value>, n: nat, start: nat)
    requires |vals| == 2 && IsInline(vals[0].typ) && IsInline(vals[1].typ) && n == 0 && start == 0
    ensures FlexSpec.VectorWidth(n, vals, start, 1, 0, None) == MaxWidth(vals[0].width, vals[1].width)
  {
    WidestOfTwo(vals[0], vals[1]);
    NarrowWidth(2);
    assert vals == [vals[0], vals[1]];
    hide WidthU, WidestElem;
  }

  lemma EndVectorIs(st: State, start: nat, bw: Width, head: seq<byte>)
    requires Roomy(st) && start == 0 && TypedOk(st.stack, false, false)
    requires FlexSpec.VectorWidth(|st.buf|, st.stack, start, 1, st.force, None) == bw
    requires head == VectorHead(st.buf, |st.stack|, false, None, bw)
    ensures st.stack[start..] == st.stack
    ensures EndVector(st, start, false, false)
         == st.(buf := WriteFields(head, st.stack, bw) + TypeBytes(st.stack, bw), stack := [Value(|head|, VECTOR, bw)])
  {
    hide VectorHead, WriteFields, TypeBytes, FlexSpec.VectorWidth, Roomy;
    assert st.stack[start..] == st.stack && st.stack[..start] == [];
  }

  lemma Built(st: State, start: nat)
    requires st == Initial(false, false).(stack := Stack) && start == 0
    ensures Roomy(st) && st.stack[start..] == Stack
    ensures EndVector(st, start, false, false) == st.(buf := Vector, stack := [Value(2, VECTOR, 1)])
  {
    WidthOfTwo(Stack, 0, 0);
    Fields();
    Types();
    hide VectorHead, WriteFields, TypeBytes, FlexSpec.VectorWidth, EndVector;
    EndVectorIs(st, start, 1, [2, 0]);
    assert [2, 0, 1, 0, 44, 1] + [105, 5] == Vector;
  }

  lemma NearReach(u: nat, n: nat, i: nat, w: Width)
    requires u <= n && w == 0 && i == 0
    ensures Reach(u, n, i, w) == n - u
  {
    PaddingNone(n, w);
    hide Padding;
  }

  lemma NarrowWidth(d: nat)
    requires d < 0x100
    ensures WidthU(d) == 0
  {
    WidthUIsLeast(d);
    hide WidthU;
    assert d < Capacity(0);
  }

  lemma NearWidth(u: nat, n: nat, i: nat, w: Width)
    requires u <= n < 0x100 && w == 0 && i == 0
    ensures Reach(u, n, i, 3) < TWO_64 && OffsetWidth(u, n, i, w) == w
  {
    ReachBound(u, n, i);
    NearReach(u, n, i, w);
    NarrowWidth(n - u);
    hide Reach, WidthU;
  }

  lemma NearOffset(buf: seq<byte>, u: nat, w: Width)
    requires u <= |buf| < 0x100 && w == 0
    ensures WriteOffset(buf, u, w) == buf + [|buf| - u]
  {
    var d := |buf| - u;
    RangeAt();
    DivModUnique(d, TWO_64, 0, d);
    DivModUnique(d, 256, 0, d);
    hide Range;
    assert ToLE(1, d) == [d % 256] + ToLE(0, d / 256);
  }

  lemma WidthOfRoot(v: Value, n: nat, i: nat)
    requires v == Value(2, VECTOR, 1) && n == 8 && i == 0
    ensures ElemWidth(v, n, i) == 0
  {
    NearWidth(2, n, i, 0);
    hide OffsetWidth, Reach;
  }

  lemma FinishIs(st: State, v: Value, w: Width)
    requires Roomy(st) && |st.stack| == 1 && st.stack[0] == v && ElemWidth(v, |st.buf|, 0) == w
    ensures Finish(st) == WriteAny(AlignTo(st.buf, w), v, w) + [StoredPackedType(v, 0), ByteWidth(w)]
  {
    hide ElemWidth, WriteAny, AlignTo, StoredPackedType;
  }

  lemma Aligned0(buf: seq<byte>, w: Width)
    requires w == 0
    ensures AlignTo(buf, w) == buf
  {
    PaddingNone(|buf|, w);
    assert Zeros(0) == [];
  }

  lemma Rooted(v: Value, st: State)
    requires v == Value(2, VECTOR, 1) && st == Initial(false, false).(buf := Vector, stack := [v])
    ensures Roomy(st) && Finish(st) == Buffer
  {
    var w: Width := 0;
    WidthOfRoot(v, |st.buf|, 0);
    FinishIs(st, v, w);
    Aligned0(Vector, w);
    NearOffset(Vector, 2, w);
    PackedTypeIs(1, VECTOR);
    hide PackedType, WriteOffset, AlignTo, ElemWidth, Finish;
    assert StoredPackedType(v, 0) == 41;
    hide StoredPackedType;
    assert Vector + [6] + [41, 1] == Buffer;
  }

  // The builder's calls for [true, 300] give this buffer.
  lemma BuilderWrites()
    ensures var st := Int(Bool(Initial(false, false), true), 300);
      && Roomy(st)
      && var t := EndVector(st, 0, false, false);
      && Roomy(t) && |t.stack| == 1 && Finish(t) == Buffer
  {
    Pushed();
    Built(Initial(false, false).(stack := Stack), 0);
    Rooted(Value(2, VECTOR, 1), Initial(false, false).(buf := Vector, stack := [Value(2, VECTOR, 1)]));
    hide EndVector, Finish, Int, Roomy;
  }

  const Element0: Ref := Ref(2, 2, 2, BOOL)

  lemma ByteReads(x: byte)
    ensures FromLE([x]) == x
  {
    assert [x][1..] == [];
  }

  lemma RootIsVector()
    ensures GetRoot(Buffer) == Some(Ref(8, 1, 2, VECTOR)) && Indirect(Buffer, 8, 1) == Some(2)
  {
    PackRoundTrip(1, VECTOR);
    PackedTypeIs(1, VECTOR);
    hide PackedType, UnpackType, UnpackWidth;
    assert Buffer[8..9] == [6];
    ByteReads(6);
  }

  lemma ElementIsWide(b: seq<byte>, p: nat, w: nat, i: nat)
    requires p == 2 && w == 2 && i == 0 && |b| > 7 && b[0] == 2 && b[1] == 0 && b[6] == PackedType(1, BOOL)
    ensures VectorAt(b, p, w, i) == Some(Ref(p, w, 2, BOOL))
  {
    assert b[0..2] == [b[0], b[1]];
    TwoBytes(b[0], b[1]);
    PackRoundTrip(1, BOOL);
    hide FromLE, PackedType, UnpackWidth, UnpackType;
  }

  // `MutateBool(false)` on the first element succeeds and leaves it true.
  ghost predicate StaysTrue(behind: seq<byte>)
    requires |behind| >= 7
  {
    var m := MutateBool(Buffer, Element0.typ, Element0.pos, 1, false, behind);
    m.Some? && RefShows(m.value, Element0, VBool(true))
  }

  // Its first element lies in a field of two bytes, and after `MutateBool(false)`
  // it may still be true: with ones in memory behind the argument it is.
  lemma FalseMayShowTrue()
    ensures GetRoot(Buffer) == Some(Ref(8, 1, 2, VECTOR)) && Indirect(Buffer, 8, 1) == Some(2)
    ensures VectorAt(Buffer, 2, 2, 0) == Some(Element0)
    ensures exists behind: seq<byte> :: |behind| >= 7 && StaysTrue(behind)
  {
    RootIsVector();
    PackedTypeIs(1, BOOL);
    hide GetRoot, Indirect, VectorAt, StaysTrue, PackedType;
    ElementIsWide(Buffer, 2, 2, 0);
    OnesStay(Buffer, Element0, 1);
  }

  lemma OnesStay(buf: seq<byte>, r: Ref, field: Width)
    requires buf == Buffer && r == Element0 && field == 1
    ensures exists behind: seq<byte> :: |behind| >= 7 && StaysTrue(behind)
  {
    var behind: seq<byte> := seq(7, _ => 1);
    hide RefShows, MutateBool;
    MutateBoolIsExact(buf, r, r.pos, field, false, behind);
    assert behind[0] != 0 && !ZeroBehind(behind, field);
    assert StaysTrue(behind);
  }
}
