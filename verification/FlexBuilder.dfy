// The FlexBuffers builder as an object: a growing buffer and a stack of values,
// with the loops of the original.  Each method does what `FlexSpec` says.
module FlexBuilder {
  import opened Bits
  import opened Bytes
  import opened Alignment
  import opened Sorting
  import opened Options
  import opened FlexWidth
  import opened FlexTypes
  import S = FlexSpec
  import opened FlexFields
  import opened FlexVectors
  import opened FlexObjects
  import opened FlexRoundTrip

  lemma ElementDistance(i: nat, bw: Width)
    ensures i * ByteWidth(bw) == Stride(i, bw)
  {
  }

  // The width loop of an offset: try 1, 2, 4 and 8 bytes in turn.
  method TryWidths(v: Value, size: nat, i: nat) returns (bw: Width)
    requires Placed(v, size) && size <= MAX_SIZE && i <= MAX_SIZE / 8
    ensures bw == ElemWidth(v, size, i)
  {
    if IsInline(v.typ) {
      return v.width;
    }
    ReachBound(v.bits, size, i);
    OffsetWidthFits(v.bits, size, i, 0);
    var byteWidth := 1;
    ghost var k: nat := 0;
    while byteWidth <= 8
      invariant k <= 3 && byteWidth == ByteWidth(k)
      invariant OffsetWidth(v.bits, size, i, k) == OffsetWidth(v.bits, size, i, 0)
      decreases 4 - k
    {
      ElementDistance(i, k);
      var offset := size + Padding(size, byteWidth) + i * byteWidth - v.bits;
      assert offset == Reach(v.bits, size, i, k);
      ReachGrows(v.bits, size, i, i, k, 3);
      bw := WidthU(offset);
      if ByteWidth(bw) == byteWidth {
        return bw;
      }
      byteWidth := byteWidth * 2;
      k := k + 1;
    }
    assert false;
  }

  lemma WidestStart(size: nat, start: nat, step: nat, prefix: nat, base: Width)
    requires (step == 1 || step == 2) && size <= MAX_SIZE && S.Slot(start, step, prefix, 0) <= MAX_SIZE / 8
    ensures S.WidestElem([], size, start, step, prefix, base) == base
  {
  }

  // One more element of the width pass.
  lemma WidestStep(vals: seq<Value>, k: nat, size: nat, start: nat, step: nat, prefix: nat, base: Width)
    requires (step == 1 || step == 2) && S.AllPlaced(vals, size) && k < |vals|
    requires size <= MAX_SIZE && S.Slot(start, step, prefix, |vals|) <= MAX_SIZE / 8
    ensures S.WidestElem(vals[..k + 1], size, start, step, prefix, base)
         == MaxWidth(S.WidestElem(vals[..k], size, start, step, prefix, base),
                     ElemWidth(vals[k], size, S.Slot(start, step, prefix, k)))
  {
    hide ElemWidth;
    assert vals[..k + 1][..k] == vals[..k];
  }

  lemma StridedTail(stack: seq<Value>, start: nat)
    requires start <= |stack|
    ensures S.Strided(stack, start, 1) == stack[start..]
  {
  }

  // After sorting, keys and values are the even and the odd positions.
  lemma StridedPairs(below: seq<Value>, ps: seq<S.TwoValue>)
    ensures S.Strided(below + S.Flatten(ps), |below|, 2) == S.KeysOf(ps)
    ensures S.Strided(below + S.Flatten(ps), |below| + 1, 2) == S.ValsOf(ps)
  {
  }

  // The sorted pairs are as well placed as the stack was.
  lemma SortedRoomy(st: S.State, start: nat)
    requires S.Roomy(st) && start <= |st.stack| && S.KeysFirst(st.stack[start..])
    ensures var ps := S.SortPairs(st.buf, S.Pairs(st.stack[start..]));
      S.Roomy(st.(stack := st.stack[..start] + S.Flatten(ps)))
  {
    S.PairsPlaced(st, start);
    var ps := S.SortPairs(st.buf, S.Pairs(st.stack[start..]));
    hide S.SortPairs, S.Pairs, Placed;
    FlatPlaced(ps, |st.buf|);
    hide S.Flatten, S.KeysOf, S.ValsOf;
  }

  lemma FlatPlaced(ps: seq<S.TwoValue>, size: nat)
    requires S.AllPlaced(S.KeysOf(ps), size) && S.AllPlaced(S.ValsOf(ps), size)
    ensures S.AllPlaced(S.Flatten(ps), size)
  {
    hide Placed;
    forall i | 0 <= i < 2 * |ps| ensures Placed(S.Flatten(ps)[i], size) {
      assert Placed(S.KeysOf(ps)[i / 2], size) && Placed(S.ValsOf(ps)[i / 2], size);
    }
  }

  class Builder {
    var buf: seq<byte>
    var stack: seq<Value>
    var keyPool: seq<nat>
    var stringPool: seq<(nat, nat)>
    const shareKeys: bool
    const shareStrings: bool
    var force: Width

    // The builder's state as a value.
    function State(): S.State
      reads this
    {
      S.State(buf, stack, keyPool, stringPool, shareKeys, shareStrings, force)
    }

    constructor (shareKeys: bool, shareStrings: bool)
      ensures State() == S.Initial(shareKeys, shareStrings)
    {
      this.shareKeys, this.shareStrings := shareKeys, shareStrings;
      buf, stack, keyPool, stringPool, force := [], [], [], [], 0;
    }

    // ---------------------------------------------------------------- writing

    method Align(bw: Width) returns (byteWidth: nat)
      modifies `buf
      ensures buf == S.AlignTo(old(buf), bw) && byteWidth == ByteWidth(bw)
    {
      byteWidth := Shl(1, bw);
      assert Shl(1, 0) == 1 && Shl(1, 1) == 2 && Shl(1, 2) == 4 && Shl(1, 3) == 8;
      buf := buf + Zeros(Padding(|buf|, byteWidth));
    }

    method WriteScalar(bits: nat, bw: Width)
      modifies `buf
      ensures buf == S.WriteScalar(old(buf), bits, bw)
    {
      buf := buf + ToLE(ByteWidth(bw), bits);
    }

    method WriteOffset(u: nat, bw: Width)
      requires u <= |buf| && |buf| - u < Capacity(bw)
      modifies `buf
      ensures buf == S.WriteOffset(old(buf), u, bw)
    {
      var reloff := Wrap(8, |buf| - u);
      WriteScalar(reloff, bw);
    }

    method WriteAny(v: Value, bw: Width)
      requires !IsInline(v.typ) ==> v.bits <= |buf| && |buf| - v.bits < Capacity(bw)
      modifies `buf
      ensures buf == S.WriteAny(old(buf), v, bw)
    {
      if IsInline(v.typ) {
        WriteScalar(v.bits, bw);
      } else {
        WriteOffset(v.bits, bw);
      }
    }

    // ---------------------------------------------------------------- scalars

    method Null()
      modifies `stack
      ensures State() == S.Null(old(State()))
    {
      stack := stack + [Value(0, NULL_TYPE, 0)];
    }

    method Bool(b: bool)
      modifies `stack
      ensures State() == S.Bool(old(State()), b)
    {
      stack := stack + [Value(if b then 1 else 0, BOOL, 0)];
    }

    method Int(i: int)
      requires Int64(i)
      modifies `stack
      ensures State() == S.Int(old(State()), i)
    {
      stack := stack + [Value(Wrap(8, i), INT, WidthI(i))];
    }

    method UInt(u: nat)
      requires u < TWO_64
      modifies `stack
      ensures State() == S.UInt(old(State()), u)
    {
      stack := stack + [Value(u, UINT, WidthU(u))];
    }

    method PushIndirect(bits: nat, typ: nat, bw: Width)
      modifies `buf, `stack
      ensures State() == S.PushIndirect(old(State()), bits, typ, bw)
    {
      var _ := Align(bw);
      var iloc := |buf|;
      WriteScalar(bits, bw);
      stack := stack + [Value(iloc, typ, bw)];
    }

    method IndirectInt(i: int)
      requires Int64(i)
      modifies `buf, `stack
      ensures State() == S.IndirectInt(old(State()), i)
    {
      PushIndirect(Wrap(8, i), INDIRECT_INT, WidthI(i));
    }

    method IndirectUInt(u: nat)
      requires u < TWO_64
      modifies `buf, `stack
      ensures State() == S.IndirectUInt(old(State()), u)
    {
      PushIndirect(u, INDIRECT_UINT, WidthU(u));
    }

    // ------------------------------------------------------------ text, bytes

    method Key(s: seq<byte>) returns (sloc: nat)
      requires S.PoolsTerminated(State())
      modifies `buf, `stack, `keyPool
      ensures State() == S.Key(old(State()), s)
      ensures |stack| > 0 && sloc == stack[|stack| - 1].bits
    {
      sloc := |buf|;
      ghost var before := State();
      buf := buf + s + [0];
      if shareKeys {
        S.PoolsStayTerminated(before, buf);
        S.EndsTerminated(before.buf, s);
        match S.FindKey(buf, keyPool, sloc)
        case Some(known) =>
          buf := buf[..sloc];
          sloc := known;
        case None => keyPool := keyPool + [sloc];
      }
      stack := stack + [Value(sloc, KEY, 0)];
    }

    method CreateBlob(data: seq<byte>, trailing: seq<byte>, typ: nat) returns (sloc: nat)
      requires |data| < TWO_64
      modifies `buf, `stack
      ensures var (b, v) := S.CreateBlob(old(buf), data, trailing, typ);
        buf == b && stack == old(stack) + [v] && sloc == v.bits
    {
      var bw := WidthU(|data|);
      var _ := Align(bw);
      WriteScalar(|data|, bw);
      sloc := |buf|;
      buf := buf + data + trailing;
      stack := stack + [Value(sloc, typ, bw)];
    }

    method String(s: seq<byte>) returns (sloc: nat)
      requires S.PoolsTerminated(State()) && |s| < TWO_64
      modifies `buf, `stack, `stringPool
      ensures State() == S.String(old(State()), s)
      ensures |stack| > 0 && sloc == stack[|stack| - 1].bits
    {
      var resetTo := |buf|;
      ghost var before := State();
      sloc := CreateBlob(s, [0], STRING);
      if shareStrings {
        var so := (sloc, |s|);
        S.BlobTerminated(before.buf, s, STRING);
        S.PoolsStayTerminated(before, buf);
        match S.FindString(buf, stringPool, so)
        case Some(known) =>
          assert before.buf <= buf;
          buf := buf[..resetTo];
          sloc := known.0;
          var top := stack[|stack| - 1].(bits := sloc);
          stack := stack[..|stack| - 1] + [top];
        case None => stringPool := stringPool + [so];
      }
    }

    method Blob(s: seq<byte>) returns (sloc: nat)
      requires |s| < TWO_64
      modifies `buf, `stack
      ensures State() == S.Blob(old(State()), s)
      ensures |stack| > 0 && sloc == stack[|stack| - 1].bits
    {
      sloc := CreateBlob(s, [], BLOB);
    }

    // ---------------------------------------------------------------- vectors

    // The width pass of `CreateVector`, with its check of the element types.
    method VectorWidth(start: nat, vecLen: nat, step: nat, typed: bool, keys: Option<Value>) returns (bw: Width, typ: nat)
      requires (step == 1 || step == 2) && S.Roomy(State()) && S.Slot(start, step, 3, vecLen) <= MAX_SIZE / 8
      requires vecLen == |S.Strided(stack, start, step)| && (keys.Some? ==> Placed(keys.value, |buf|))
      requires typed ==> S.TypedOk(S.Strided(stack, start, step), true, false)
      ensures S.AllPlaced(S.Strided(stack, start, step), |buf|)
      ensures bw == S.VectorWidth(|buf|, S.Strided(stack, start, step), start, step, force, keys)
      ensures typed ==> typ == S.ElementType(S.Strided(stack, start, step))
    {
      hide ElemWidth, WidthU, S.Strided, S.WidestElem;
      ghost var vals := S.Strided(stack, start, step);
      assert S.AllPlaced(vals, |buf|);
      bw := MaxWidth(force, WidthU(vecLen));
      var prefixElems := 1;
      if keys.Some? {
        var w := TryWidths(keys.value, |buf|, 0);
        bw := MaxWidth(bw, w);
        prefixElems := prefixElems + 2;
      }
      ghost var base := bw;
      typ := KEY;
      var i := start;
      ghost var k: nat := 0;
      WidestStart(|buf|, start, step, prefixElems, base);
      while i < |stack|
        invariant k <= |vals| && i == S.Index(start, step, k)
        invariant bw == S.WidestElem(vals[..k], |buf|, start, step, prefixElems, base)
        invariant typed ==> typ == S.ElementType(vals[..k])
        decreases |stack| - i
      {
        assert vals[k] == stack[i];
        WidestStep(vals, k, |buf|, start, step, prefixElems, base);
        var w := TryWidths(stack[i], |buf|, i + prefixElems);
        bw := MaxWidth(bw, w);
        if typed {
          if i == start {
            typ := stack[i].typ;
          } else {
            assert typ == stack[i].typ;
          }
        }
        i := i + step;
        k := k + 1;
      }
      assert vals[..k] == vals;
    }

    // Writes the fields of the elements; every offset fits.
    method WriteElements(start: nat, step: nat, bw: Width, ghost size: nat, ghost prefix: nat)
      requires (step == 1 || step == 2) && |buf| == FieldLoc(size, prefix, bw)
      requires forall k :: 0 <= k < |S.Strided(stack, start, step)| ==>
        Fits(S.Strided(stack, start, step)[k], FieldPos(FieldLoc(size, prefix, bw), k, bw), bw)
      modifies `buf
      ensures buf == S.WriteFields(old(buf), S.Strided(stack, start, step), bw)
    {
      hide S.Strided, FieldLoc;
      ghost var vals := S.Strided(stack, start, step);
      ghost var head := buf;
      var i := start;
      ghost var k: nat := 0;
      while i < |stack|
        invariant k <= |vals| && i == S.Index(start, step, k)
        invariant buf == S.WriteFields(head, vals[..k], bw)
        decreases |stack| - i
      {
        WriteFieldsAt(head, vals[..k], bw);
        assert vals[..k + 1][..k] == vals[..k] && vals[k] == stack[i];
        WriteAny(stack[i], bw);
        i := i + step;
        k := k + 1;
      }
      assert vals[..k] == vals;
    }

    method WriteTypes(start: nat, step: nat, bw: Width)
      requires step == 1 || step == 2
      modifies `buf
      ensures buf == old(buf) + S.TypeBytes(S.Strided(stack, start, step), bw)
    {
      hide S.Strided;
      ghost var vals := S.Strided(stack, start, step);
      var i := start;
      ghost var k: nat := 0;
      while i < |stack|
        invariant k <= |vals| && i == S.Index(start, step, k)
        invariant buf == old(buf) + S.TypeBytes(vals[..k], bw)
        decreases |stack| - i
      {
        assert vals[..k + 1][..k] == vals[..k] && vals[k] == stack[i];
        buf := buf + [StoredPackedType(stack[i], bw)];
        i := i + step;
        k := k + 1;
      }
      assert vals[..k] == vals;
    }

    // What goes before the elements.
    method WriteHead(vecLen: nat, fixed: bool, keys: Option<Value>, bw: Width)
      requires keys.Some? ==> !IsInline(keys.value.typ) && Fits(keys.value, |S.AlignTo(buf, bw)|, bw)
      modifies `buf
      ensures buf == S.VectorHead(old(buf), vecLen, fixed, keys, bw)
    {
      var _ := Align(bw);
      if keys.Some? {
        WriteOffset(keys.value.bits, bw);
        WriteScalar(Shl(1, keys.value.width), bw);
      }
      if !fixed {
        WriteScalar(vecLen, bw);
      }
    }

    method CreateVector(start: nat, vecLen: nat, step: nat, typed: bool, fixed: bool, keys: Option<Value>) returns (vec: Value)
      requires (step == 1 || step == 2) && S.Roomy(State()) && S.Slot(start, step, 3, vecLen) <= MAX_SIZE / 8
      requires vecLen == |S.Strided(stack, start, step)| && S.TypedOk(S.Strided(stack, start, step), typed, fixed)
      requires keys.Some? ==> !IsInline(keys.value.typ) && Placed(keys.value, |buf|)
      modifies `buf
      ensures S.AllPlaced(S.Strided(stack, start, step), old(|buf|))
      ensures var vals := S.Strided(stack, start, step);
        (buf, vec) == S.CreateVector(old(buf), vals, typed, fixed, keys,
                                     S.VectorWidth(old(|buf|), vals, start, step, force, keys))
    {
      hide S.Strided, S.VectorHead, S.VectorWidth, Fits, FieldLoc, FieldPos, S.WriteFields, S.TypeBytes, S.AlignTo, S.Slot;
      ghost var vals := S.Strided(stack, start, step);
      var size := |buf|;
      var bw, typ := VectorWidth(start, vecLen, step, typed, keys);
      HeadWidthSuffices(size, vals, start, step, force, keys, bw);
      AlignedStart(buf, bw);
      HeadLength(buf, vecLen, fixed, keys, bw);
      WriteHead(vecLen, fixed, keys, bw);
      var vloc := |buf|;
      forall k | 0 <= k < |vals|
        ensures Fits(vals[k], FieldPos(FieldLoc(size, Prefix(fixed, keys), bw), k, bw), bw)
      {
        ElementWidthSuffices(size, vals, start, step, force, keys, fixed, k, bw);
      }
      WriteElements(start, step, bw, size, Prefix(fixed, keys));
      if !typed {
        WriteTypes(start, step, bw);
      }
      vec := Value(vloc,
                   if keys.Some? then MAP
                   else if typed then ToTypedVector(typ, if fixed then vecLen else 0)
                   else VECTOR,
                   bw);
    }

    method EndVector(start: nat, typed: bool, fixed: bool) returns (offset: nat)
      requires S.Roomy(State()) && start <= |stack| && S.TypedOk(stack[start..], typed, fixed)
      modifies `buf, `stack
      ensures State() == S.EndVector(old(State()), start, typed, fixed)
      ensures |stack| > 0 && offset == stack[|stack| - 1].bits
    {
      hide S.VectorWidth, S.CreateVector, S.Strided;
      StridedTail(stack, start);
      var vec := CreateVector(start, |stack| - start, 1, typed, fixed, None);
      stack := stack[..start];
      stack := stack + [vec];
      offset := vec.bits;
    }

    method ScalarVector(elems: seq<nat>, typ: nat, bw: Width, fixed: bool) returns (vloc: nat)
      requires IsInline(typ) && IsTypedVectorElementType(typ)
      requires |elems| < TWO_64 && WidthU(|elems|) <= bw && (fixed ==> 2 <= |elems| <= 4)
      modifies `buf, `stack
      ensures State() == S.ScalarVector(old(State()), elems, typ, bw, fixed)
      ensures |stack| > 0 && vloc == stack[|stack| - 1].bits
    {
      var _ := Align(bw);
      if !fixed {
        WriteScalar(|elems|, bw);
      }
      vloc := |buf|;
      ghost var head := buf;
      ghost var vals := S.ScalarValues(elems, typ, bw);
      hide WidthU;
      for i := 0 to |elems|
        invariant stack == old(stack)
        invariant buf == S.WriteFields(head, vals[..i], bw)
      {
        assert vals[..i + 1][..i] == vals[..i];
        WriteScalar(elems[i], bw);
      }
      assert vals[..|elems|] == vals;
      stack := stack + [Value(vloc, ToTypedVector(typ, if fixed then |elems| else 0), bw)];
    }

    method EndMap(start: nat) returns (offset: nat)
      requires S.Roomy(State()) && start <= |stack| && S.KeysFirst(stack[start..])
      requires DistinctKeys(S.PairKey(buf), S.Pairs(stack[start..]))
      requires |S.CreateKeys(State(), start).0| <= MAX_SIZE
      modifies `buf, `stack
      ensures State() == S.EndMap(old(State()), start)
      ensures |stack| > 0 && offset == stack[|stack| - 1].bits
    {
      hide S.VectorWidth, S.CreateVector, S.SortPairs, S.Pairs, S.PairKey, S.Flatten, S.KeysOf, S.ValsOf, S.Strided;
      var len := (|stack| - start) / 2;
      ghost var before := State();
      S.PairsPlaced(before, start);
      SortedRoomy(before, start);
      var ps := S.SortPairs(buf, S.Pairs(stack[start..]));
      var below := stack[..start];
      StridedPairs(below, ps);
      stack := below + S.Flatten(ps);
      var keys := CreateVector(start, len, 2, true, false, None);
      assert (buf, keys) == S.CreateKeys(before, start);
      S.MapPlaced(before, start);
      var vec := CreateVector(start + 1, len, 2, false, false, Some(keys));
      stack := stack[..start];
      stack := stack + [vec];
      offset := vec.bits;
    }

    // ------------------------------------------------------------- the rest

    method LastValue() returns (v: Value)
      requires |stack| > 0
      ensures v == stack[|stack| - 1]
    {
      v := stack[|stack| - 1];
    }

    method ReuseValue(v: Value)
      modifies `stack
      ensures State() == S.Push(old(State()), v)
    {
      stack := stack + [v];
    }

    method ForceMinimumBitWidth(bw: Width)
      modifies `force
      ensures State() == old(State()).(force := bw)
    {
      force := bw;
    }

    method Finish()
      requires S.Roomy(State()) && |stack| == 1
      modifies `buf
      ensures buf == S.Finish(old(State()))
    {
      var bw := TryWidths(stack[0], |buf|, 0);
      RootFits(stack[0], |buf|, bw);
      AlignedStart(buf, bw);
      var byteWidth := Align(bw);
      WriteAny(stack[0], bw);
      buf := buf + [StoredPackedType(stack[0], 0)];
      buf := buf + [byteWidth];
    }
  }
}
