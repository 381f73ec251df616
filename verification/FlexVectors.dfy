// Vectors and maps written by the FlexBuffers builder: the chosen width is
// enough for every field, and the object reads back as its elements.
module FlexVectors {
  import opened Bytes
  import opened Alignment
  import opened Options
  import opened FlexWidth
  import opened FlexTypes
  import opened FlexReader
  import opened FlexSpec
  import opened FlexFields

  predicate AllMean(buf: seq<byte>, vals: seq<Value>, es: seq<Tree>) {
    |vals| == |es| && forall i :: 0 <= i < |vals| ==> Means(buf, vals[i], es[i])
  }

  lemma AllMeanStable(a: seq<byte>, b: seq<byte>, vals: seq<Value>, es: seq<Tree>)
    requires a <= b && AllMean(a, vals, es)
    ensures AllMean(b, vals, es)
  {
    hide Means;
    forall i | 0 <= i < |vals| ensures Means(b, vals[i], es[i]) {
      MeansStable(a, b, vals[i], es[i]);
    }
  }

  // ------------------------------------------------------------------- width

  lemma {:induction false} WidestElemCovers(vals: seq<Value>, size: nat, start: nat, step: nat, prefix: nat, base: Width, k: nat)
    requires (step == 1 || step == 2) && AllPlaced(vals, size)
    requires size <= MAX_SIZE && Slot(start, step, prefix, |vals|) <= MAX_SIZE / 8
    ensures base <= WidestElem(vals, size, start, step, prefix, base)
    ensures k < |vals| ==>
      ElemWidth(vals[k], size, Slot(start, step, prefix, k)) <= WidestElem(vals, size, start, step, prefix, base)
  {
    hide ElemWidth;
    if vals != [] {
      WidestElemCovers(vals[..|vals| - 1], size, start, step, prefix, base, k);
    }
  }

  // How many fields a vector has before its first element.
  function Prefix(fixed: bool, keys: Option<Value>): nat {
    (if keys.Some? then 2 else 0) + (if fixed then 0 else 1)
  }

  lemma HeadLength(buf: seq<byte>, len: nat, fixed: bool, keys: Option<Value>, bw: Width)
    ensures |VectorHead(buf, len, fixed, keys, bw)| == FieldLoc(|buf|, Prefix(fixed, keys), bw)
    ensures buf <= VectorHead(buf, len, fixed, keys, bw)
  {
    hide ToLE, Padding, Wrap;
  }

  lemma FieldPosInVector(size: nat, prefix: nat, k: nat, bw: Width)
    ensures FieldPos(FieldLoc(size, prefix, bw), k, bw) == FieldLoc(size, prefix + k, bw)
  {
  }

  lemma ElementFits(v: Value, size: nat, prefix: nat, k: nat, i: nat, bw: Width)
    requires Placed(v, size) && size <= MAX_SIZE && prefix + k <= i <= MAX_SIZE / 8
    requires ElemWidth(v, size, i) <= bw
    ensures Fits(v, FieldPos(FieldLoc(size, prefix, bw), k, bw), bw)
  {
    FieldPosInVector(size, prefix, k, bw);
    ElemWidthSuffices(v, size, prefix + k, i, bw);
    hide ElemWidth, Padding;
  }

  lemma VectorWidthCovers(size: nat, vals: seq<Value>, start: nat, step: nat, force: Width, keys: Option<Value>, k: nat)
    requires (step == 1 || step == 2) && AllPlaced(vals, size) && (keys.Some? ==> Placed(keys.value, size))
    requires size <= MAX_SIZE && Slot(start, step, 3, |vals|) <= MAX_SIZE / 8
    ensures var bw := VectorWidth(size, vals, start, step, force, keys);
      && force <= bw && WidthU(|vals|) <= bw
      && (k < |vals| ==>
            ElemWidth(vals[k], size, Slot(start, step, PrefixElems(keys), k)) <= bw)
      && (keys.Some? ==> ElemWidth(keys.value, size, 0) <= bw)
  {
    hide ElemWidth, WidestElem, WidthU;
    var base := MaxWidth(force, WidthU(|vals|));
    match keys
    case None => WidestElemCovers(vals, size, start, step, 1, base, k);
    case Some(m) => WidestElemCovers(vals, size, start, step, 3, MaxWidth(base, ElemWidth(m, size, 0)), k);
  }

  lemma SlotIsPast(start: nat, step: nat, keys: Option<Value>, fixed: bool, k: nat, n: nat)
    requires (step == 1 || step == 2) && k < n
    ensures Prefix(fixed, keys) + k <= Slot(start, step, PrefixElems(keys), k) <= Slot(start, step, 3, n)
  {
  }

  // The width `CreateVector` takes is enough for each element at the place it
  // gets, though every estimate was made before the width was known and with
  // the element's position on the whole stack.
  lemma ElementWidthSuffices(size: nat, vals: seq<Value>, start: nat, step: nat, force: Width, keys: Option<Value>,
                             fixed: bool, k: nat, bw: Width)
    requires (step == 1 || step == 2) && AllPlaced(vals, size) && (keys.Some? ==> Placed(keys.value, size))
    requires size <= MAX_SIZE && Slot(start, step, 3, |vals|) <= MAX_SIZE / 8
    requires k < |vals| && bw == VectorWidth(size, vals, start, step, force, keys)
    ensures Fits(vals[k], FieldPos(FieldLoc(size, Prefix(fixed, keys), bw), k, bw), bw)
  {
    VectorWidthCovers(size, vals, start, step, force, keys, k);
    hide ElemWidth, VectorWidth, FieldLoc, Fits, FieldPos;
    SlotIsPast(start, step, keys, fixed, k, |vals|);
    hide Slot, Prefix, PrefixElems;
    ElementFits(vals[k], size, Prefix(fixed, keys), k, Slot(start, step, PrefixElems(keys), k), bw);
  }

  // It is enough for the size and for the offset to the keys, too.
  lemma HeadWidthSuffices(size: nat, vals: seq<Value>, start: nat, step: nat, force: Width, keys: Option<Value>, bw: Width)
    requires (step == 1 || step == 2) && AllPlaced(vals, size) && (keys.Some? ==> Placed(keys.value, size))
    requires size <= MAX_SIZE && Slot(start, step, 3, |vals|) <= MAX_SIZE / 8
    requires bw == VectorWidth(size, vals, start, step, force, keys)
    ensures |vals| < Capacity(bw)
    ensures keys.Some? ==> Fits(keys.value, FieldPos(FieldLoc(size, 0, bw), 0, bw), bw)
  {
    VectorWidthCovers(size, vals, start, step, force, keys, |vals|);
    WidthUIsLeast(|vals|);
    CapacityGrows(WidthU(|vals|), bw);
    hide ElemWidth, VectorWidth, WidthU, FieldLoc, Fits, FieldPos;
    if keys.Some? {
      ElementFits(keys.value, size, 0, 0, 0, bw);
    }
  }
}
