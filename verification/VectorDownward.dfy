// The buffer the serializer writes into: one block of memory with data growing
// down from its end and a scratch area growing up from its start.
module VectorDownward {
  import opened Bits
  import opened Bytes
  import opened BuilderSpec

  ghost predicate Multiple(n: nat, a: nat)
    requires PowerOfTwo(a)
  {
    n % a == 0
  }

  // `(x + a - 1) & ~(a - 1)`, by clearing the low bits of the sum.
  function RoundUp(x: nat, a: nat): (r: nat)
    requires PowerOfTwo(a)
    ensures x <= r < x + a && Multiple(r, a)
  {
    var y := x + a - 1;
    RoundUpIs(x, a);
    y - And(y, a - 1)
  }

  lemma RoundUpIs(x: nat, a: nat)
    requires PowerOfTwo(a)
    ensures a > 0 && var y := x + a - 1; And(y, a - 1) == y % a && x <= y - y % a && Multiple(y - y % a, a)
  {
    var k: nat :| k < 64 && a == Pow2(k);
    hide And, Pow2;
    var y := x + a - 1;
    AndLowMask(y, k);
    Floor(y, a);
  }

  lemma Floor(y: nat, a: nat)
    requires a > 0
    ensures y - y % a >= 0 && y < y - y % a + a && (y - y % a) % a == 0
  {
    var q := y / a;
    assert y - y % a == q * a + 0;
    DivModUnique(y - y % a, a, q, 0);
  }

  lemma EvenMultiple(x: nat, a: nat)
    requires PowerOfTwo(a) && a > 1 && Multiple(x, a)
    ensures x % 2 == 0
  {
    var k: nat :| k < 64 && a == Pow2(k);
    var q, half := x / a, Pow2(k - 1);
    assert x == a * q == 2 * (half * q);
  }

  // How far a block of `reserved` bytes grows to fit `len` more.
  function Grown(reserved: nat, len: nat, initial: nat, a: nat): (r: nat)
    requires PowerOfTwo(a)
    ensures r >= reserved + len && r >= reserved + reserved / 2 && Multiple(r, a)
    ensures (reserved == 0 ==> r >= initial) && (r - a < len + reserved || r - a < reserved + reserved / 2 || (reserved == 0 && r - a < initial))
    ensures a > 1 ==> r % 2 == 0
  {
    var r := RoundUp(reserved + Max(len, if reserved != 0 then reserved / 2 else initial), a);
    if a > 1 then EvenMultiple(r, a); r else r
  }

  // Overwriting a part of the data, seen from the whole block.
  lemma WriteInBlock(block: seq<byte>, at: nat, x: seq<byte>, scratch: nat, cur: nat)
    requires scratch <= cur <= at && at + |x| <= |block|
    ensures WriteAt(block, at, x)[..scratch] == block[..scratch]
    ensures WriteAt(block, at, x)[cur..] == WriteAt(block[cur..], at - cur, x)
  {
  }

  lemma WriteNothing(s: seq<byte>, i: nat)
    requires i <= |s|
    ensures WriteAt(s, i, []) == s
  {
  }

  lemma WriteFirst(s: seq<byte>, x: seq<byte>)
    requires |x| <= |s|
    ensures WriteAt(s, 0, x) == x + s[|x|..]
  {
  }

  method Memcpy(p: array<byte>, at: nat, bytes: seq<byte>)
    requires at + |bytes| <= p.Length
    modifies p
    ensures p[..] == WriteAt(old(p[..]), at, bytes)
  {
    forall i | 0 <= i < |bytes| {
      p[at + i] := bytes[i];
    }
  }

  // The loop of `fill`.
  method Zero(p: array<byte>, at: nat, n: nat)
    requires at + n <= p.Length
    modifies p
    ensures p[..] == WriteAt(old(p[..]), at, Zeros(n))
  {
    hide Zeros;
    for i := 0 to n
      invariant forall k :: at <= k < at + i ==> p[k] == 0
      invariant forall k :: 0 <= k < at || at + i <= k < p.Length ==> p[k] == old(p[k])
    {
      p[at + i] := 0;
    }
    assert p[at..at + n] == Zeros(n);
    assert p[..] == p[..at] + p[at..at + n] + p[at + n..];
    assert p[..at] == old(p[..at]) && p[at + n..] == old(p[at + n..]);
  }

  lemma TailOf(block: seq<byte>, at: nat, len: nat, end: nat)
    requires at + len <= end <= |block|
    ensures block[at..end][len..] == block[at + len..end]
  {
  }

  class Vector {
    var buf: array?<byte>
    var cur: nat
    var scratch: nat
    var reserved: nat
    const initialSize: nat
    const minalign: nat
    // The bytes ever copied by reallocation.
    ghost var copied: nat

    ghost predicate Valid()
      reads this, buf
    {
      && PowerOfTwo(minalign)
      && (buf == null ==> reserved == 0) && (buf != null ==> buf.Length == reserved)
      && scratch <= cur <= reserved
      && (minalign > 1 ==> reserved % 2 == 0 && copied <= 2 * reserved)
    }

    // The used bytes at the end, lowest address first.
    ghost function Data(): seq<byte>
      requires Valid()
      reads this, buf
    {
      if buf == null then [] else buf[cur..reserved]
    }

    // The used bytes at the start.
    ghost function Scratch(): seq<byte>
      requires Valid()
      reads this, buf
    {
      if buf == null then [] else buf[..scratch]
    }

    function Size(): nat
      requires Valid()
      reads this, buf
      ensures Size() == |Data()|
    {
      reserved - cur
    }

    ghost function Repr(): set<object>
      reads this
    {
      if buf == null then {this} else {this, buf}
    }

    constructor (initialSize: nat, minalign: nat)
      requires PowerOfTwo(minalign)
      ensures Valid() && fresh(Repr()) && Data() == [] && Scratch() == [] && buf == null
    {
      this.initialSize, this.minalign := initialSize, minalign;
      buf, cur, scratch, reserved, copied := null, 0, 0, 0, 0;
    }

    // Copies only what is in use at each end.
    static method MemcpyDownward(oldP: array<byte>, newP: array<byte>, inUseBack: nat, inUseFront: nat)
      requires oldP != newP && inUseBack + inUseFront <= oldP.Length <= newP.Length
      modifies newP
      ensures newP[newP.Length - inUseBack..] == oldP[oldP.Length - inUseBack..]
      ensures newP[..inUseFront] == oldP[..inUseFront]
    {
      forall i | 0 <= i < inUseBack {
        newP[newP.Length - inUseBack + i] := oldP[oldP.Length - inUseBack + i];
      }
      forall i | 0 <= i < inUseFront {
        newP[i] := oldP[i];
      }
    }

    // Moves both regions to a larger block.
    method Reallocate(len: nat)
      requires Valid()
      modifies this
      ensures Valid() && buf != null && fresh(buf)
      ensures Data() == old(Data()) && Scratch() == old(Scratch())
      ensures cur - scratch >= len
      ensures reserved == Grown(old(reserved), len, initialSize, minalign)
    {
      hide Grown, PowerOfTwo, Multiple;
      var oldReserved, oldSize, oldScratch := reserved, reserved - cur, scratch;
      reserved := Grown(oldReserved, len, initialSize, minalign);
      var p := new byte[reserved];
      if buf != null {
        MemcpyDownward(buf, p, oldSize, oldScratch);
        copied := copied + oldSize + oldScratch;
      }
      buf := p;
      cur := reserved - oldSize;
      scratch := oldScratch;
      assert buf[cur..reserved] == buf[cur..];
      assert old(buf) != null ==> old(buf[cur..reserved]) == old(buf[cur..]);
    }

    // At least `len` bytes are free afterwards; nothing in use has changed.
    method EnsureSpace(len: nat)
      requires Valid() && Size() < MAX_BUFFER_SIZE
      modifies this
      ensures Valid() && fresh(Repr() - old(Repr()))
      ensures Data() == old(Data()) && Scratch() == old(Scratch())
      ensures cur - scratch >= len && (len > 0 ==> buf != null)
    {
      if len > cur - scratch {
        Reallocate(len);
      }
    }

    // The new bytes in front are not yet written.
    method MakeSpace(len: nat)
      requires Valid() && Size() < MAX_BUFFER_SIZE
      modifies this
      ensures Valid() && fresh(Repr() - old(Repr()))
      ensures |Data()| == len + old(|Data()|) && Data()[len..] == old(Data()) && Scratch() == old(Scratch())
      ensures len > 0 ==> buf != null
    {
      hide PowerOfTwo;
      EnsureSpace(len);
      hide Multiple;
      if buf != null {
        TailOf(buf[..], cur - len, len, reserved);
      }
      cur := cur - len;
    }

    // Overwrites the bytes at an offset from the end.
    method WriteAtOffset(off: nat, bytes: seq<byte>)
      requires Valid() && |bytes| <= off <= Size()
      modifies buf
      ensures Valid() && Scratch() == old(Scratch())
      ensures Data() == WriteAt(old(Data()), old(|Data()|) - off, bytes)
    {
      hide PowerOfTwo, WriteAt;
      WriteNothing(Data(), |Data()| - off);
      if bytes != [] {
        WriteInBlock(buf[..], reserved - off, bytes, scratch, cur);
        Memcpy(buf, reserved - off, bytes);
        assert buf[cur..reserved] == buf[..][cur..] && old(buf[cur..reserved]) == old(buf[..])[cur..];
        assert buf[..scratch] == buf[..][..scratch];
      }
    }

    method Push(bytes: seq<byte>)
      requires Valid() && Size() < MAX_BUFFER_SIZE
      modifies Repr()
      ensures Valid() && fresh(Repr() - old(Repr()))
      ensures Data() == bytes + old(Data()) && Scratch() == old(Scratch())
    {
      if |bytes| > 0 {
        hide PowerOfTwo, WriteAt;
        MakeSpace(|bytes|);
        WriteFirst(Data(), bytes);
        WriteAtOffset(Size(), bytes);
      }
    }

    method ZeroFront(n: nat)
      requires Valid() && n <= Size() && (n > 0 ==> buf != null)
      modifies buf
      ensures Valid() && Data() == Zeros(n) + old(Data())[n..] && Scratch() == old(Scratch())
    {
      hide PowerOfTwo;
      if buf != null {
        WriteInBlock(buf[..], cur, Zeros(n), scratch, cur);
        Zero(buf, cur, n);
        assert buf[cur..reserved] == buf[..][cur..] && old(buf[cur..reserved]) == old(buf[..])[cur..];
        assert buf[..scratch] == buf[..][..scratch];
      }
    }

    method Fill(zeroPadBytes: nat)
      requires Valid() && Size() < MAX_BUFFER_SIZE
      modifies Repr()
      ensures Valid() && fresh(Repr() - old(Repr()))
      ensures Data() == Zeros(zeroPadBytes) + old(Data()) && Scratch() == old(Scratch())
    {
      MakeSpace(zeroPadBytes);
      ZeroFront(zeroPadBytes);
    }

    method Pop(bytesToRemove: nat)
      requires Valid() && bytesToRemove <= Size()
      modifies this
      ensures Valid() && Repr() == old(Repr())
      ensures Data() == old(Data())[bytesToRemove..] && Scratch() == old(Scratch())
    {
      hide PowerOfTwo;
      ghost var data := Data();
      cur := cur + bytesToRemove;
      if buf != null {
        assert buf[cur..reserved] == data[bytesToRemove..];
      }
    }

    method WriteScratchEnd(bytes: seq<byte>)
      requires Valid() && |bytes| <= cur - scratch && (bytes != [] ==> buf != null)
      modifies `scratch, buf
      ensures Valid() && Data() == old(Data()) && Scratch() == old(Scratch()) + bytes
    {
      if bytes != [] {
        forall i | 0 <= i < |bytes| {
          buf[scratch + i] := bytes[i];
        }
        assert buf[..scratch + |bytes|] == old(buf[..scratch]) + bytes;
        scratch := scratch + |bytes|;
      }
    }

    method ScratchPush(bytes: seq<byte>)
      requires Valid() && Size() < MAX_BUFFER_SIZE
      modifies Repr()
      ensures Valid() && fresh(Repr() - old(Repr()))
      ensures Data() == old(Data()) && Scratch() == old(Scratch()) + bytes
    {
      EnsureSpace(|bytes|);
      WriteScratchEnd(bytes);
    }

    method ScratchPop(bytesToRemove: nat)
      requires Valid() && bytesToRemove <= |Scratch()|
      modifies this
      ensures Valid() && Repr() == old(Repr())
      ensures Data() == old(Data()) && Scratch() == old(Scratch())[..old(|Scratch()|) - bytesToRemove]
    {
      hide PowerOfTwo;
      scratch := scratch - bytesToRemove;
      assert buf != null ==> buf[..scratch] == old(buf[..scratch])[..scratch];
    }

    method ClearScratch()
      requires Valid()
      modifies this
      ensures Valid() && Repr() == old(Repr()) && Data() == old(Data()) && Scratch() == []
    {
      scratch := 0;
    }

    method ScratchAt(i: nat, n: nat) returns (bytes: seq<byte>)
      requires Valid() && i + n <= |Scratch()|
      ensures bytes == Scratch()[i..i + n]
    {
      hide PowerOfTwo;
      bytes := if buf == null then [] else buf[i..i + n];
      assert buf != null ==> buf[i..i + n] == buf[..scratch][i..i + n];
    }

    // The `n` bytes at an offset from the end.
    method ReadAt(off: nat, n: nat) returns (bytes: seq<byte>)
      requires Valid() && n <= off <= Size()
      ensures bytes == At(Data(), off, n)
    {
      hide PowerOfTwo;
      bytes := if buf == null then [] else buf[reserved - off..reserved - off + n];
      if buf != null {
        assert Data()[|Data()| - off..] == buf[reserved - off..reserved];
      }
    }
  }

  // -------------------------------------------------------- amortised growth

  // A reallocation for `len` more bytes while `used` bytes are in use.
  datatype Growth = Growth(used: nat, len: nat)

  // The block's size and the bytes copied so far, after a history of reallocations.
  function Replay(h: seq<Growth>, initial: nat, a: nat): (nat, nat)
    requires PowerOfTwo(a)
  {
    if h == [] then (0, 0)
    else
      var last := h[|h| - 1];
      var (reserved, copied) := Replay(h[..|h| - 1], initial, a);
      (Grown(reserved, last.len, initial, a), copied + last.used)
  }

  // Never more bytes in use than the block holds.
  ghost predicate Feasible(h: seq<Growth>, initial: nat, a: nat)
    requires PowerOfTwo(a)
  {
    h != [] ==> Feasible(h[..|h| - 1], initial, a) && h[|h| - 1].used <= Replay(h[..|h| - 1], initial, a).0
  }

  lemma {:induction false} CopiedAtMostTwice(h: seq<Growth>, initial: nat, a: nat)
    requires PowerOfTwo(a) && a > 1 && Feasible(h, initial, a)
    ensures var (reserved, copied) := Replay(h, initial, a); copied <= 2 * reserved && reserved % 2 == 0
  {
    hide PowerOfTwo, Grown;
    if h != [] {
      CopiedAtMostTwice(h[..|h| - 1], initial, a);
    }
  }

  lemma GrownByOne(r: nat, a: nat)
    requires a == 1 && PowerOfTwo(a)
    ensures Grown(r, 1, 1, a) == r + Max(1, if r == 0 then 1 else r / 2)
  {
    hide PowerOfTwo;
  }

  lemma ReplayUnfolds(h: seq<Growth>, x: Growth, initial: nat, a: nat)
    requires PowerOfTwo(a)
    ensures Replay(h + [x], initial, a)
         == (Grown(Replay(h, initial, a).0, x.len, initial, a), Replay(h, initial, a).1 + x.used)
    ensures Feasible(h + [x], initial, a) <==> Feasible(h, initial, a) && x.used <= Replay(h, initial, a).0
  {
    hide PowerOfTwo, Grown;
    assert (h + [x])[..|h|] == h && (h + [x])[|h|] == x;
  }

  // One more reallocation of a full block, with one byte alignment.
  lemma ReplayMore(h: seq<Growth>, r: nat, copied: nat, used: nat, s: nat, more: nat, a: nat) returns (k: seq<Growth>)
    requires a == 1 && PowerOfTwo(a) && Feasible(h, 1, a) && Replay(h, 1, a) == (r, copied)
    requires used <= r && more == copied + used && s == r + Max(1, if r == 0 then 1 else r / 2)
    ensures Feasible(k, 1, a) && Replay(k, 1, a) == (s, more)
  {
    hide PowerOfTwo, Grown, Replay, Feasible;
    GrownByOne(r, a);
    ReplayUnfolds(h, Growth(used, 1), 1, a);
    k := h + [Growth(used, 1)];
  }

  // Of an odd size the growth by half is rounded down: nine reallocations of
  // full blocks copy 57 bytes for a block of 28.
  lemma OddSizesCopyMore(a: nat) returns (h: seq<Growth>)
    requires a == 1 && PowerOfTwo(a)
    ensures Feasible(h, 1, a) && Replay(h, 1, a) == (28, 57)
  {
    h := [];
    hide PowerOfTwo, Feasible, Replay;
    ReplayNone(a);
    h := ReplayMore(h, 0, 0, 0, 1, 0, a);
    h := ReplayMore(h, 1, 0, 1, 2, 1, a);
    h := ReplayMore(h, 2, 1, 2, 3, 3, a);
    h := ReplayMore(h, 3, 3, 3, 4, 6, a);
    h := ReplayMore(h, 4, 6, 4, 6, 10, a);
    h := ReplayMore(h, 6, 10, 6, 9, 16, a);
    h := ReplayMore(h, 9, 16, 9, 13, 25, a);
    h := ReplayMore(h, 13, 25, 13, 19, 38, a);
    h := ReplayMore(h, 19, 38, 19, 28, 57, a);
  }

  lemma ReplayNone(a: nat)
    requires PowerOfTwo(a)
    ensures Feasible([], 1, a) && Replay([], 1, a) == (0, 0)
  {
  }

  // Over the life of a buffer at most twice its final size is copied, for every
  // history: exactly when the alignment is more than one byte.
  lemma AmortisedGrowth(a: nat)
    requires PowerOfTwo(a)
    ensures a > 1 <==> forall initial: nat, h :: Feasible(h, initial, a) ==>
      Replay(h, initial, a).1 <= 2 * Replay(h, initial, a).0
  {
    if a > 1 {
      forall initial: nat, h | Feasible(h, initial, a)
        ensures Replay(h, initial, a).1 <= 2 * Replay(h, initial, a).0
      {
        CopiedAtMostTwice(h, initial, a);
      }
    } else {
      assert a == 1 by {
        var k: nat :| k < 64 && a == Pow2(k);
      }
      var h := OddSizesCopyMore(a);
      assert Feasible(h, 1, a);
    }
  }
}
