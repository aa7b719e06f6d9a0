/** The blocked copy of vp/dma.h: memory is moved through a 64-byte buffer, one block after another. */
module Dma {

  type byte = x: int | 0 <= x < 0x100
  type uint32 = x: int | 0 <= x < 0x1_0000_0000

  const BLOCK := 64

  /** One copy of the original bytes: every destination byte takes the source byte's original value. */
  function FlatCopy(mem: seq<byte>, src: nat, dst: nat, n: nat): (r: seq<byte>)
    requires src + n <= |mem|
    ensures |r| == |mem|
  {
    seq(|mem|, a requires 0 <= a < |mem| => if dst <= a < dst + n then mem[src + (a - dst)] else mem[a])
  }

  /** What the engine does with `n` bytes left at offset `off`: full blocks while more than one remains. */
  function Blocked(mem: seq<byte>, src: nat, dst: nat, off: nat, n: nat): (r: seq<byte>)
    requires src + off + n <= |mem|
    ensures |r| == |mem|
    decreases n
  {
    if n > BLOCK then Blocked(FlatCopy(mem, src + off, dst + off, BLOCK), src, dst, off + BLOCK, n - BLOCK)
    else FlatCopy(mem, src + off, dst + off, n)
  }

  lemma CopiedIs(was: seq<byte>, now: seq<byte>, src: nat, dst: nat, n: nat)
    requires src + n <= |was| && dst + n <= |was|
    requires now == was[..dst] + was[src..src + n] + was[dst + n..]
    ensures now == FlatCopy(was, src, dst, n)
  {
    var goal := FlatCopy(was, src, dst, n);
    forall a | 0 <= a < |was|
      ensures now[a] == goal[a]
    {
      if dst <= a < dst + n {
        assert now[a] == was[src..src + n][a - dst];
      }
    }
  }

  /** `src + off` on 32-bit words. */
  function Address(base: uint32, off: uint32): (a: uint32)
    ensures base + off < 0x1_0000_0000 ==> a == base + off
  {
    (base + off) % 0x1_0000_0000
  }

  lemma FullBlock(mem: seq<byte>, src: nat, dst: nat, off: nat, n: nat)
    requires src + off + n <= |mem| && n > BLOCK
    ensures Blocked(mem, src, dst, off, n)
         == Blocked(FlatCopy(mem, src + off, dst + off, BLOCK), src, dst, off + BLOCK, n - BLOCK)
  {
  }

  lemma LastBlock(mem: seq<byte>, src: nat, dst: nat, off: nat, n: nat)
    requires src + off + n <= |mem| && n <= BLOCK
    ensures Blocked(mem, src, dst, off, n) == FlatCopy(mem, src + off, dst + off, n)
  {
  }

  // ----- What a blocked copy leaves, for any overlap -----

  /** An earlier block has already overwritten source byte `y`. */
  predicate Overwritten(src: nat, dst: nat, y: nat) {
    src < dst && dst - src <= y && (y - (dst - src)) / BLOCK < y / BLOCK
  }

  /** The value that lands at `dst + y`. */
  function Echo(mem: seq<byte>, src: nat, dst: nat, y: nat): byte
    requires src + y < |mem|
    decreases y
  {
    if Overwritten(src, dst, y) then Echo(mem, src, dst, y - (dst - src)) else mem[src + y]
  }

  /** Memory after the first `off` bytes. */
  function Echoed(mem: seq<byte>, src: nat, dst: nat, off: nat): (r: seq<byte>)
    requires src + off <= |mem|
    ensures |r| == |mem|
  {
    seq(|mem|, a requires 0 <= a < |mem| => EchoedAt(mem, src, dst, off, a))
  }

  function EchoedAt(mem: seq<byte>, src: nat, dst: nat, off: nat, a: nat): byte
    requires src + off <= |mem| && a < |mem|
  {
    if dst <= a < dst + off then Echo(mem, src, dst, a - dst) else mem[a]
  }

  lemma EchoBlock(mem: seq<byte>, src: nat, dst: nat, q: nat, b: nat)
    requires b <= BLOCK && src + q * BLOCK + b <= |mem|
    ensures FlatCopy(Echoed(mem, src, dst, q * BLOCK), src + q * BLOCK, dst + q * BLOCK, b) == Echoed(mem, src, dst, q * BLOCK + b)
  {
    var off := q * BLOCK;
    var now := Echoed(mem, src, dst, off);
    forall y: nat | off <= y < off + b
      ensures now[src + y] == Echo(mem, src, dst, y)
    {
      assert y / BLOCK == q;
      assert Overwritten(src, dst, y) <==> src < dst && dst - src <= y && y - (dst - src) < off;
    }
    var copied, goal := FlatCopy(now, src + off, dst + off, b), Echoed(mem, src, dst, off + b);
    forall a | 0 <= a < |mem|
      ensures copied[a] == goal[a]
    {
      if dst + off <= a < dst + off + b {
        assert now[src + (a - dst)] == Echo(mem, src, dst, a - dst);
      }
    }
  }

  /** The blocked copy, for every length and every overlap of the two regions. */
  lemma {:induction false} BlockedIsEchoed(mem: seq<byte>, src: nat, dst: nat, q: nat, n: nat)
    requires src + q * BLOCK + n <= |mem|
    ensures Blocked(Echoed(mem, src, dst, q * BLOCK), src, dst, q * BLOCK, n) == Echoed(mem, src, dst, q * BLOCK + n)
    decreases n
  {
    if n > BLOCK {
      EchoBlock(mem, src, dst, q, BLOCK);
      BlockedIsEchoed(mem, src, dst, q + 1, n - BLOCK);
    } else {
      EchoBlock(mem, src, dst, q, n);
    }
  }

  lemma BlockedFromStart(mem: seq<byte>, src: nat, dst: nat, n: nat)
    requires src + n <= |mem|
    ensures Blocked(mem, src, dst, 0, n) == Echoed(mem, src, dst, n)
  {
    assert Echoed(mem, src, dst, 0) == mem;
    BlockedIsEchoed(mem, src, dst, 0, n);
  }

  /** The regions do not overlap, or the copy moves towards lower addresses, or it fits one block. */
  predicate SafeRegions(src: nat, dst: nat, n: nat) {
    dst <= src || src + n <= dst || n <= BLOCK
  }

  /** On safe regions the blocked copy is one copy of the original bytes; everything else is unchanged. */
  lemma SafeCopy(mem: seq<byte>, src: nat, dst: nat, n: nat)
    requires src + n <= |mem| && SafeRegions(src, dst, n)
    ensures Blocked(mem, src, dst, 0, n) == FlatCopy(mem, src, dst, n)
  {
    BlockedFromStart(mem, src, dst, n);
    var left, right := Echoed(mem, src, dst, n), FlatCopy(mem, src, dst, n);
    forall a | 0 <= a < |mem|
      ensures left[a] == right[a]
    {
      if dst <= a < dst + n {
        assert !Overwritten(src, dst, a - dst);
      }
    }
  }

  /** On every other pair of regions some memory contents are copied wrongly. */
  lemma UnsafeCopy(size: nat, src: nat, dst: nat, n: nat) returns (mem: seq<byte>)
    requires src + n <= size && dst + n <= size && !SafeRegions(src, dst, n)
    ensures |mem| == size && Blocked(mem, src, dst, 0, n) != FlatCopy(mem, src, dst, n)
  {
    var d := dst - src;
    var y := if d < BLOCK then BLOCK else d;
    mem := seq(size, a => if a == src + y - d then 1 else 0);
    BlockedFromStart(mem, src, dst, n);
    assert Overwritten(src, dst, y) && !Overwritten(src, dst, y - d);
    assert Echo(mem, src, dst, y) == mem[src + (y - d)] == 1;
    assert Echoed(mem, src, dst, n)[dst + y] == 1;
    assert FlatCopy(mem, src, dst, n)[dst + y] == 0;
  }

  /** The blocked copy behaves as a single copy, whatever the memory holds, exactly on safe regions. */
  lemma CopyIsFaithfulExactly(size: nat, src: nat, dst: nat, n: nat)
    requires src + n <= size && dst + n <= size
    ensures (forall mem: seq<byte> :: |mem| == size ==> Blocked(mem, src, dst, 0, n) == FlatCopy(mem, src, dst, n))
       <==> dst <= src || src + n <= dst || n <= 64
  {
    if SafeRegions(src, dst, n) {
      forall mem: seq<byte> | |mem| == size
        ensures Blocked(mem, src, dst, 0, n) == FlatCopy(mem, src, dst, n)
      {
        SafeCopy(mem, src, dst, n);
      }
    } else {
      var mem := UnsafeCopy(size, src, dst, n);
    }
  }

  // ----- The engine -----

  class SimpleDma {
    const buffer: array<byte>
    var src: uint32
    var dst: uint32
    var len: uint32
    var op: uint32
    /** Interrupts raised so far. */
    var interrupts: nat

    constructor ()
      ensures Valid() && fresh(buffer) && src == dst == len == op == interrupts == 0
    {
      buffer := new byte[BLOCK];
      src, dst, len, op, interrupts := 0, 0, 0, 0, 0;
    }

    ghost predicate Valid() {
      buffer.Length == BLOCK
    }

    /** A write to a mapped register. Writing the operation register also starts the engine. */
    method WriteRegister(addr: nat, value: uint32) returns (notified: bool)
      requires addr in {0, 4, 8, 12}
      modifies this
      ensures src == (if addr == 0 then value else old(src))
      ensures dst == (if addr == 4 then value else old(dst))
      ensures len == (if addr == 8 then value else old(len))
      ensures op == (if addr == 12 then value else old(op))
      ensures interrupts == old(interrupts)
      ensures notified <==> addr == 12
    {
      if addr == 0 {
        src := value;
      } else if addr == 4 {
        dst := value;
      } else if addr == 8 {
        len := value;
      } else {
        op := value;
      }
      notified := addr == 12;
    }

    /** A read transaction into the buffer. */
    method ReadBlock(mem: array<byte>, from: nat, n: nat)
      requires Valid() && mem != buffer && n <= BLOCK && from + n <= mem.Length
      modifies buffer
      ensures buffer[..n] == mem[from..from + n]
    {
      for i := 0 to n
        invariant forall j | 0 <= j < i :: buffer[j] == mem[from + j]
      {
        buffer[i] := mem[from + i];
      }
    }

    /** A write transaction out of the buffer. */
    method WriteBlock(mem: array<byte>, to: nat, n: nat)
      requires Valid() && mem != buffer && n <= BLOCK && to + n <= mem.Length
      modifies mem
      ensures mem[..] == old(mem[..])[..to] + buffer[..n] + old(mem[..])[to + n..]
    {
      for i := 0 to n
        invariant forall a | 0 <= a < mem.Length :: mem[a] == if to <= a < to + i then buffer[a - to] else old(mem[a])
      {
        mem[to + i] := buffer[i];
      }
    }

    /** A read transaction, then a write transaction, at 32-bit addresses. */
    method CopyBlock(mem: array<byte>, off: uint32, n: uint32)
      requires Valid() && mem != buffer && n <= BLOCK
      requires src + off + n <= mem.Length && dst + off + n <= mem.Length <= 0x1_0000_0000
      requires src + off < 0x1_0000_0000 && dst + off < 0x1_0000_0000
      modifies mem, buffer
      ensures mem[..] == FlatCopy(old(mem[..]), src + off, dst + off, n)
    {
      hide FlatCopy, Address;
      ReadBlock(mem, Address(src, off), n);
      WriteBlock(mem, Address(dst, off), n);
      CopiedIs(old(mem[..]), mem[..], src + off, dst + off, n);
    }

    /**
     * Terminates for every length, including zero and exact multiples of the block size, and leaves memory
     * as the blocked copy does; on safe regions that is a single copy of the original bytes.
     */
    method PerformMemcpy(mem: array<byte>)
      requires Valid() && mem != buffer
      requires src + len <= mem.Length && dst + len <= mem.Length <= 0x1_0000_0000
      modifies mem, buffer
      ensures mem[..] == Blocked(old(mem[..]), src, dst, 0, len)
      ensures SafeRegions(src, dst, len) ==> mem[..] == FlatCopy(old(mem[..]), src, dst, len)
    {
      hide FlatCopy, SafeRegions, Blocked;
      var n, off := len, 0;
      while n > BLOCK
        invariant 0 <= n && 0 <= off && off + n == len && (n == 0 ==> off == 0)
        invariant Blocked(mem[..], src, dst, off, n) == Blocked(old(mem[..]), src, dst, 0, len)
      {
        FullBlock(mem[..], src, dst, off, n);
        CopyBlock(mem, off, BLOCK);
        n := n - BLOCK;
        off := off + BLOCK;
      }
      LastBlock(mem[..], src, dst, off, n);
      CopyBlock(mem, off, n);
      if SafeRegions(src, dst, len) {
        SafeCopy(old(mem[..]), src, dst, len);
      }
    }

    /** One round of the engine thread, for the two operations it implements; it ends with an interrupt. */
    method RunOnce(mem: array<byte>)
      requires Valid() && mem != buffer && op in {0, 1}
      requires src + len <= mem.Length && dst + len <= mem.Length <= 0x1_0000_0000
      modifies this`interrupts, mem, buffer
      ensures interrupts == old(interrupts) + 1
      ensures mem[..] == if op == 1 then Blocked(old(mem[..]), src, dst, 0, len) else old(mem[..])
    {
      if op == 1 {
        PerformMemcpy(mem);
      }
      interrupts := interrupts + 1;
    }
  }
}
