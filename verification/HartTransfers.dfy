/** What the transfers that the harts start do to memory, through the copy engine's own copy. */
module HartTransfers {
  import opened Harts
  import opened HartTheorems
  import opened Dma

  /**
   * The addresses are on the bus, and the two ends of a transfer do not overlap: the image and the accelerator's
   * input, the accelerator's results and the hart's buffer.
   */
  predicate Placed(c: Config, i: nat, size: nat) {
    && 0 <= c.image && c.image + 1024 <= size && 0 <= c.start(i) && c.start(i) + 1024 <= size
    && (c.image + 1024 <= c.start(i) || c.start(i) + 1024 <= c.image)
    && 0 <= c.result(i) && c.result(i) + 40 <= size && 0 <= c.local(i) && c.local(i) + 40 <= size
    && (c.result(i) + 40 <= c.local(i) || c.local(i) + 40 <= c.result(i))
  }

  /** The engine copies registers that name regions of the bus. */
  predicate Runnable(regs: DmaRegs, size: nat) {
    && 0 <= regs.src && 0 <= regs.dst && 0 <= regs.len
    && regs.src + regs.len <= size && regs.dst + regs.len <= size
  }

  /** One run of the copy engine on the registers of a started transfer. */
  function Effect(mem: seq<byte>, regs: DmaRegs): (r: seq<byte>)
    requires Runnable(regs, |mem|)
    ensures |r| == |mem|
  {
    Blocked(mem, regs.src, regs.dst, 0, regs.len)
  }

  lemma CopyMoves(mem: seq<byte>, src: nat, dst: nat, n: nat)
    requires src + n <= |mem| && dst + n <= |mem| && (src + n <= dst || dst + n <= src)
    ensures var r := Blocked(mem, src, dst, 0, n);
      && r[dst..dst + n] == mem[src..src + n] && r[src..src + n] == mem[src..src + n]
      && (forall a :: 0 <= a < |mem| && !(dst <= a < dst + n) ==> r[a] == mem[a])
  {
    SafeCopy(mem, src, dst, n);
    var r := FlatCopy(mem, src, dst, n);
    var moved, source := r[dst..dst + n], mem[src..src + n];
    forall k | 0 <= k < n
      ensures moved[k] == source[k]
    {
      assert r[dst + k] == mem[src + k];
    }
  }

  /**
   * Every transfer that any schedule starts, run on any memory: a send puts the image's 1024 bytes at its own
   * hart's accelerator; a read puts the 40 bytes of that accelerator's results into the hart's buffer and leaves
   * them where they are. All other memory is unchanged.
   */
  lemma TransfersMove(c: Config, events: seq<Event>, k: nat, mem: seq<byte>)
    requires c.Valid() && Schedule(c, events) && k < |After(c, events).started|
    requires Placed(c, After(c, events).started[k].hart, |mem|)
    ensures var t := After(c, events).started[k]; var i := t.hart;
      && Runnable(t.regs, |mem|)
      && (!t.read ==>
            && Effect(mem, t.regs)[c.start(i)..c.start(i) + 1024] == mem[c.image..c.image + 1024]
            && (forall a :: 0 <= a < |mem| && !(c.start(i) <= a < c.start(i) + 1024) ==> Effect(mem, t.regs)[a] == mem[a]))
      && (t.read ==>
            && Effect(mem, t.regs)[c.local(i)..c.local(i) + 40] == mem[c.result(i)..c.result(i) + 40]
            && Effect(mem, t.regs)[c.result(i)..c.result(i) + 40] == mem[c.result(i)..c.result(i) + 40]
            && (forall a :: 0 <= a < |mem| && !(c.local(i) <= a < c.local(i) + 40) ==> Effect(mem, t.regs)[a] == mem[a]))
  {
    hide After, Blocked;
    var t := After(c, events).started[k];
    TransfersAreWhole(c, events, 0, 0);
    assert t in After(c, events).started;
    if t.read {
      CopyMoves(mem, c.result(t.hart), c.local(t.hart), 40);
    } else {
      CopyMoves(mem, c.image, c.start(t.hart), 1024);
    }
  }
}
