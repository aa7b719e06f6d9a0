/** The block buffer and the controller of vp/flash.h as they update their fields and the device in place. */
module FlashDevice {
  import opened Flash

  lemma {:induction false} Zero(n: nat)
    ensures Number(seq(n, i => 0)) == 0
  {
    if n > 0 {
      Zero(n - 1);
      assert seq(n, i => 0)[1..] == seq(n - 1, i => 0);
    }
  }

  /** Bytes `[f, f + n)` of one array over bytes `[t, t + n)` of another. */
  method Transfer(from: array<byte>, f: nat, to: array<byte>, t: nat, n: nat)
    requires from != to && f + n <= from.Length && t + n <= to.Length
    modifies to
    ensures to[..] == old(to[..])[..t] + from[f..f + n] + old(to[..])[t + n..]
  {
    forall i | 0 <= i < n {
      to[t + i] := from[f + i];
    }
  }

  class Blockbuffer {
    const width: nat
    const buf: array<byte>
    /** The file behind the descriptor. */
    const disk: array<byte>
    var offs: nat
    var dirty: bool
    var active: bool

    constructor (width: nat, disk: array<byte>)
      requires width > 0 && disk.Length % width == 0
      ensures Valid() && fresh(buf) && this.disk == disk && this.width == width
      ensures Abs().Coherent() && Abs().View() == disk[..]
    {
      this.width := width;
      this.buf := new byte[width];
      this.disk := disk;
      offs, dirty, active := 0, false, false;
    }

    ghost predicate Valid()
      reads this, buf, disk
    {
      buf != disk && Abs().Shaped()
    }

    ghost function Abs(): Cache
      reads this, buf, disk
    {
      Cache(width, disk[..], buf[..], offs, dirty, active)
    }

    /** `sent` of the block's bytes reach the device; the write counts only if all do. */
    method WriteBlock(b: nat, sent: nat)
      requires Valid() && OnDisk(disk[..], width, b) && sent <= width
      modifies this`dirty, disk
      ensures Valid() && Abs() == Flash.WriteBlock(old(Abs()), b, sent)
    {
      hide Overlay;
      Transfer(buf, 0, disk, b * width, sent);
      OverlayIs(old(disk[..]), width, b, buf[..sent]);
      if sent == width {
        dirty := false;
      }
    }

    /** `got` of the block's bytes arrive; the read counts only if all do. */
    method ReadBlock(b: nat, got: nat)
      requires Valid() && OnDisk(disk[..], width, b) && got <= width
      modifies this`dirty, buf
      ensures Valid() && Abs() == Flash.ReadBlock(old(Abs()), b, got)
    {
      Transfer(disk, b * width, buf, 0, got);
      assert disk[b * width..b * width + got] == Block(disk[..], width, b)[..got];
      if got == width {
        dirty := false;
      }
    }

    method SetPos(b: nat, sent: nat, got: nat)
      requires Valid() && b < Abs().Blocks() && sent <= width && got <= width
      modifies this, buf, disk
      ensures Valid() && Abs() == Flash.SetPos(old(Abs()), b, sent, got)
    {
      ghost var c := Abs();
      BlockOnDisk(c, b);
      SetPosShaped(c, b, sent, got);
      if b != offs || !active {
        if dirty && active {
          BlockOnDisk(c, offs);
          WriteBlock(offs, sent);
        }
        offs := b;
        ReadBlock(b, got);
        active := true;
      }
    }

    method SetData(source: seq<byte>, pos: nat)
      requires Valid() && active && pos + |source| <= width
      modifies this`dirty, buf
      ensures Valid() && Abs() == Flash.SetData(old(Abs()), pos, source)
    {
      forall i | 0 <= i < |source| {
        buf[pos + i] := source[i];
      }
      assert buf[..] == old(buf[..])[..pos] + source + old(buf[..])[pos + |source|..];
      dirty := true;
    }

    method GetData(pos: nat, n: nat) returns (target: seq<byte>)
      requires Valid() && active && pos + n <= width
      ensures target == Flash.GetData(Abs(), pos, n)
    {
      target := buf[pos..pos + n];
    }

    method Clear(sent: nat)
      requires Valid() && sent <= width
      modifies this, disk
      ensures Valid() && Abs() == Flash.Clear(old(Abs()), sent)
    {
      if active && dirty {
        BlockOnDisk(Abs(), offs);
        WriteBlock(offs, sent);
      }
      active := false;
    }
  }

  class Flashcontroller {
    const blockBuf: Blockbuffer
    /** `mTargetBlock`. */
    var address: Register
    /** `mDeviceNumBlocks`. */
    const size: Register
    ghost const count: nat

    constructor (width: nat, disk: array<byte>, blockDevice: bool)
      requires width > 0 && disk.Length % width == 0
      ensures Valid() && fresh(blockBuf) && Abs().size == SizeOf(blockDevice, width, disk[..]) && fresh(blockBuf.buf) && blockBuf.disk == disk && blockBuf.width == width
      ensures Number(Abs().address) == 0 && Abs().cache.Coherent() && Abs().cache.View() == disk[..]
    {
      blockBuf := new Blockbuffer(width, disk);
      address := seq(8, i => 0);
      count := SizeOf(blockDevice, width, disk[..]);
      size := Octets(SizeOf(blockDevice, width, disk[..]), 8);
      new;
      Zero(8);
    }

    ghost predicate Valid()
      reads this, blockBuf, blockBuf.buf, blockBuf.disk
    {
      blockBuf.Valid() && size == Octets(count, 8)
    }

    ghost function Abs(): Controller
      reads this, blockBuf, blockBuf.buf, blockBuf.disk
    {
      Controller(address, count, blockBuf.Abs())
    }

    /** One access; the block transfers it makes move `sent` and `got` bytes. */
    method Transport(op: Op, sent: nat, got: nat) returns (out: seq<byte>)
      requires Valid() && Allowed(address, blockBuf.width, Abs().cache.Blocks(), op)
      requires sent <= blockBuf.width && got <= blockBuf.width
      modifies this, blockBuf, blockBuf.buf, blockBuf.disk
      ensures Valid() && (Abs(), out) == Access(old(Abs()), op, sent, got)
    {
      SelectionLoads(Abs(), sent, got);
      out := [];
      match op
      case WriteAddress(at, bytes) =>
        address := address[..at] + bytes + address[at + |bytes|..];
      case ReadAddress(at, n) =>
        out := address[at..at + n];
      case ReadSize(at, n) =>
        out := size[at..at + n];
      case Write(pos, data) =>
        blockBuf.SetPos(Number(address), sent, got);
        blockBuf.SetData(data, pos);
      case Read(pos, n) =>
        blockBuf.SetPos(Number(address), sent, got);
        out := blockBuf.GetData(pos, n);
    }

    static lemma SelectionLoads(s: Controller, sent: nat, got: nat)
      requires s.cache.Shaped() && sent <= s.cache.width && got <= s.cache.width
      ensures Number(s.address) < s.cache.Blocks() ==> SetPos(s.cache, Number(s.address), sent, got).active
    {
      if Number(s.address) < s.cache.Blocks() {
        SetPosShaped(s.cache, Number(s.address), sent, got);
      }
    }

    /**
     * A whole history of accesses whose transfers succeed, then the destructor's clear: every read returned what a flat array would
     * have, and the device ends up as that array.
     */
    method Run(ops: seq<Op>) returns (outs: seq<seq<byte>>)
      requires Valid() && Abs().cache.Coherent()
      requires AllAllowed(address, blockBuf.width, Abs().cache.Blocks(), ops)
      modifies this, blockBuf, blockBuf.buf, blockBuf.disk
      ensures (blockBuf.disk[..], outs) == FlatRun(old(address), count, blockBuf.width, old(Abs().cache.View()), ops)
    {
      hide FlatRun, SetPos, Flash.Clear, Cache.View;
      outs := [];
      ghost var start := Abs();
      CacheRefinesFlat(start, ops);
      assert ops[0..] == ops;
      assert [] + CachedRun(start, ops).1 == CachedRun(start, ops).1;
      for i := 0 to |ops|
        invariant Valid() && Abs().cache.Coherent() && Abs().cache.width == blockBuf.width
        invariant AllAllowed(address, blockBuf.width, Abs().cache.Blocks(), ops[i..])
        invariant CachedRun(start, ops) == (CachedRun(Abs(), ops[i..]).0, outs + CachedRun(Abs(), ops[i..]).1)
      {
        StepRefines(Abs(), ops[i]);
        assert ops[i..][0] == ops[i] && ops[i..][1..] == ops[i + 1..];
        assert |Step(Abs(), ops[i]).0.cache.disk| == |Abs().cache.disk|;
        ghost var rest := CachedRun(Step(Abs(), ops[i]).0, ops[i + 1..]);
        var out := Transport(ops[i], blockBuf.width, blockBuf.width);
        assert outs + ([out] + rest.1) == (outs + [out]) + rest.1;
        outs := outs + [out];
      }
      ghost var last := Abs();
      blockBuf.Clear(blockBuf.width);
      assert outs + CachedRun(last, ops[|ops|..]).1 == outs;
    }
  }
}
