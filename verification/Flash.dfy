/**
 * The one-block write-back cache of vp/flash.h in front of a block device. Device transfers may fail or stop
 * short; the functions describe every outcome, and the flat-device theorem is about runs whose transfers
 * succeed.
 */
module Flash {

  type byte = x: int | 0 <= x < 0x100

  /** The cache and the device behind it. `disk` holds `blocks * width` bytes. */
  datatype Cache = Cache(width: nat, disk: seq<byte>, buf: seq<byte>, offs: nat, dirty: bool, active: bool) {
    function Blocks(): nat
      requires width > 0
    {
      |disk| / width
    }

    /** A positive block size, a whole number of blocks, a buffer of one block, and a position on the device. */
    predicate Shaped() {
      && width > 0 && |buf| == width && |disk| % width == 0
      && (active ==> offs < Blocks())
    }

    /** A clean buffer mirrors its block. */
    predicate Coherent() {
      Shaped() && (active && !dirty ==> buf == Block(disk, width, offs))
    }

    /** What a reader of the device should see: the disk, with the buffered block in place of its own. */
    function View(): (flat: seq<byte>)
      requires Shaped()
      ensures |flat| == |disk|
    {
      if active then Overlay(disk, width, offs, buf) else disk
    }
  }

  predicate OnDisk(disk: seq<byte>, width: nat, b: nat) {
    b * width + width <= |disk|
  }

  function Block(disk: seq<byte>, width: nat, b: nat): (r: seq<byte>)
    ensures OnDisk(disk, width, b) ==> |r| == width
  {
    if OnDisk(disk, width, b) then disk[b * width..b * width + width] else []
  }

  /** `disk` with the bytes of `data` from the start of block `b` on. */
  function Overlay(disk: seq<byte>, width: nat, b: nat, data: seq<byte>): (r: seq<byte>)
    ensures OnDisk(disk, width, b) && |data| <= width ==> |r| == |disk|
  {
    if OnDisk(disk, width, b) && |data| <= width then disk[..b * width] + data + disk[b * width + |data|..] else disk
  }

  // ----- The cache operations, for every transfer outcome -----

  /** `writeBlock`: `sent` bytes reach the device; anything short of a block leaves the buffer dirty. */
  function WriteBlock(c: Cache, b: nat, sent: nat): Cache
    requires sent <= |c.buf|
  {
    c.(disk := Overlay(c.disk, c.width, b, c.buf[..sent]), dirty := c.dirty && sent != c.width)
  }

  /** `readBlock`: `got` bytes arrive; anything short of a block leaves the dirty flag as it was. */
  function ReadBlock(c: Cache, b: nat, got: nat): Cache
    requires got <= |c.buf|
  {
    var stored := Block(c.disk, c.width, b);
    if got <= |stored| then c.(buf := stored[..got] + c.buf[got..], dirty := c.dirty && got != c.width) else c
  }

  /** `setPos`: moving to another block commits the old one if it is dirty, then loads the new one. */
  function SetPos(c: Cache, b: nat, sent: nat, got: nat): Cache
    requires sent <= |c.buf| && got <= |c.buf|
  {
    if b != c.offs || !c.active then
      var c1 := if c.dirty && c.active then WriteBlock(c, c.offs, sent) else c;
      ReadBlock(c1.(offs := b), b, got).(active := true)
    else
      c
  }

  function SetData(c: Cache, pos: nat, data: seq<byte>): Cache
    requires pos + |data| <= |c.buf|
  {
    c.(buf := c.buf[..pos] + data + c.buf[pos + |data|..], dirty := true)
  }

  function GetData(c: Cache, pos: nat, n: nat): seq<byte>
    requires pos + n <= |c.buf|
  {
    c.buf[pos..pos + n]
  }

  function Clear(c: Cache, sent: nat): Cache
    requires sent <= |c.buf|
  {
    (if c.active && c.dirty then WriteBlock(c, c.offs, sent) else c).(active := false)
  }

  // ----- Geometry -----

  lemma BlockOnDisk(c: Cache, b: nat)
    requires c.Shaped() && b < c.Blocks()
    ensures OnDisk(c.disk, c.width, b)
  {
    var n := c.Blocks();
    assert |c.disk| == n * c.width;
    assert n * c.width == b * c.width + c.width + (n - b - 1) * c.width;
    assert (n - b - 1) * c.width >= 0;
  }

  lemma BlocksApart(a: nat, b: nat, width: nat)
    requires a < b
    ensures a * width + width <= b * width
  {
    assert b * width == a * width + width + (b - a - 1) * width;
    assert (b - a - 1) * width >= 0;
  }

  /** Overlaying one block leaves the others. */
  lemma OverlayElsewhere(disk: seq<byte>, width: nat, a: nat, b: nat, data: seq<byte>)
    requires a != b && OnDisk(disk, width, a) && OnDisk(disk, width, b) && |data| <= width
    ensures Block(Overlay(disk, width, a, data), width, b) == Block(disk, width, b)
  {
    if a < b {
      BlocksApart(a, b, width);
    } else {
      BlocksApart(b, a, width);
    }
  }

  lemma OverlayOwn(disk: seq<byte>, width: nat, b: nat, data: seq<byte>)
    requires OnDisk(disk, width, b) && |data| == width
    ensures Block(Overlay(disk, width, b, data), width, b) == data
  {
  }

  /** Overlaying a block with its own contents changes nothing, and only that does. */
  lemma OverlaySame(disk: seq<byte>, width: nat, b: nat, data: seq<byte>)
    requires OnDisk(disk, width, b) && |data| == width
    ensures Overlay(disk, width, b, data) == disk <==> data == Block(disk, width, b)
  {
    if Overlay(disk, width, b, data) == disk {
      OverlayOwn(disk, width, b, data);
    } else {
      assert disk == disk[..b * width] + Block(disk, width, b) + disk[b * width + width..];
    }
  }

  // ----- Moving between blocks -----

  /** Every operation keeps the shape. */
  lemma SetPosShaped(c: Cache, b: nat, sent: nat, got: nat)
    requires c.Shaped() && b < c.Blocks() && sent <= c.width && got <= c.width
    ensures SetPos(c, b, sent, got).Shaped() && SetPos(c, b, sent, got).active && SetPos(c, b, sent, got).offs == b
    ensures |SetPos(c, b, sent, got).disk| == |c.disk|
  {
    BlockOnDisk(c, b);
    if c.active {
      BlockOnDisk(c, c.offs);
    }
  }

  /** With successful transfers, moving to any block leaves what readers see and a coherent cache. */
  lemma SetPosKeepsView(c: Cache, b: nat)
    requires c.Coherent() && b < c.Blocks()
    ensures SetPos(c, b, c.width, c.width).Coherent()
    ensures SetPos(c, b, c.width, c.width).View() == c.View()
  {
    SetPosShaped(c, b, c.width, c.width);
    BlockOnDisk(c, b);
    if b != c.offs || !c.active {
      var disk := c.View();
      if c.active {
        BlockOnDisk(c, c.offs);
        assert c.buf[..c.width] == c.buf;
        OverlaySame(c.disk, c.width, c.offs, c.buf);
      }
      assert SetPos(c, b, c.width, c.width).disk == disk;
      var stored := Block(disk, c.width, b);
      assert stored[..c.width] + c.buf[c.width..] == stored;
      OverlaySame(disk, c.width, b, stored);
    }
  }

  /** The bytes a failed commit did not send are already on the device. */
  predicate CommitHarmless(c: Cache, sent: nat)
    requires c.Shaped() && sent <= c.width
  {
    c.active && c.dirty && OnDisk(c.disk, c.width, c.offs) ==> c.buf[sent..] == Block(c.disk, c.width, c.offs)[sent..]
  }

  /** The bytes a failed load did not bring are already in the buffer. */
  predicate LoadHarmless(c: Cache, b: nat, got: nat)
    requires c.Shaped() && got <= c.width
  {
    OnDisk(c.disk, c.width, b) ==> c.buf[got..] == Block(c.disk, c.width, b)[got..]
  }

  /**
   * When transfers may stop short: a move keeps what readers see exactly when it is no move, or the missing part
   * of the commit was not news to the device and the missing part of the load was not news to the buffer. This
   * includes the first access after power-up or after a clear.
   */
  lemma SetPosUnderFailures(c: Cache, b: nat, sent: nat, got: nat)
    requires c.Coherent() && b < c.Blocks() && sent <= c.width && got <= c.width
    ensures SetPos(c, b, sent, got).Shaped()
    ensures SetPos(c, b, sent, got).View() == c.View() <==>
      (c.active && b == c.offs) || (CommitHarmless(c, sent) && LoadHarmless(c, b, got))
  {
    hide SetPos, Cache.View, CommitHarmless, LoadHarmless;
    SetPosShaped(c, b, sent, got);
    if !c.active {
      FirstLoadUnderFailures(c, b, sent, got);
    } else if b != c.offs {
      MoveUnderFailures(c, b, sent, got);
    } else {
      StayingKeeps(c, sent, got);
    }
  }

  lemma StayingKeeps(c: Cache, sent: nat, got: nat)
    requires c.Shaped() && c.active && sent <= c.width && got <= c.width
    ensures SetPos(c, c.offs, sent, got) == c
  {
  }

  lemma FirstLoadUnderFailures(c: Cache, b: nat, sent: nat, got: nat)
    requires c.Coherent() && !c.active && b < c.Blocks() && sent <= c.width && got <= c.width
    ensures SetPos(c, b, sent, got).Shaped()
    ensures SetPos(c, b, sent, got).View() == c.View() <==> CommitHarmless(c, sent) && LoadHarmless(c, b, got)
  {
    SetPosShaped(c, b, sent, got);
    BlockOnDisk(c, b);
    var c' := SetPos(c, b, sent, got);
    var block := Block(c.disk, c.width, b);
    assert c'.buf == block[..got] + c.buf[got..];
    OverlaySame(c.disk, c.width, b, c'.buf);
    Suffixes(block, c.buf, got);
  }

  lemma MoveUnderFailures(c: Cache, b: nat, sent: nat, got: nat)
    requires c.Coherent() && c.active && b < c.Blocks() && b != c.offs && sent <= c.width && got <= c.width
    ensures SetPos(c, b, sent, got).Shaped()
    ensures SetPos(c, b, sent, got).View() == c.View() <==> CommitHarmless(c, sent) && LoadHarmless(c, b, got)
  {
    SetPosShaped(c, b, sent, got);
    BlockOnDisk(c, b);
    BlockOnDisk(c, c.offs);
    var c' := SetPos(c, b, sent, got);
    var before := Block(c.disk, c.width, c.offs);
    var block := Block(c.disk, c.width, b);
    var part := if c.dirty then c.buf[..sent] + before[sent..] else before;
    assert c'.disk == Overlay(c.disk, c.width, c.offs, part) by {
      if c.dirty {
        PartialOverlay(c.disk, c.width, c.offs, c.buf, sent);
      } else {
        OverlaySame(c.disk, c.width, c.offs, before);
      }
    }
    OverlayElsewhere(c.disk, c.width, c.offs, b, part);
    assert c'.buf == block[..got] + c.buf[got..];
    TwoOverlays(c.disk, c.width, c.offs, part, b, c'.buf, c.buf);
    Suffixes(c.buf, before, sent);
    Suffixes(block, c.buf, got);
    assert c.dirty || c.buf == before;
  }

  /** What is still to be committed: a full commit or a full load settles it, a short one does not. */
  lemma DirtyAfterMove(c: Cache, b: nat, sent: nat, got: nat)
    requires c.Shaped() && b < c.Blocks() && sent <= c.width && got <= c.width && (b != c.offs || !c.active)
    ensures SetPos(c, b, sent, got).dirty <==> c.dirty && got != c.width && !(c.active && sent == c.width)
  {
    BlockOnDisk(c, b);
    if c.active {
      BlockOnDisk(c, c.offs);
    }
  }

  /** Clearing leaves the device as readers saw it exactly when what it failed to send was already there. */
  lemma ClearUnderFailures(c: Cache, sent: nat)
    requires c.Coherent() && sent <= c.width
    ensures !Clear(c, sent).active && (Clear(c, sent).dirty <==> c.dirty && !(c.active && sent == c.width))
    ensures Clear(c, sent).disk == c.View() <==> CommitHarmless(c, sent)
  {
    if c.active {
      BlockOnDisk(c, c.offs);
      var before := Block(c.disk, c.width, c.offs);
      if c.dirty {
        var part := c.buf[..sent] + before[sent..];
        PartialOverlay(c.disk, c.width, c.offs, c.buf, sent);
        OverlayInjective(c.disk, c.width, c.offs, part, c.buf);
        Suffixes(c.buf, before, sent);
      } else {
        OverlaySame(c.disk, c.width, c.offs, c.buf);
      }
    }
  }

  lemma OverlayInjective(disk: seq<byte>, width: nat, b: nat, x: seq<byte>, y: seq<byte>)
    requires OnDisk(disk, width, b) && |x| == |y| == width
    ensures Overlay(disk, width, b, x) == Overlay(disk, width, b, y) <==> x == y
  {
    hide Overlay, Block;
    OverlayOwn(disk, width, b, x);
    OverlayOwn(disk, width, b, y);
  }

  /** Writing the first `n` bytes of a block is writing the block with its own tail. */
  lemma PartialOverlay(disk: seq<byte>, width: nat, b: nat, data: seq<byte>, n: nat)
    requires OnDisk(disk, width, b) && |data| == width && n <= width
    ensures Overlay(disk, width, b, data[..n]) == Overlay(disk, width, b, data[..n] + Block(disk, width, b)[n..])
  {
    hide Overlay, Block, OnDisk;
    var at := b * width;
    var whole := data[..n] + Block(disk, width, b)[n..];
    BlockIs(disk, width, b, at);
    OverlayIs(disk, width, b, data[..n]);
    OverlayIs(disk, width, b, whole);
    SpliceTail(disk, at, width, data, n);
  }

  lemma BlockIs(disk: seq<byte>, width: nat, b: nat, at: nat)
    requires OnDisk(disk, width, b) && at == b * width
    ensures at + width <= |disk| && Block(disk, width, b) == disk[at..at + width]
  {
  }

  lemma OverlayIs(disk: seq<byte>, width: nat, b: nat, data: seq<byte>)
    requires OnDisk(disk, width, b) && |data| <= width
    ensures Overlay(disk, width, b, data) == disk[..b * width] + data + disk[b * width + |data|..]
  {
  }

  lemma SpliceTail(disk: seq<byte>, at: nat, width: nat, data: seq<byte>, n: nat)
    requires at + width <= |disk| && |data| == width && n <= width
    ensures var whole := data[..n] + disk[at..at + width][n..];
      disk[..at] + data[..n] + disk[at + n..] == disk[..at] + whole + disk[at + width..]
  {
    assert disk[at + n..] == disk[at..at + width][n..] + disk[at + width..];
  }

  lemma Suffixes(a: seq<byte>, b: seq<byte>, n: nat)
    requires |a| == |b| && n <= |a|
    ensures a[..n] + b[n..] == a <==> a[n..] == b[n..]
  {
    assert a == a[..n] + a[n..];
    assert (a[..n] + b[n..])[n..] == b[n..];
  }

  /** Two block images over two blocks agree with one over the first exactly when each block's contents agree. */
  lemma TwoOverlays(disk: seq<byte>, width: nat, a: nat, x: seq<byte>, b: nat, y: seq<byte>, z: seq<byte>)
    requires a != b && OnDisk(disk, width, a) && OnDisk(disk, width, b) && |x| == |y| == |z| == width
    ensures Overlay(Overlay(disk, width, a, x), width, b, y) == Overlay(disk, width, a, z)
       <==> x == z && y == Block(disk, width, b)
  {
    var d1 := Overlay(disk, width, a, x);
    var d2 := Overlay(d1, width, b, y);
    var d3 := Overlay(disk, width, a, z);
    OverlayElsewhere(disk, width, a, b, x);
    OverlayElsewhere(disk, width, a, b, z);
    OverlayElsewhere(d1, width, b, a, y);
    OverlayOwn(disk, width, a, x);
    OverlayOwn(disk, width, a, z);
    OverlayOwn(d1, width, b, y);
    if x == z && y == Block(disk, width, b) {
      OverlaySame(d1, width, b, y);
    }
  }

  // ----- The registers -----

  /** Eight bytes, least significant first. */
  type Register = s: seq<byte> | |s| == 8 witness seq(8, i => 0)

  /** `asInt` of the bytes `asRaw`. */
  function Number(s: seq<byte>): nat {
    if s == [] then 0 else s[0] + 0x100 * Number(s[1..])
  }

  /** The `k` low bytes of `n`. */
  function Octets(n: nat, k: nat): (r: seq<byte>)
    ensures |r| == k
  {
    if k == 0 then [] else [n % 0x100] + Octets(n / 0x100, k - 1)
  }

  function Range(k: nat): nat {
    if k == 0 then 1 else 0x100 * Range(k - 1)
  }

  /** A register of `k` bytes keeps every number below its range. */
  lemma {:induction false} NumberOfOctets(n: nat, k: nat)
    requires n < Range(k)
    ensures Number(Octets(n, k)) == n
  {
    if k > 0 {
      NumberOfOctets(n / 0x100, k - 1);
      assert Octets(n, k)[1..] == Octets(n / 0x100, k - 1);
    }
  }

  /** The first byte is the lowest. */
  lemma NumberWrittenOut(r: Register)
    ensures var n: seq<int> := r;
      Number(r) == n[0] + 0x100 * n[1] + 0x1_0000 * n[2] + 0x100_0000 * n[3] + 0x1_0000_0000 * n[4]
                 + 0x100_0000_0000 * n[5] + 0x1_0000_0000_0000 * n[6] + 0x100_0000_0000_0000 * n[7]
  {
    NumberOfEight(r[0], r[1], r[2], r[3], r[4], r[5], r[6], r[7]);
    assert r == [r[0], r[1], r[2], r[3], r[4], r[5], r[6], r[7]];
  }

  lemma NumberOfFour(a: byte, b: byte, c: byte, d: byte, rest: seq<byte>)
    ensures Number([a, b, c, d] + rest) == a + 0x100 * b + 0x1_0000 * c + 0x100_0000 * d + 0x1_0000_0000 * Number(rest)
  {
    NumberOfTwo(a, b, [c, d] + rest);
    NumberOfTwo(c, d, rest);
    assert [a, b] + ([c, d] + rest) == [a, b, c, d] + rest;
  }

  lemma NumberOfTwo(a: byte, b: byte, rest: seq<byte>)
    ensures Number([a, b] + rest) == a + 0x100 * b + 0x1_0000 * Number(rest)
  {
    assert ([a, b] + rest)[1..] == [b] + rest;
    assert ([b] + rest)[1..] == rest;
  }

  lemma NumberOfEight(a: byte, b: byte, c: byte, d: byte, e: byte, f: byte, g: byte, h: byte)
    ensures Number([a, b, c, d, e, f, g, h]) == a + 0x100 * b + 0x1_0000 * c + 0x100_0000 * d + 0x1_0000_0000 * e
                                              + 0x100_0000_0000 * f + 0x1_0000_0000_0000 * g + 0x100_0000_0000_0000 * h
  {
    NumberOfFour(e, f, g, h, []);
    NumberOfFour(a, b, c, d, [e, f, g, h]);
    assert [e, f, g, h] + [] == [e, f, g, h];
    assert [a, b, c, d] + [e, f, g, h] == [a, b, c, d, e, f, g, h];
  }

  lemma RangeOfEight()
    ensures Range(8) == 0x1_0000_0000_0000_0000
  {
    assert Range(4) == 0x1_0000_0000;
  }

  /** `memcpy(&asRaw[at], data, |data|)` */
  function Patch(r: Register, at: nat, data: seq<byte>): Register
    requires at + |data| <= 8
  {
    r[..at] + data + r[at + |data|..]
  }

  // ----- The controller against a flat device -----

  /** One transaction: a part of the address register or of the size register, or data of the selected block. */
  datatype Op =
    | WriteAddress(at: nat, bytes: seq<byte>)
    | ReadAddress(at: nat, n: nat)
    | ReadSize(at: nat, n: nat)
    | Write(pos: nat, data: seq<byte>)
    | Read(pos: nat, n: nat)

  /** The address register, the number in the size register, and the cache. */
  datatype Controller = Controller(address: Register, size: nat, cache: Cache)

  /** What the constructor puts into the size register: blocks for a file, but bytes for a block device. */
  function SizeOf(blockDevice: bool, width: nat, disk: seq<byte>): nat
    requires width > 0
  {
    if blockDevice then |disk| else |disk| / width
  }

  /** So the bound that `transport` asserts is the number of blocks exactly for files, and for one-byte blocks. */
  lemma SizeIsBlocksExactly(blockDevice: bool, width: nat, disk: seq<byte>)
    requires width > 0 && |disk| % width == 0 && disk != []
    ensures SizeOf(blockDevice, width, disk) == |disk| / width <==> !blockDevice || width == 1
    ensures SizeOf(blockDevice, width, disk) >= |disk| / width
  {
    BytesAndBlocks(|disk| / width, width);
  }

  lemma BytesAndBlocks(n: nat, width: nat)
    requires n > 0 && width > 0
    ensures n * width >= n && (n * width == n <==> width == 1)
  {
    if width > 1 {
      MoreBytes(n, width);
    }
  }

  lemma MoreBytes(n: nat, width: nat)
    requires width > 1
    ensures n * width >= n + n
  {
    assert n * width == n * 2 + n * (width - 2);
    assert n * (width - 2) >= 0;
  }

  /** The asserts of `transport`, and accesses that stay inside the register or the block. */
  predicate Allowed(address: Register, width: nat, blocks: nat, op: Op) {
    match op
    case WriteAddress(at, bytes) => at + |bytes| <= 8
    case ReadAddress(at, n) => at + n <= 8
    case ReadSize(at, n) => at + n <= 8
    case Write(pos, data) => Number(address) < blocks && pos + |data| <= width
    case Read(pos, n) => Number(address) < blocks && pos + n <= width
  }

  /** The address register after an access. */
  function Address(address: Register, op: Op): Register {
    if op.WriteAddress? && op.at + |op.bytes| <= 8 then Patch(address, op.at, op.bytes) else address
  }

  /** What a register read returns. */
  function RegisterRead(address: Register, size: nat, op: Op): seq<byte> {
    if op.ReadAddress? && op.at + op.n <= 8 then address[op.at..op.at + op.n]
    else if op.ReadSize? && op.at + op.n <= 8 then Octets(size, 8)[op.at..op.at + op.n]
    else []
  }

  /** One access whose block transfers, if it makes any, move `sent` and `got` bytes. */
  function Access(s: Controller, op: Op, sent: nat, got: nat): (Controller, seq<byte>)
    requires s.cache.Shaped() && Allowed(s.address, s.cache.width, s.cache.Blocks(), op)
    requires sent <= s.cache.width && got <= s.cache.width
  {
    if op.Write? || op.Read? then
      var block := Number(s.address);
      SetPosShaped(s.cache, block, sent, got);
      var c := SetPos(s.cache, block, sent, got);
      if op.Write? then (s.(cache := SetData(c, op.pos, op.data)), [])
      else (s.(cache := c), GetData(c, op.pos, op.n))
    else
      (s.(address := Address(s.address, op)), RegisterRead(s.address, s.size, op))
  }

  /** One access, with successful transfers. */
  function Step(s: Controller, op: Op): (Controller, seq<byte>)
    requires s.cache.Shaped() && Allowed(s.address, s.cache.width, s.cache.Blocks(), op)
  {
    Access(s, op, s.cache.width, s.cache.width)
  }

  /** The same access on a flat byte array. */
  function FlatStep(address: Register, size: nat, width: nat, flat: seq<byte>, op: Op): (r: (Register, seq<byte>, seq<byte>))
    requires width > 0 && |flat| % width == 0 && Allowed(address, width, |flat| / width, op)
    ensures |r.1| == |flat|
    ensures r.0 == Address(address, op)
  {
    var at := Number(address) * width;
    match op
    case Write(pos, data) =>
      FlatRange(Number(address), width, flat, pos, |data|);
      (address, flat[..at + pos] + data + flat[at + pos + |data|..], [])
    case Read(pos, n) =>
      FlatRange(Number(address), width, flat, pos, n);
      (address, flat, flat[at + pos..at + pos + n])
    case _ => (Address(address, op), flat, RegisterRead(address, size, op))
  }

  lemma FlatRange(target: nat, width: nat, flat: seq<byte>, pos: nat, n: nat)
    requires width > 0 && |flat| % width == 0 && target < |flat| / width && pos + n <= width
    ensures target * width + pos + n <= |flat|
  {
    BlockOnDisk(Cache(width, flat, seq(width, i => 0), 0, false, false), target);
  }

  /** One access: the reader gets what the flat array holds, and the flat array stays what readers see. */
  lemma StepRefines(s: Controller, op: Op)
    requires s.cache.Coherent() && Allowed(s.address, s.cache.width, s.cache.Blocks(), op)
    ensures var (s', out) := Step(s, op);
      && s'.cache.Coherent() && s'.cache.width == s.cache.width && s'.size == s.size
      && FlatStep(s.address, s.size, s.cache.width, s.cache.View(), op) == (s'.address, s'.cache.View(), out)
  {
    match op
    case Write(pos, data) => WriteRefines(s, pos, data);
    case Read(pos, n) => ReadRefines(s, pos, n);
    case _ =>
  }

  lemma WriteRefines(s: Controller, pos: nat, data: seq<byte>)
    requires s.cache.Coherent() && Allowed(s.address, s.cache.width, s.cache.Blocks(), Write(pos, data))
    ensures var (s', out) := Step(s, Write(pos, data));
      && s'.cache.Coherent() && s'.cache.width == s.cache.width && s'.size == s.size
      && FlatStep(s.address, s.size, s.cache.width, s.cache.View(), Write(pos, data)) == (s'.address, s'.cache.View(), out)
  {
    hide SetPos, Overlay;
    var c := SetPos(s.cache, Number(s.address), s.cache.width, s.cache.width);
    SetPosShaped(s.cache, Number(s.address), s.cache.width, s.cache.width);
    SetPosKeepsView(s.cache, Number(s.address));
    SetPosWidth(s.cache, Number(s.address));
    BlockOnDisk(c, Number(s.address));
    OverlayWrite(c.disk, c.width, Number(s.address), c.buf, pos, data);
  }

  lemma ReadRefines(s: Controller, pos: nat, n: nat)
    requires s.cache.Coherent() && Allowed(s.address, s.cache.width, s.cache.Blocks(), Read(pos, n))
    ensures var (s', out) := Step(s, Read(pos, n));
      && s'.cache.Coherent() && s'.cache.width == s.cache.width && s'.size == s.size
      && FlatStep(s.address, s.size, s.cache.width, s.cache.View(), Read(pos, n)) == (s'.address, s'.cache.View(), out)
  {
    hide SetPos, Overlay;
    var c := SetPos(s.cache, Number(s.address), s.cache.width, s.cache.width);
    SetPosShaped(s.cache, Number(s.address), s.cache.width, s.cache.width);
    SetPosKeepsView(s.cache, Number(s.address));
    SetPosWidth(s.cache, Number(s.address));
    BlockOnDisk(c, Number(s.address));
    OverlayRead(c.disk, c.width, Number(s.address), c.buf, pos, n);
  }

  lemma SetPosWidth(c: Cache, b: nat)
    requires c.Shaped()
    ensures SetPos(c, b, c.width, c.width).width == c.width
  {
  }

  /** Storing into the buffered block is storing into what readers see. */
  lemma OverlayWrite(disk: seq<byte>, width: nat, b: nat, buf: seq<byte>, pos: nat, data: seq<byte>)
    requires OnDisk(disk, width, b) && |buf| == width && pos + |data| <= width
    ensures var flat, at := Overlay(disk, width, b, buf), b * width + pos;
      Overlay(disk, width, b, buf[..pos] + data + buf[pos + |data|..]) == flat[..at] + data + flat[at + |data|..]
  {
    var flat, at := Overlay(disk, width, b, buf), b * width + pos;
    var l := Overlay(disk, width, b, buf[..pos] + data + buf[pos + |data|..]);
    var r := flat[..at] + data + flat[at + |data|..];
    assert |l| == |r|;
    forall i | 0 <= i < |l|
      ensures l[i] == r[i]
    {
    }
  }

  lemma OverlayRead(disk: seq<byte>, width: nat, b: nat, buf: seq<byte>, pos: nat, n: nat)
    requires OnDisk(disk, width, b) && |buf| == width && pos + n <= width
    ensures Overlay(disk, width, b, buf)[b * width + pos..b * width + pos + n] == buf[pos..pos + n]
  {
  }

  /** Clearing writes everything back. */
  lemma ClearCommits(c: Cache)
    requires c.Coherent()
    ensures Clear(c, c.width).disk == c.View() && !Clear(c, c.width).active
  {
    if c.active {
      BlockOnDisk(c, c.offs);
      assert c.buf[..c.width] == c.buf;
      OverlaySame(c.disk, c.width, c.offs, c.buf);
    }
  }

  // ----- What the registers are for -----

  /** A write to the address register changes the bytes it addresses, each to its own byte, and nothing else. */
  lemma AddressWrite(s: Controller, at: nat, bytes: seq<byte>, sent: nat, got: nat)
    requires s.cache.Shaped() && at + |bytes| <= 8 && sent <= s.cache.width && got <= s.cache.width
    ensures var (s', out) := Access(s, WriteAddress(at, bytes), sent, got);
      && (forall j :: 0 <= j < 8 ==> s'.address[j] == if at <= j < at + |bytes| then bytes[j - at] else s.address[j])
      && s'.cache == s.cache && s'.size == s.size && out == []
  {
  }

  /** A read of the address register returns its bytes and changes nothing. */
  lemma AddressRead(s: Controller, at: nat, n: nat, sent: nat, got: nat)
    requires s.cache.Shaped() && at + n <= 8 && sent <= s.cache.width && got <= s.cache.width
    ensures Access(s, ReadAddress(at, n), sent, got) == (s, s.address[at..at + n])
  {
  }

  /** It returns what was written last, byte for byte. */
  lemma AddressReadsBack(s: Controller, at: nat, bytes: seq<byte>)
    requires s.cache.Shaped() && at + |bytes| <= 8
    ensures var s' := Step(s, WriteAddress(at, bytes)).0; Step(s', ReadAddress(at, |bytes|)) == (s', bytes)
  {
    var s' := Step(s, WriteAddress(at, bytes)).0;
    AddressWrite(s, at, bytes, s.cache.width, s.cache.width);
    assert s'.address[at..at + |bytes|] == bytes;
  }

  /** A read of the size register returns bytes of the size, lowest first, and changes nothing. */
  lemma SizeRead(s: Controller, at: nat, n: nat)
    requires s.cache.Shaped() && at + n <= 8
    ensures var out := Step(s, ReadSize(at, n)).1; Step(s, ReadSize(at, n)).0 == s && |out| == n
    ensures at == 0 && n == 8 && s.size < 0x1_0000_0000_0000_0000 ==> Number(Step(s, ReadSize(at, n)).1) == s.size
    ensures Step(s, ReadSize(at, n)).1 == Step(s, ReadSize(0, 8)).1[at..at + n]
  {
    RangeOfEight();
    assert Octets(s.size, 8)[0..8] == Octets(s.size, 8);
    if s.size < 0x1_0000_0000_0000_0000 {
      NumberOfOctets(s.size, 8);
    }
  }

  /**
   * A driver that stores a block number into the address register in two parts, split anywhere, and then reads
   * data gets the bytes of that block, wherever the register and the buffer were before.
   */
  lemma SelectThenRead(s: Controller, block: nat, k: nat, pos: nat, n: nat)
    requires s.cache.Coherent() && block < s.cache.Blocks() && block < 0x1_0000_0000_0000_0000
    requires k <= 8 && pos + n <= s.cache.width
    ensures var bytes := Octets(block, 8);
      var s1 := Step(s, WriteAddress(0, bytes[..k])).0;
      var s2 := Step(s1, WriteAddress(k, bytes[k..])).0;
      && s2.cache == s.cache && Number(s2.address) == block
      && block * s.cache.width + pos + n <= |s.cache.View()|
      && Step(s2, Read(pos, n)).1 == s.cache.View()[block * s.cache.width + pos..block * s.cache.width + pos + n]
  {
    hide Access, FlatStep, Cache.View, Cache.Coherent, Octets, Number;
    var bytes := Octets(block, 8);
    var s2 := TwoWrites(s, bytes, k);
    RangeOfEight();
    NumberOfOctets(block, 8);
    SelectedRead(s2, pos, n, block * s.cache.width);
  }

  lemma TwoWrites(s: Controller, bytes: Register, k: nat) returns (s2: Controller)
    requires s.cache.Coherent() && k <= 8
    ensures s2 == Step(Step(s, WriteAddress(0, bytes[..k])).0, WriteAddress(k, bytes[k..])).0
    ensures s2.address == bytes && s2.cache == s.cache
  {
    var s1 := Step(s, WriteAddress(0, bytes[..k])).0;
    s2 := Step(s1, WriteAddress(k, bytes[k..])).0;
    AddressWrite(s, 0, bytes[..k], s.cache.width, s.cache.width);
    AddressWrite(s1, k, bytes[k..], s.cache.width, s.cache.width);
    forall j | 0 <= j < 8
      ensures s2.address[j] == bytes[j]
    {
    }
  }

  lemma FlatRead(address: Register, size: nat, width: nat, flat: seq<byte>, pos: nat, n: nat, at: nat)
    requires width > 0 && |flat| % width == 0 && Number(address) < |flat| / width && pos + n <= width
    requires at == Number(address) * width
    ensures at + pos + n <= |flat| && FlatStep(address, size, width, flat, Read(pos, n)).2 == flat[at + pos..at + pos + n]
  {
    FlatRange(Number(address), width, flat, pos, n);
  }

  lemma SelectedRead(s: Controller, pos: nat, n: nat, at: nat)
    requires s.cache.Coherent() && Number(s.address) < s.cache.Blocks() && pos + n <= s.cache.width
    requires at == Number(s.address) * s.cache.width
    ensures at + pos + n <= |s.cache.View()| && Step(s, Read(pos, n)).1 == s.cache.View()[at + pos..at + pos + n]
  {
    hide FlatStep, Step;
    FlatRead(s.address, s.size, s.cache.width, s.cache.View(), pos, n, at);
    StepRefines(s, Read(pos, n));
  }

  // ----- Whole histories -----

  /** Every access of a history is allowed when it comes. */
  predicate AllAllowed(address: Register, width: nat, blocks: nat, ops: seq<Op>)
    decreases |ops|
  {
    ops == [] ||
    (Allowed(address, width, blocks, ops[0]) && AllAllowed(Address(address, ops[0]), width, blocks, ops[1..]))
  }

  /** The flat array after a history, and everything read on the way. */
  function FlatRun(address: Register, size: nat, width: nat, flat: seq<byte>, ops: seq<Op>): (seq<byte>, seq<seq<byte>>)
    requires width > 0 && |flat| % width == 0 && AllAllowed(address, width, |flat| / width, ops)
    decreases |ops|
  {
    if ops == [] then (flat, [])
    else
      hide FlatStep;
      var (address', flat', out) := FlatStep(address, size, width, flat, ops[0]);
      var (last, outs) := FlatRun(address', size, width, flat', ops[1..]);
      (last, [out] + outs)
  }

  /** The cached device over the same history, cleared at the end as the destructor does. */
  function CachedRun(s: Controller, ops: seq<Op>): (seq<byte>, seq<seq<byte>>)
    requires s.cache.Coherent() && AllAllowed(s.address, s.cache.width, s.cache.Blocks(), ops)
    decreases |ops|
  {
    if ops == [] then (Clear(s.cache, s.cache.width).disk, [])
    else
      StepRefines(s, ops[0]);
      var (s', out) := Step(s, ops[0]);
      assert |s'.cache.disk| == |s'.cache.View()| == |s.cache.disk|;
      var (disk, outs) := CachedRun(s', ops[1..]);
      (disk, [out] + outs)
  }

  /**
   * For every history of register accesses, reads and writes: each read returns what a flat array would, and after
   * the final clear the device is that array.
   */
  lemma {:induction false} CacheRefinesFlat(s: Controller, ops: seq<Op>)
    requires s.cache.Coherent() && AllAllowed(s.address, s.cache.width, s.cache.Blocks(), ops)
    ensures CachedRun(s, ops) == FlatRun(s.address, s.size, s.cache.width, s.cache.View(), ops)
    decreases |ops|
  {
    if ops == [] {
      ClearCommits(s.cache);
    } else {
      StepRefines(s, ops[0]);
      var (s', out) := Step(s, ops[0]);
      assert |s'.cache.disk| == |s'.cache.View()| == |s.cache.disk|;
      CacheRefinesFlat(s', ops[1..]);
    }
  }
}
