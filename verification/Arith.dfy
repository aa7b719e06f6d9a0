/** Machine arithmetic of the datapath: 8-bit storage, 32-bit accumulators, and requantisation. */
module Arith {

  /** `sc_int<8>` */
  type int8 = x: int | -0x80 <= x < 0x80

  /** `int` and `sc_int<32>` */
  type int32 = x: int | -0x8000_0000 <= x < 0x8000_0000

  /** What an arithmetic expression on `sc_int` values is computed in. */
  type int64 = x: int | -0x8000_0000_0000_0000 <= x < 0x8000_0000_0000_0000

  const MIN32 := -0x8000_0000
  const MAX32 := 0x7fff_ffff

  predicate Fits32(x: int) {
    MIN32 <= x <= MAX32
  }

  /** Storing into an 8-bit cell keeps the low eight bits. */
  function Wrap8(x: int): (r: int8)
    ensures (x - r) % 0x100 == 0
    ensures r == x <==> -0x80 <= x < 0x80
  {
    (x + 0x80) % 0x100 - 0x80
  }

  /** Storing into a 32-bit cell keeps the low 32 bits. */
  function Wrap32(x: int): (r: int32)
    ensures (x - r) % 0x1_0000_0000 == 0
    ensures r == x <==> Fits32(x)
  {
    (x + 0x8000_0000) % 0x1_0000_0000 - 0x8000_0000
  }

  /** Wrapping at every step of an accumulation is the same as wrapping once at its end. */
  lemma WrapAdd(x: int, y: int)
    ensures Wrap32(Wrap32(x) + y) == Wrap32(x + y)
  {
    var q := (x - Wrap32(x)) / 0x1_0000_0000;
    assert x == Wrap32(x) + q * 0x1_0000_0000;
    assert (Wrap32(x) + y + 0x8000_0000 + q * 0x1_0000_0000) % 0x1_0000_0000
        == (Wrap32(x) + y + 0x8000_0000) % 0x1_0000_0000;
  }

  lemma MulMonotone(a: nat, b: nat, t: nat)
    requires a <= b
    ensures a * t <= b * t
  {
  }

  lemma Distribute(a: int, t: int)
    ensures (a + 1) * t == a * t + t
  {
  }

  lemma RowsApart(h: int, h': int, width: nat, x: int)
    requires h < h' && 0 <= x < width
    ensures h * width + x < h' * width
    ensures h * width + width <= h' * width
  {
    assert (h' - h) * width >= width by {
      MulMonotone(1, h' - h, width);
    }
    assert h' * width == h * width + (h' - h) * width;
  }

  function Max(a: int, b: int): int {
    if a < b then b else a
  }

  /** Arithmetic shift right by 16: rounds towards minus infinity. */
  function Shr16(x: int): int {
    x / 0x1_0000
  }

  /** ReLU and requantisation of a sum `x` by the multiplier `k`, on unbounded integers. */
  function Requant(x: int, k: nat): nat {
    Max(0, Shr16(x * k))
  }

  /** The same in C: the product is a 32-bit `int`. */
  function Requant32(x: int, k: nat): nat {
    if Shr16(Wrap32(x * k)) > 0 then Shr16(Wrap32(x * k)) else 0
  }

  lemma Requant32Exact(x: int, k: nat)
    requires Fits32(x * k)
    ensures Requant32(x, k) == Requant(x, k)
  {
  }

  /** The 32-bit product changes an activation exactly when it overflows. */
  lemma Requant32ExactlyWhen(x: int, k: nat)
    requires -0xffff_0000 <= x * k
    ensures Requant32(x, k) == Requant(x, k) <==> Fits32(x * k)
  {
    var p := x * k;
    if p > MAX32 {
      assert Requant(x, k) >= 0x8000 > Requant32(x, k);
    } else if p < MIN32 {
      assert Wrap32(p) == p + 0x1_0000_0000;
    }
  }

  /** In eight bits the difference disappears when the upper half of the product ends in a zero byte. */
  lemma StoredRequantExactlyWhen(x: int, k: nat)
    requires -0xffff_0000 <= x * k < 0x1_0000_0000
    ensures Wrap8(Requant32(x, k)) == Wrap8(Requant(x, k)) <==> Fits32(x * k) || Shr16(x * k) % 0x100 == 0
  {
    hide Wrap8;
    var p := x * k;
    StoredZero(Shr16(p));
    if p > MAX32 {
      WrapsDown(p);
    } else if p < MIN32 {
      WrapsUp(p);
      StoredShifted(Shr16(p));
    }
  }

  lemma StoredZero(v: int)
    ensures Wrap8(v) == Wrap8(0) <==> v % 0x100 == 0
  {
  }

  lemma StoredShifted(v: int)
    ensures Wrap8(v + 0x1_0000) == Wrap8(v)
  {
    assert (v + 0x1_0000 + 0x80) % 0x100 == (v + 0x80 + 0x100 * 0x100) % 0x100 == (v + 0x80) % 0x100;
  }

  /** A product just above 32 bits comes back negative. */
  lemma WrapsDown(p: int)
    requires MAX32 < p < 0x1_0000_0000
    ensures Shr16(Wrap32(p)) < 0 < Shr16(p)
  {
    assert Wrap32(p) == p - 0x1_0000_0000;
  }

  /** A product just below comes back positive. */
  lemma WrapsUp(p: int)
    requires -0xffff_0000 <= p < MIN32
    ensures Shr16(p) < 0 < Shr16(Wrap32(p)) == Shr16(p) + 0x1_0000
  {
    assert Wrap32(p) == p + 0x1_0000_0000;
  }

  /** The product of a 32-bit accumulator and an `int` constant, computed in 64 bits, is exact. */
  lemma WideProductFits(a: int32, k: nat)
    requires k <= MAX32
    ensures -0x8000_0000_0000_0000 <= a * k < 0x8000_0000_0000_0000
  {
    assert -0x8000_0000 * k <= a * k <= 0x8000_0000 * k;
  }

  lemma RequantMonotone(x: int, y: int, k: nat)
    requires x <= y
    ensures Requant(x, k) <= Requant(y, k)
  {
    assert x * k <= y * k;
  }

  /** The largest of `a` and the first `n` elements of `s`. */
  function MaxFrom(a: int, s: seq<int>, n: nat): int
    requires n <= |s|
  {
    if n == 0 then a else Max(MaxFrom(a, s, n - 1), s[n - 1])
  }

  function RequantAll(s: seq<int>, k: nat): (r: seq<int>)
    ensures |r| == |s|
  {
    seq(|s|, i requires 0 <= i < |s| => Requant(s[i], k))
  }

  /**
   * Fusing commutes: taking the ReLU-clamped maximum of the sums and requantising once gives what
   * requantising every sum and then pooling gives, for any non-empty window and any multiplier.
   */
  lemma FuseCommutes(s: seq<int>, k: nat)
    requires s != []
    ensures Requant(MaxFrom(0, s, |s|), k) == MaxFrom(Requant(s[0], k), RequantAll(s, k), |s|)
  {
    FusePrefix(s, k, |s|);
  }

  lemma {:induction false} FusePrefix(s: seq<int>, k: nat, n: nat)
    requires 1 <= n <= |s|
    ensures Requant(MaxFrom(0, s, n), k) == MaxFrom(Requant(s[0], k), RequantAll(s, k), n)
  {
    RequantMax(MaxFrom(0, s, n - 1), s[n - 1], k);
    if n == 1 {
      RequantMax(0, s[0], k);
    } else {
      FusePrefix(s, k, n - 1);
    }
  }

  lemma RequantMax(a: int, b: int, k: nat)
    ensures Requant(Max(a, b), k) == Max(Requant(a, k), Requant(b, k))
  {
    if a < b {
      RequantMonotone(a, b, k);
    } else {
      RequantMonotone(b, a, k);
    }
  }
}
