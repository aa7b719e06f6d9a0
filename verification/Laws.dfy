/**
 * What the sums and maxima of the layers mean, without their loops: a window sum is the sum of products under the
 * window and nothing else, a pooled value is the maximum of its four, a dot product pairs inputs with weights.
 */
module Laws {
  import opened Arith
  import opened Convolution
  import opened FullyConnected

  // ----- Window sums -----

  /** The image as seen from position `(y, x)`. */
  function Moved(img: Tensor, y: int, x: int): Tensor {
    (c, i, j) => img(c, y + i, x + j)
  }

  lemma {:induction false} TapsShift(img: Tensor, w: Kernels, m: int, c: int, y: int, x: int, r: int, s: nat)
    ensures TapSum(img, w, m, c, y, x, r, s) == TapSum(Moved(img, y, x), w, m, c, 0, 0, r, s)
  {
    if s > 0 {
      TapsShift(img, w, m, c, y, x, r, s - 1);
      assert Moved(img, y, x)(c, 0 + r, 0 + (s - 1)) == img(c, y + r, x + (s - 1));
    }
  }

  lemma {:induction false} RowsShift(img: Tensor, w: Kernels, m: int, c: int, y: int, x: int, r: nat)
    ensures RowSum(img, w, m, c, y, x, r) == RowSum(Moved(img, y, x), w, m, c, 0, 0, r)
  {
    if r > 0 {
      RowsShift(img, w, m, c, y, x, r - 1);
      TapsShift(img, w, m, c, y, x, r - 1, w.size);
    }
  }

  lemma {:induction false} ChannelsShift(img: Tensor, w: Kernels, m: int, y: int, x: int, c: nat)
    ensures ChannelSum(img, w, m, y, x, c) == ChannelSum(Moved(img, y, x), w, m, 0, 0, c)
  {
    if c > 0 {
      ChannelsShift(img, w, m, y, x, c - 1);
      RowsShift(img, w, m, c - 1, y, x, w.size);
    }
  }

  /** The shift law: the sum at any position is the sum at the origin of the image moved there. */
  lemma WindowShift(img: Tensor, w: Kernels, m: int, y: int, x: int)
    ensures WindowSum(img, w, m, y, x) == WindowSum((c, i, j) => img(c, y + i, x + j), w, m, 0, 0)
  {
    ChannelsShift(img, w, m, y, x, w.inC);
    assert Moved(img, y, x) == ((c, i, j) => img(c, y + i, x + j));
  }

  function Plus(a: Tensor, b: Tensor): Tensor {
    (c, y, x) => a(c, y, x) + b(c, y, x)
  }

  lemma {:induction false} TapsAdd(a: Tensor, b: Tensor, w: Kernels, m: int, c: int, y: int, x: int, r: int, s: nat)
    ensures TapSum(Plus(a, b), w, m, c, y, x, r, s) == TapSum(a, w, m, c, y, x, r, s) + TapSum(b, w, m, c, y, x, r, s)
  {
    if s > 0 {
      TapsAdd(a, b, w, m, c, y, x, r, s - 1);
      SumTimes(a(c, y + r, x + (s - 1)), b(c, y + r, x + (s - 1)), w.at(m, c, r, s - 1));
    }
  }

  lemma SumTimes(a: int, b: int, v: int)
    ensures (a + b) * v == a * v + b * v
  {
  }

  lemma {:induction false} RowsAdd(a: Tensor, b: Tensor, w: Kernels, m: int, c: int, y: int, x: int, r: nat)
    ensures RowSum(Plus(a, b), w, m, c, y, x, r) == RowSum(a, w, m, c, y, x, r) + RowSum(b, w, m, c, y, x, r)
  {
    if r > 0 {
      RowsAdd(a, b, w, m, c, y, x, r - 1);
      TapsAdd(a, b, w, m, c, y, x, r - 1, w.size);
    }
  }

  lemma {:induction false} ChannelsAdd(a: Tensor, b: Tensor, w: Kernels, m: int, y: int, x: int, c: nat)
    ensures ChannelSum(Plus(a, b), w, m, y, x, c) == ChannelSum(a, w, m, y, x, c) + ChannelSum(b, w, m, y, x, c)
  {
    if c > 0 {
      ChannelsAdd(a, b, w, m, y, x, c - 1);
      RowsAdd(a, b, w, m, c - 1, y, x, w.size);
    }
  }

  /** The window sum is additive in the image. */
  lemma WindowAdds(a: Tensor, b: Tensor, w: Kernels, m: int, y: int, x: int)
    ensures WindowSum((c, i, j) => a(c, i, j) + b(c, i, j), w, m, y, x) == WindowSum(a, w, m, y, x) + WindowSum(b, w, m, y, x)
  {
    ChannelsAdd(a, b, w, m, y, x, w.inC);
    assert Plus(a, b) == ((c, i, j) => a(c, i, j) + b(c, i, j));
  }

  ghost predicate ZeroElsewhere(img: Tensor, w: Kernels, y: int, x: int, c: int, r: int, s: int) {
    forall c', i, j :: 0 <= c' < w.inC && y <= i < y + w.size && x <= j < x + w.size ==>
      img(c', i, j) == 0 || (c' == c && i == y + r && j == x + s)
  }

  /** Under the window at `(y, x)` the image is `v` at tap `(c, r, s)` and zero at every other tap. */
  ghost predicate IsImpulse(img: Tensor, w: Kernels, y: int, x: int, c: int, r: int, s: int, v: int) {
    && 0 <= c < w.inC && 0 <= r < w.size && 0 <= s < w.size && img(c, y + r, x + s) == v
    && ZeroElsewhere(img, w, y, x, c, r, s)
  }

  lemma {:induction false} ImpulseTaps(img: Tensor, w: Kernels, m: int, y: int, x: int, c: int, r: int, s: int, v: int,
                                       c': int, r': int, n: nat)
    requires IsImpulse(img, w, y, x, c, r, s, v) && 0 <= c' < w.inC && 0 <= r' < w.size && n <= w.size
    ensures TapSum(img, w, m, c', y, x, r', n) == if c' == c && r' == r && s < n then v * w.at(m, c, r, s) else 0
  {
    if n > 0 {
      ImpulseTaps(img, w, m, y, x, c, r, s, v, c', r', n - 1);
      assert img(c', y + r', x + (n - 1)) == if c' == c && r' == r && n - 1 == s then v else 0;
    }
  }

  lemma {:induction false} ImpulseRows(img: Tensor, w: Kernels, m: int, y: int, x: int, c: int, r: int, s: int, v: int,
                                       c': int, n: nat)
    requires IsImpulse(img, w, y, x, c, r, s, v) && 0 <= c' < w.inC && n <= w.size
    ensures RowSum(img, w, m, c', y, x, n) == if c' == c && r < n then v * w.at(m, c, r, s) else 0
  {
    hide IsImpulse;
    InRange(img, w, y, x, c, r, s, v);
    if n > 0 {
      ImpulseRows(img, w, m, y, x, c, r, s, v, c', n - 1);
      ImpulseTaps(img, w, m, y, x, c, r, s, v, c', n - 1, w.size);
    }
  }

  lemma InRange(img: Tensor, w: Kernels, y: int, x: int, c: int, r: int, s: int, v: int)
    requires IsImpulse(img, w, y, x, c, r, s, v)
    ensures 0 <= c < w.inC && 0 <= r < w.size && 0 <= s < w.size
  {
  }

  lemma {:induction false} ImpulseChannels(img: Tensor, w: Kernels, m: int, y: int, x: int, c: int, r: int, s: int, v: int, n: nat)
    requires IsImpulse(img, w, y, x, c, r, s, v) && n <= w.inC
    ensures ChannelSum(img, w, m, y, x, n) == if c < n then v * w.at(m, c, r, s) else 0
  {
    hide IsImpulse;
    InRange(img, w, y, x, c, r, s, v);
    if n > 0 {
      ImpulseChannels(img, w, m, y, x, c, r, s, v, n - 1);
      ImpulseRows(img, w, m, y, x, c, r, s, v, n - 1, w.size);
    }
  }

  /**
   * The impulse response, at every position: an image that is `v` under one tap of the window and zero under the
   * others sums to `v` times that tap's weight, whatever it is outside the window.
   */
  lemma WindowImpulse(img: Tensor, w: Kernels, m: int, y: int, x: int, c: int, r: int, s: int, v: int)
    requires 0 <= c < w.inC && 0 <= r < w.size && 0 <= s < w.size && img(c, y + r, x + s) == v
    requires forall c', i, j :: 0 <= c' < w.inC && y <= i < y + w.size && x <= j < x + w.size ==>
               img(c', i, j) == 0 || (c' == c && i == y + r && j == x + s)
    ensures WindowSum(img, w, m, y, x) == v * w.at(m, c, r, s)
  {
    assert IsImpulse(img, w, y, x, c, r, s, v);
    ImpulseChannels(img, w, m, y, x, c, r, s, v, w.inC);
  }

  // ----- Requantisation and pooling -----

  /** Requantisation rounds a non-negative product down to a multiple of 2^16, and takes negative ones to zero. */
  lemma RequantIsFloor(x: int, k: nat, r: nat)
    ensures r == Requant(x, k) <==> if x * k < 0 then r == 0 else r * 0x1_0000 <= x * k < (r + 1) * 0x1_0000
  {
  }

  /** A pooled activation is at least each of the four requantised sums under its 2x2 window, and is one of them. */
  lemma PooledIsMaximum(img: Tensor, w: Kernels, k: nat, m: int, h: int, x: int)
    ensures var v := PooledTensor(img, w, k)(m, h, x);
            var a, b := Requant(WindowSum(img, w, m, 2 * h, 2 * x), k), Requant(WindowSum(img, w, m, 2 * h, 2 * x + 1), k);
            var c, d := Requant(WindowSum(img, w, m, 2 * h + 1, 2 * x), k), Requant(WindowSum(img, w, m, 2 * h + 1, 2 * x + 1), k);
            a <= v && b <= v && c <= v && d <= v && (v == a || v == b || v == c || v == d)
    ensures FusedTensor(img, w, k)(m, h, x) == Wrap8(PooledTensor(img, w, k)(m, h, x))
  {
    hide WindowSum, Requant;
    FusedIsPooled(img, w, k, m, h, x);
    MaxOfFour(Quad(ConvTensor(img, w, k), m, h, x));
  }

  lemma MaxOfFour(s: seq<int>)
    requires |s| == 4
    ensures var v := MaxFrom(s[0], s, 4); s[0] <= v && s[1] <= v && s[2] <= v && s[3] <= v && v in s
  {
    assert MaxFrom(s[0], s, 1) == s[0];
    assert MaxFrom(s[0], s, 2) == Max(s[0], s[1]);
    assert MaxFrom(s[0], s, 3) == Max(MaxFrom(s[0], s, 2), s[2]);
    assert MaxFrom(s[0], s, 4) == Max(MaxFrom(s[0], s, 3), s[3]);
  }

  // ----- Dot products -----

  /** A single non-zero input meets the weight of its own column. */
  lemma {:induction false} DotImpulse(x: Vec, w: Matrix, row: int, n: nat, i: nat)
    requires i < n && forall j :: 0 <= j < n && j != i ==> x(j) == 0
    ensures Dot(x, w, row, n) == x(i) * w.at(row, i)
  {
    if i < n - 1 {
      DotImpulse(x, w, row, n - 1, i);
    } else {
      DotZero(x, w, row, n - 1);
    }
  }

  lemma {:induction false} DotZero(x: Vec, w: Matrix, row: int, n: nat)
    requires forall j :: 0 <= j < n ==> x(j) == 0
    ensures Dot(x, w, row, n) == 0
  {
    if n > 0 {
      DotZero(x, w, row, n - 1);
    }
  }

  function PlusVec(a: Vec, b: Vec): Vec {
    i => a(i) + b(i)
  }

  /** The dot product is additive in the inputs. */
  lemma {:induction false} DotAdds(a: Vec, b: Vec, w: Matrix, row: int, n: nat)
    ensures Dot(i => a(i) + b(i), w, row, n) == Dot(a, w, row, n) + Dot(b, w, row, n)
  {
    assert PlusVec(a, b) == (i => a(i) + b(i));
    if n > 0 {
      DotAdds(a, b, w, row, n - 1);
      SumTimes(a(n - 1), b(n - 1), w.at(row, n - 1));
    }
  }
}
