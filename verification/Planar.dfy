/** Real arithmetic shared by the occupancy grid and the orientation code.

    Square roots enter the models only through `IsRoot`: whoever needs the root of
    `x` passes one in, so no property of a particular root function is assumed. */
module Planar {

  function Square(x: real): (s: real)
    ensures s >= 0.0
  {
    x * x
  }

  ghost predicate IsRoot(root: real, x: real) {
    root >= 0.0 && root * root == x
  }

  /** `hypot` is the planar length, as `math.hypot` computes it. */
  ghost predicate IsHypot(hypot: (real, real) -> real) {
    forall a, b :: IsRoot(hypot(a, b), Square(a) + Square(b))
  }

  function Min(a: real, b: real): real { if b < a then b else a }

  function Max(a: real, b: real): real { if b > a then b else a }

  function Abs(a: real): real { if a < 0.0 then -a else a }

  lemma ProductSign(a: real, b: real)
    ensures a >= 0.0 && b >= 0.0 ==> a * b >= 0.0
    ensures a > 0.0 && b > 0.0 ==> a * b > 0.0
  {
  }

  lemma SquareOrder(a: real, b: real)
    requires a >= 0.0 && b >= 0.0
    ensures a * a <= b * b <==> a <= b
    ensures a * a < b * b <==> a < b
    ensures a * a == b * b <==> a == b
  {
    var gap, sum := b - a, b + a;
    assert b * b - a * a == gap * sum;
    ProductSign(gap, sum);
    ProductSign(-gap, sum);
    assert (-gap) * sum == -(gap * sum);
  }

  /** An equation multiplied by `k`. */
  lemma Times(k: real, a: real, b: real)
    requires a == b
    ensures k * a == k * b
  {
  }

  lemma MulOrder(a: real, b: real, c: real)
    requires c >= 0.0 && a <= b
    ensures a * c <= b * c
    ensures c > 0.0 && a < b ==> a * c < b * c
  {
    ProductSign(b - a, c);
    assert b * c - a * c == (b - a) * c;
  }

  /** Cauchy-Schwarz in the plane, for vectors whose lengths are at most `m` and `n`. */
  lemma DotBound(a0: real, a1: real, b0: real, b1: real, m: real, n: real)
    requires m >= 0.0 && n >= 0.0
    requires Square(a0) + Square(a1) <= m * m
    requires Square(b0) + Square(b1) <= n * n
    ensures a0 * b0 + a1 * b1 <= m * n
  {
    var dot, cross := a0 * b0 + a1 * b1, a0 * b1 - a1 * b0;
    var lenA, lenB := a0 * a0 + a1 * a1, b0 * b0 + b1 * b1;
    assert dot * dot + cross * cross == lenA * lenB;
    assert cross * cross >= 0.0;
    MulOrder(lenA, m * m, lenB);
    MulOrder(lenB, n * n, m * m);
    assert (m * m) * (n * n) == (m * n) * (m * n);
    assert m * n >= 0.0;
    if dot > m * n {
      SquareOrder(m * n, dot);
    }
  }

  /** Triangle inequality in the plane: two legs of length at most `m` and `n`. */
  lemma Triangle(a0: real, a1: real, b0: real, b1: real, m: real, n: real)
    requires m >= 0.0 && n >= 0.0
    requires Square(a0) + Square(a1) <= m * m
    requires Square(b0) + Square(b1) <= n * n
    ensures Square(a0 + b0) + Square(a1 + b1) <= Square(m + n)
  {
    DotBound(a0, a1, b0, b1, m, n);
    var dot := a0 * b0 + a1 * b1;
    assert Square(a0 + b0) == a0 * a0 + 2.0 * (a0 * b0) + b0 * b0;
    assert Square(a1 + b1) == a1 * a1 + 2.0 * (a1 * b1) + b1 * b1;
    assert Square(m + n) == m * m + 2.0 * (m * n) + n * n;
  }

  lemma Cancel(k: real, a: real, b: real)
    requires k > 0.0 && k * a == k * b
    ensures a == b
  {
    ProductSign(k, a - b);
    ProductSign(k, b - a);
    assert k * (a - b) == k * a - k * b && k * (b - a) == k * b - k * a;
  }
}
