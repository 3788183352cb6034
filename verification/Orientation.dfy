/** Rotation matrices and quaternions, as the adapter converts between them.

    The algebra is kept in one-equation predicates: leaf lemmas unfold a few of
    them, and the lemmas that put the pieces together hide them. */
module Orientation {
  import opened Planar
  import opened Wrappers

  datatype Vec = Vec(x: real, y: real, z: real)

  datatype Quat = Quat(x: real, y: real, z: real, w: real)

  function Dot(a: Vec, b: Vec): real { a.x * b.x + a.y * b.y + a.z * b.z }

  function Cross(a: Vec, b: Vec): Vec {
    Vec(a.y * b.z - a.z * b.y, a.z * b.x - a.x * b.z, a.x * b.y - a.y * b.x)
  }

  /** A right-handed orthonormal column basis. */
  ghost predicate Rotation(x: Vec, y: Vec, z: Vec) {
    && Dot(x, x) == 1.0 && Dot(y, y) == 1.0 && Dot(z, z) == 1.0
    && Dot(x, y) == 0.0 && Dot(y, z) == 0.0 && Dot(z, x) == 0.0
    && Cross(x, y) == z
  }

  function NormSquared(q: Quat): real { q.x * q.x + q.y * q.y + q.z * q.z + q.w * q.w }

  /** Columns of the rotation matrix of a unit quaternion. */
  function ColumnX(q: Quat): Vec {
    Vec(1.0 - 2.0 * (q.y * q.y + q.z * q.z), 2.0 * (q.x * q.y + q.z * q.w), 2.0 * (q.x * q.z - q.y * q.w))
  }

  function ColumnY(q: Quat): Vec {
    Vec(2.0 * (q.x * q.y - q.z * q.w), 1.0 - 2.0 * (q.x * q.x + q.z * q.z), 2.0 * (q.y * q.z + q.x * q.w))
  }

  function ColumnZ(q: Quat): Vec {
    Vec(2.0 * (q.x * q.z + q.y * q.w), 2.0 * (q.y * q.z - q.x * q.w), 1.0 - 2.0 * (q.x * q.x + q.y * q.y))
  }

  // ------------------------------------------------------- one-equation facts

  ghost predicate Minor(m: real, a: real, b: real, c: real, d: real) { m == a * b - c * d }

  ghost predicate Orthogonal(a: real, b: real, c: real, d: real, e: real, f: real) {
    a * b + c * d + e * f == 0.0
  }

  ghost predicate Unit(a: real, b: real, c: real) { a * a + b * b + c * c == 1.0 }

  /** `k l = t m`: two entries of a rank-one matrix against a pivot. */
  ghost predicate Ratio(k: real, l: real, t: real, m: real) { k * l == t * m }

  ghost predicate Product(a: real, b: real, m: real) { 4.0 * (a * b) == m }

  // ---------------------------------------- entries of a rotation matrix

  ghost predicate Columns(x: Vec, y: Vec, z: Vec) {
    && Unit(x.x, x.y, x.z) && Unit(y.x, y.y, y.z) && Unit(z.x, z.y, z.z)
    && Orthogonal(x.x, y.x, x.y, y.y, x.z, y.z)
    && Orthogonal(y.x, z.x, y.y, z.y, y.z, z.z)
    && Orthogonal(z.x, x.x, z.y, x.y, z.z, x.z)
  }

  /** Every entry is its own cofactor. */
  ghost predicate Cofactors(x: Vec, y: Vec, z: Vec) {
    && Minor(x.x, y.y, z.z, y.z, z.y) && Minor(x.y, y.z, z.x, y.x, z.z) && Minor(x.z, y.x, z.y, y.y, z.x)
    && Minor(y.x, z.y, x.z, z.z, x.y) && Minor(y.y, z.z, x.x, z.x, x.z) && Minor(y.z, z.x, x.y, z.y, x.x)
    && Minor(z.x, x.y, y.z, x.z, y.y) && Minor(z.y, x.z, y.x, x.x, y.z) && Minor(z.z, x.x, y.y, x.y, y.x)
  }

  ghost predicate Rows(x: Vec, y: Vec, z: Vec) {
    Columns(Vec(x.x, y.x, z.x), Vec(x.y, y.y, z.y), Vec(x.z, y.z, z.z))
  }

  lemma RotationColumns(x: Vec, y: Vec, z: Vec)
    requires Rotation(x, y, z)
    ensures Columns(x, y, z)
  {
  }

  lemma DoubleCrossEntry(p: real, q: real, r: real, u: real, v: real, w: real, c1: real, c2: real)
    requires p * p + q * q + r * r == 1.0 && p * u + q * v + r * w == 0.0
    requires c1 == u * q - v * p && c2 == w * p - u * r
    ensures q * c1 - r * c2 == u
  {
    Times(q, c1, u * q - v * p);
    Times(r, c2, w * p - u * r);
    Times(u, p * p + q * q + r * r, 1.0);
    Times(p, p * u + q * v + r * w, 0.0);
  }

  /** The axes relabelled cyclically. */
  function Turn(a: Vec): Vec { Vec(a.y, a.z, a.x) }

  lemma TurnKeeps(a: Vec, b: Vec)
    ensures Dot(Turn(a), Turn(b)) == Dot(a, b) && Cross(Turn(a), Turn(b)) == Turn(Cross(a, b))
  {
  }

  lemma DoubleCrossX(a: Vec, b: Vec)
    requires Dot(a, a) == 1.0 && Dot(a, b) == 0.0
    ensures Cross(a, Cross(b, a)).x == b.x
  {
    var c := Cross(b, a);
    DoubleCrossEntry(a.x, a.y, a.z, b.x, b.y, b.z, c.z, c.y);
  }

  /** `a x (b x a)` is `b` when `a` is a unit vector orthogonal to `b`. */
  lemma DoubleCross(a: Vec, b: Vec)
    requires Dot(a, a) == 1.0 && Dot(a, b) == 0.0
    ensures Cross(a, Cross(b, a)) == b
  {
    hide Dot, Cross;
    var c, ta, tb := Cross(b, a), Turn(a), Turn(b);
    TurnKeeps(a, a);
    TurnKeeps(a, b);
    TurnKeeps(b, a);
    TurnKeeps(a, c);
    TurnKeeps(ta, ta);
    TurnKeeps(ta, tb);
    TurnKeeps(tb, ta);
    TurnKeeps(ta, Turn(c));
    DoubleCrossX(a, b);
    DoubleCrossX(ta, tb);
    DoubleCrossX(Turn(ta), Turn(tb));
  }

  function Opposite(a: Vec): Vec { Vec(-a.x, -a.y, -a.z) }

  lemma CrossFlips(a: Vec, b: Vec)
    ensures Dot(a, b) == Dot(b, a) && Cross(b, a) == Opposite(Cross(a, b))
  {
  }

  lemma CrossOpposite(a: Vec, c: Vec)
    ensures Cross(c, a) == Cross(a, Opposite(c))
  {
  }

  lemma AntiCross(a: Vec, b: Vec)
    ensures Dot(a, b) == Dot(b, a)
    ensures Cross(Cross(a, b), a) == Cross(a, Cross(b, a))
  {
    hide Dot, Cross, Opposite;
    CrossFlips(a, b);
    CrossOpposite(a, Cross(a, b));
  }

  lemma Cyclic(x: Vec, y: Vec, z: Vec)
    requires Rotation(x, y, z)
    ensures Cross(y, z) == x && Cross(z, x) == y
  {
    hide Dot, Cross;
    AntiCross(x, y);
    DoubleCross(x, y);
    DoubleCross(y, x);
  }

  lemma CrossMinors(a: Vec, b: Vec)
    ensures var c := Cross(a, b);
            Minor(c.x, a.y, b.z, a.z, b.y) && Minor(c.y, a.z, b.x, a.x, b.z) && Minor(c.z, a.x, b.y, a.y, b.x)
  {
  }

  lemma RotationCofactors(x: Vec, y: Vec, z: Vec)
    requires Rotation(x, y, z)
    ensures Cofactors(x, y, z)
  {
    Cyclic(x, y, z);
    CrossMinors(x, y);
    CrossMinors(y, z);
    CrossMinors(z, x);
    hide Minor, Cross, Dot;
  }

  /** Cofactors make two rows orthogonal, and carry a column's unit length to a row. */
  lemma RowsOrthogonal(a: real, b: real, c: real, d: real, e: real, f: real, g: real, h: real, i: real)
    requires Minor(d, h, c, b, i) && Minor(e, i, a, c, g) && Minor(f, g, b, a, h)
    ensures Orthogonal(a, d, b, e, c, f)
  {
    Times(a, d, h * c - b * i);
    Times(b, e, i * a - c * g);
    Times(c, f, g * b - a * h);
  }

  lemma RowUnit(a: real, b: real, c: real, d: real, e: real, f: real, g: real, h: real, i: real)
    requires Minor(a, e, i, h, f) && Minor(b, f, g, i, d) && Minor(c, d, h, g, e)
    requires Minor(d, h, c, b, i) && Minor(g, b, f, e, c)
    requires Unit(a, d, g)
    ensures Unit(a, b, c)
  {
    Times(b, b, f * g - i * d);
    Times(c, c, d * h - g * e);
    Times(d, d, h * c - b * i);
    Times(g, g, b * f - e * c);
  }

  lemma UnitTurn(a: real, b: real, c: real)
    requires Unit(a, b, c)
    ensures Unit(b, c, a) && Unit(c, a, b)
  {
  }

  lemma RotationRows(x: Vec, y: Vec, z: Vec)
    requires Columns(x, y, z) && Cofactors(x, y, z)
    ensures Rows(x, y, z)
  {
    hide Minor, Orthogonal, Unit;
    UnitTurn(x.x, x.y, x.z);
    UnitTurn(y.x, y.y, y.z);
    UnitTurn(z.x, z.y, z.z);
    RowsOrthogonal(x.x, y.x, z.x, x.y, y.y, z.y, x.z, y.z, z.z);
    RowsOrthogonal(x.y, y.y, z.y, x.z, y.z, z.z, x.x, y.x, z.x);
    RowsOrthogonal(x.z, y.z, z.z, x.x, y.x, z.x, x.y, y.y, z.y);
    RowUnit(x.x, y.x, z.x, x.y, y.y, z.y, x.z, y.z, z.z);
    RowUnit(x.y, y.y, z.y, x.z, y.z, z.z, x.x, y.x, z.x);
    RowUnit(x.z, y.z, z.z, x.x, y.x, z.x, x.y, y.y, z.y);
  }

  // ------------------------------------------------------ rank-one identities

  /** The four pivots: `4 q_i^2` in terms of the diagonal. */
  function PivotW(x: Vec, y: Vec, z: Vec): real { 1.0 + x.x + y.y + z.z }
  function PivotX(x: Vec, y: Vec, z: Vec): real { 1.0 + x.x - y.y - z.z }
  function PivotY(x: Vec, y: Vec, z: Vec): real { 1.0 + y.y - x.x - z.z }
  function PivotZ(x: Vec, y: Vec, z: Vec): real { 1.0 + z.z - x.x - y.y }

  /** The rank-one identities of the pair (x, y) and of the axis x. */
  ghost predicate PivotIdentities(x: Vec, y: Vec, z: Vec) {
    && Ratio(y.x + x.y, y.x + x.y, PivotX(x, y, z), PivotY(x, y, z))
    && Ratio(x.y - y.x, x.y - y.x, PivotW(x, y, z), PivotZ(x, y, z))
    && Ratio(y.z - z.y, z.x - x.z, PivotW(x, y, z), y.x + x.y)
    && Ratio(y.z - z.y, z.x + x.z, PivotX(x, y, z), x.y - y.x)
    && Ratio(y.z - z.y, y.x + x.y, PivotX(x, y, z), z.x - x.z)
    && Ratio(y.x + x.y, z.x + x.z, PivotX(x, y, z), z.y + y.z)
  }

  lemma MirrorSum(a: real, b: real, c: real, d: real, e: real, f: real, g: real, h: real, i: real)
    requires Unit(a, b, c) && Unit(d, e, f) && Unit(g, h, i)
    requires Unit(a, d, g) && Unit(b, e, h) && Unit(c, f, i)
    ensures d * d + b * b == 1.0 - a * a - e * e + i * i
  {
  }

  lemma MirrorSquares(a: real, e: real, i: real, p: real, q: real)
    requires p * p + q * q == 1.0 - a * a - e * e + i * i && Minor(i, a, e, p, q)
    ensures Ratio(q + p, q + p, 1.0 + a - e - i, 1.0 + e - a - i)
    ensures Ratio(p - q, p - q, 1.0 + a + e + i, 1.0 + i - a - e)
  {
    assert (q + p) * (q + p) == p * p + q * q + 2.0 * (p * q);
    assert (p - q) * (p - q) == p * p + q * q - 2.0 * (p * q);
    assert (1.0 + a - e - i) * (1.0 + e - a - i) == 1.0 - a * a - e * e + i * i + 2.0 * (a * e) - 2.0 * i;
    assert (1.0 + a + e + i) * (1.0 + i - a - e) == 1.0 - a * a - e * e + i * i - 2.0 * (a * e) + 2.0 * i;
  }

  lemma Mirror(a: real, b: real, c: real, d: real, e: real, f: real, g: real, h: real, i: real)
    requires Unit(a, b, c) && Unit(d, e, f) && Unit(g, h, i)
    requires Unit(a, d, g) && Unit(b, e, h) && Unit(c, f, i) && Minor(i, a, e, d, b)
    ensures Ratio(b + d, b + d, 1.0 + a - e - i, 1.0 + e - a - i)
    ensures Ratio(d - b, d - b, 1.0 + a + e + i, 1.0 + i - a - e)
  {
    MirrorSum(a, b, c, d, e, f, g, h, i);
    MirrorSquares(a, e, i, d, b);
  }

  lemma AroundW(a: real, b: real, c: real, d: real, e: real, f: real, g: real, h: real, i: real)
    requires Minor(d, h, c, b, i) && Minor(b, f, g, i, d)
    requires Orthogonal(a, b, d, e, g, h) && Orthogonal(a, d, b, e, c, f)
    ensures Ratio(h - f, c - g, 1.0 + a + e + i, b + d)
    ensures Ratio(h - f, c + g, 1.0 + a - e - i, d - b)
  {
    assert (h - f) * (c - g) == h * c - g * h - c * f + f * g;
    assert (h - f) * (c + g) == h * c + g * h - c * f - f * g;
    assert (1.0 + a + e + i) * (b + d) == d + b + a * d + a * b + d * e + b * e + i * d + b * i;
    assert (1.0 + a - e - i) * (d - b) == d - b + a * d - a * b - d * e + b * e - i * d + b * i;
  }

  lemma AroundX(a: real, b: real, c: real, d: real, e: real, f: real, g: real, h: real, i: real)
    requires Minor(c, d, h, g, e) && Minor(g, b, f, e, c)
    requires Orthogonal(c, a, f, d, i, g) && Orthogonal(g, a, h, b, i, c)
    ensures Ratio(h - f, b + d, 1.0 + a - e - i, c - g)
  {
    assert (h - f) * (b + d) == d * h + b * h - f * d - b * f;
    assert (1.0 + a - e - i) * (c - g) == c - g + c * a - a * g - e * c + g * e - c * i + i * g;
  }

  lemma AroundYZ(a: real, b: real, c: real, d: real, e: real, f: real, g: real, h: real, i: real)
    requires Minor(f, g, b, a, h) && Minor(h, c, d, f, a)
    requires Orthogonal(d, g, e, h, f, i) && Orthogonal(b, c, e, f, h, i)
    ensures Ratio(b + d, c + g, 1.0 + a - e - i, f + h)
  {
    assert (b + d) * (c + g) == c * d + d * g + b * c + g * b;
    assert (1.0 + a - e - i) * (f + h) == f + h + f * a + a * h - e * f - e * h - f * i - h * i;
  }

  lemma RotationPivots(x: Vec, y: Vec, z: Vec)
    requires Columns(x, y, z) && Rows(x, y, z) && Cofactors(x, y, z)
    ensures PivotIdentities(x, y, z)
  {
    hide Minor, Orthogonal, Unit, Ratio;
    Mirror(x.x, y.x, z.x, x.y, y.y, z.y, x.z, y.z, z.z);
    AroundW(x.x, y.x, z.x, x.y, y.y, z.y, x.z, y.z, z.z);
    AroundX(x.x, y.x, z.x, x.y, y.y, z.y, x.z, y.z, z.z);
    AroundYZ(x.x, y.x, z.x, x.y, y.y, z.y, x.z, y.z, z.z);
  }

  /** Relabelling the axes cyclically keeps a rotation a rotation. */
  lemma TurnedRotation(x: Vec, y: Vec, z: Vec)
    requires Rotation(x, y, z)
    ensures Rotation(Turn(y), Turn(z), Turn(x))
  {
    hide Dot, Cross, Turn;
    Cyclic(x, y, z);
    TurnKeeps(x, x);
    TurnKeeps(y, y);
    TurnKeeps(z, z);
    TurnKeeps(x, y);
    TurnKeeps(y, z);
    TurnKeeps(z, x);
  }

  lemma PivotsOf(x: Vec, y: Vec, z: Vec)
    requires Rotation(x, y, z)
    ensures PivotIdentities(x, y, z)
  {
    RotationColumns(x, y, z);
    RotationCofactors(x, y, z);
    RotationRows(x, y, z);
    RotationPivots(x, y, z);
  }

  /** All eighteen rank-one identities: those of each of the three relabellings. */
  ghost predicate AllPivots(x: Vec, y: Vec, z: Vec) {
    && PivotIdentities(x, y, z)
    && PivotIdentities(Turn(y), Turn(z), Turn(x))
    && PivotIdentities(Turn(Turn(z)), Turn(Turn(x)), Turn(Turn(y)))
  }

  lemma RotationAllPivots(x: Vec, y: Vec, z: Vec)
    requires Rotation(x, y, z)
    ensures AllPivots(x, y, z)
  {
    hide Rotation, Turn, PivotIdentities;
    TurnedRotation(x, y, z);
    TurnedRotation(Turn(y), Turn(z), Turn(x));
    PivotsOf(x, y, z);
    PivotsOf(Turn(y), Turn(z), Turn(x));
    PivotsOf(Turn(Turn(z)), Turn(Turn(x)), Turn(Turn(y)));
  }

  // ------------------------------------------------------ the four branches

  function Over(k: real, s: real): real
    requires s != 0.0
  {
    k / s
  }

  lemma OverTimes(k: real, s: real)
    requires s > 0.0
    ensures Over(k, s) * s == k
  {
  }

  lemma PivotShare(s: real, k: real)
    requires s > 0.0
    ensures Product(Over(k, s), 0.25 * s, k) && Product(0.25 * s, Over(k, s), k)
  {
    OverTimes(k, s);
    hide Over;
  }

  lemma PivotSquare(s: real, t: real)
    requires s * s == 4.0 * t
    ensures Product(0.25 * s, 0.25 * s, t)
  {
  }

  lemma ShareOf(s: real, t: real, a: real, b: real, k: real, l: real, kl: real)
    requires t > 0.0 && s * s == 4.0 * t && k * l == t * kl
    requires a * s == k && b * s == l
    ensures 4.0 * (a * b) == kl
  {
    Times(b * s, a * s, k);
    Times(k, b * s, l);
    Times(a * b, s * s, 4.0 * t);
    assert t * (4.0 * (a * b)) == t * kl;
    Cancel(t, 4.0 * (a * b), kl);
  }

  lemma Share(s: real, t: real, k: real, l: real, kl: real)
    requires s > 0.0 && t > 0.0 && s * s == 4.0 * t && Ratio(k, l, t, kl)
    ensures Product(Over(k, s), Over(l, s), kl) && Product(Over(l, s), Over(k, s), kl)
  {
    OverTimes(k, s);
    OverTimes(l, s);
    hide Over;
    ShareOf(s, t, Over(k, s), Over(l, s), k, l, kl);
  }

  /** `s` is twice the root of the pivot `t` a branch divides by. */
  ghost predicate ScaleOf(s: real, t: real) { s > 0.0 && t > 0.0 && s * s == 4.0 * t }

  /** The products `4 q_i q_j` read off a rotation matrix. */
  ghost predicate Recovers(q: Quat, x: Vec, y: Vec, z: Vec) {
    && Product(q.w, q.w, PivotW(x, y, z)) && Product(q.x, q.x, PivotX(x, y, z))
    && Product(q.y, q.y, PivotY(x, y, z)) && Product(q.z, q.z, PivotZ(x, y, z))
    && Product(q.x, q.w, y.z - z.y) && Product(q.y, q.w, z.x - x.z) && Product(q.z, q.w, x.y - y.x)
    && Product(q.x, q.y, y.x + x.y) && Product(q.x, q.z, z.x + x.z) && Product(q.y, q.z, z.y + y.z)
  }

  lemma RecoversNorm(q: Quat, x: Vec, y: Vec, z: Vec)
    requires Recovers(q, x, y, z)
    ensures NormSquared(q) == 1.0
  {
  }

  lemma RecoversX(q: Quat, x: Vec, y: Vec, z: Vec)
    requires Recovers(q, x, y, z)
    ensures ColumnX(q) == x
  {
  }

  lemma RecoversY(q: Quat, x: Vec, y: Vec, z: Vec)
    requires Recovers(q, x, y, z)
    ensures ColumnY(q) == y
  {
  }

  lemma RecoversZ(q: Quat, x: Vec, y: Vec, z: Vec)
    requires Recovers(q, x, y, z)
    ensures ColumnZ(q) == z
  {
  }

  lemma RecoversMatrix(q: Quat, x: Vec, y: Vec, z: Vec)
    requires Recovers(q, x, y, z)
    ensures NormSquared(q) == 1.0
    ensures ColumnX(q) == x && ColumnY(q) == y && ColumnZ(q) == z
  {
    hide Recovers, NormSquared, ColumnX, ColumnY, ColumnZ;
    RecoversNorm(q, x, y, z);
    RecoversX(q, x, y, z);
    RecoversY(q, x, y, z);
    RecoversZ(q, x, y, z);
  }

  lemma BranchW(x: Vec, y: Vec, z: Vec, s: real)
    requires AllPivots(x, y, z) && ScaleOf(s, PivotW(x, y, z))
    ensures Recovers(Quat(Over(y.z - z.y, s), Over(z.x - x.z, s), Over(x.y - y.x, s), 0.25 * s), x, y, z)
  {
    var t := PivotW(x, y, z);
    PivotSquare(s, t);
    PivotShare(s, y.z - z.y);
    PivotShare(s, z.x - x.z);
    PivotShare(s, x.y - y.x);
    hide Ratio, Product, Over;
    Share(s, t, y.z - z.y, y.z - z.y, PivotX(x, y, z));
    Share(s, t, z.x - x.z, z.x - x.z, PivotY(x, y, z));
    Share(s, t, x.y - y.x, x.y - y.x, PivotZ(x, y, z));
    Share(s, t, y.z - z.y, z.x - x.z, y.x + x.y);
    Share(s, t, z.x - x.z, x.y - y.x, z.y + y.z);
    Share(s, t, x.y - y.x, y.z - z.y, z.x + x.z);
  }

  lemma RatioSwap(k: real, t: real, m: real)
    requires Ratio(k, k, t, m)
    ensures Ratio(k, k, m, t)
  {
  }

  lemma BranchX(x: Vec, y: Vec, z: Vec, s: real)
    requires AllPivots(x, y, z) && ScaleOf(s, PivotX(x, y, z))
    ensures Recovers(Quat(0.25 * s, Over(y.x + x.y, s), Over(z.x + x.z, s), Over(y.z - z.y, s)), x, y, z)
  {
    var t := PivotX(x, y, z);
    PivotSquare(s, t);
    PivotShare(s, y.z - z.y);
    PivotShare(s, y.x + x.y);
    PivotShare(s, z.x + x.z);
    hide Ratio, Product, Over;
    RatioSwap(y.z - z.y, PivotW(x, y, z), t);
    RatioSwap(z.x + x.z, PivotZ(x, y, z), t);
    Share(s, t, y.z - z.y, y.z - z.y, PivotW(x, y, z));
    Share(s, t, y.x + x.y, y.x + x.y, PivotY(x, y, z));
    Share(s, t, z.x + x.z, z.x + x.z, PivotZ(x, y, z));
    Share(s, t, y.z - z.y, y.x + x.y, z.x - x.z);
    Share(s, t, y.z - z.y, z.x + x.z, x.y - y.x);
    Share(s, t, y.x + x.y, z.x + x.z, z.y + y.z);
  }

  lemma BranchY(x: Vec, y: Vec, z: Vec, s: real)
    requires AllPivots(x, y, z) && ScaleOf(s, PivotY(x, y, z))
    ensures Recovers(Quat(Over(y.x + x.y, s), 0.25 * s, Over(z.y + y.z, s), Over(z.x - x.z, s)), x, y, z)
  {
    var t := PivotY(x, y, z);
    PivotSquare(s, t);
    PivotShare(s, z.x - x.z);
    PivotShare(s, y.x + x.y);
    PivotShare(s, z.y + y.z);
    hide Ratio, Product, Over;
    RatioSwap(z.x - x.z, PivotW(x, y, z), t);
    RatioSwap(y.x + x.y, PivotX(x, y, z), t);
    Share(s, t, z.x - x.z, z.x - x.z, PivotW(x, y, z));
    Share(s, t, y.x + x.y, y.x + x.y, PivotX(x, y, z));
    Share(s, t, z.y + y.z, z.y + y.z, PivotZ(x, y, z));
    Share(s, t, z.x - x.z, y.x + x.y, y.z - z.y);
    Share(s, t, z.x - x.z, z.y + y.z, x.y - y.x);
    Share(s, t, z.y + y.z, y.x + x.y, z.x + x.z);
  }

  lemma BranchZ(x: Vec, y: Vec, z: Vec, s: real)
    requires AllPivots(x, y, z) && ScaleOf(s, PivotZ(x, y, z))
    ensures Recovers(Quat(Over(z.x + x.z, s), Over(z.y + y.z, s), 0.25 * s, Over(x.y - y.x, s)), x, y, z)
  {
    var t := PivotZ(x, y, z);
    PivotSquare(s, t);
    PivotShare(s, x.y - y.x);
    PivotShare(s, z.x + x.z);
    PivotShare(s, z.y + y.z);
    hide Ratio, Product, Over;
    RatioSwap(x.y - y.x, PivotW(x, y, z), t);
    RatioSwap(z.y + y.z, PivotY(x, y, z), t);
    Share(s, t, x.y - y.x, x.y - y.x, PivotW(x, y, z));
    Share(s, t, z.x + x.z, z.x + x.z, PivotX(x, y, z));
    Share(s, t, z.y + y.z, z.y + y.z, PivotY(x, y, z));
    Share(s, t, x.y - y.x, z.y + y.z, z.x - x.z);
    Share(s, t, x.y - y.x, z.x + x.z, y.z - z.y);
    Share(s, t, z.x + x.z, z.y + y.z, y.x + x.y);
  }

  // ------------------------------------------------------- the conversion

  datatype GeometryError = TelemetryInvalid | DivisionByZero

  const MIN_LENGTH := 0.00000001
  const MAX_VERTICAL := 0.98

  /** `root` is `math.sqrt`. */
  ghost predicate IsSqrt(root: real -> real) {
    forall v :: v >= 0.0 ==> IsRoot(root(v), v)
  }

  function Normalize(root: real -> real, a: Vec): Result<Vec, GeometryError> {
    var length := root(Dot(a, a));
    if length <= MIN_LENGTH then Failure(TelemetryInvalid)
    else Success(Vec(Over(a.x, length), Over(a.y, length), Over(a.z, length)))
  }

  function NormalizeQuat(root: real -> real, q: Quat): Result<Quat, GeometryError> {
    var length := root(NormSquared(q));
    if length <= MIN_LENGTH then Failure(TelemetryInvalid)
    else Success(Quat(Over(q.x, length), Over(q.y, length), Over(q.z, length), Over(q.w, length)))
  }

  /** The branch and the scale the conversion picks. */
  function BranchScale(root: real -> real, x: Vec, y: Vec, z: Vec): real {
    if x.x + y.y + z.z > 0.0 then root(x.x + y.y + z.z + 1.0) * 2.0
    else if x.x > y.y && x.x > z.z then root(Max(0.0, PivotX(x, y, z))) * 2.0
    else if y.y > z.z then root(Max(0.0, PivotY(x, y, z))) * 2.0
    else root(Max(0.0, PivotZ(x, y, z))) * 2.0
  }

  function RawQuaternion(x: Vec, y: Vec, z: Vec, s: real): Quat
    requires s != 0.0
  {
    if x.x + y.y + z.z > 0.0 then
      Quat(Over(y.z - z.y, s), Over(z.x - x.z, s), Over(x.y - y.x, s), 0.25 * s)
    else if x.x > y.y && x.x > z.z then
      Quat(0.25 * s, Over(y.x + x.y, s), Over(z.x + x.z, s), Over(y.z - z.y, s))
    else if y.y > z.z then
      Quat(Over(y.x + x.y, s), 0.25 * s, Over(z.y + y.z, s), Over(z.x - x.z, s))
    else
      Quat(Over(z.x + x.z, s), Over(z.y + y.z, s), 0.25 * s, Over(x.y - y.x, s))
  }

  /** `_matrix_columns_to_quaternion`. */
  function ColumnsToQuaternion(root: real -> real, xAxis: Vec, yAxis: Vec, zAxis: Vec): Result<Quat, GeometryError> {
    var x, y, z := Normalize(root, xAxis), Normalize(root, yAxis), Normalize(root, zAxis);
    if x.Failure? || y.Failure? || z.Failure? then Failure(TelemetryInvalid)
    else
      var s := BranchScale(root, x.value, y.value, z.value);
      if s == 0.0 then Failure(DivisionByZero)
      else NormalizeQuat(root, RawQuaternion(x.value, y.value, z.value, s))
  }

  lemma RootOfOne(root: real -> real)
    requires IsSqrt(root)
    ensures root(1.0) == 1.0
  {
    assert IsRoot(root(1.0), 1.0);
    SquareOrder(root(1.0), 1.0);
  }

  lemma NormalizeUnit(root: real -> real, a: Vec)
    requires IsSqrt(root) && Dot(a, a) == 1.0
    ensures Normalize(root, a) == Success(a)
  {
    RootOfOne(root);
  }

  lemma NormalizeUnitQuat(root: real -> real, q: Quat)
    requires IsSqrt(root) && NormSquared(q) == 1.0
    ensures NormalizeQuat(root, q) == Success(q)
  {
    RootOfOne(root);
  }

  lemma TwiceRoot(root: real -> real, t: real)
    requires IsSqrt(root) && t > 0.0
    ensures ScaleOf(root(t) * 2.0, t)
  {
    var r := root(t);
    assert IsRoot(r, t);
    assert (r * 2.0) * (r * 2.0) == 4.0 * (r * r);
  }

  /** No branch divides by zero, and each recovers the matrix's products. */
  lemma RawRecovers(root: real -> real, x: Vec, y: Vec, z: Vec)
    requires IsSqrt(root) && AllPivots(x, y, z)
    ensures BranchScale(root, x, y, z) > 0.0
    ensures Recovers(RawQuaternion(x, y, z, BranchScale(root, x, y, z)), x, y, z)
  {
    hide Ratio, Product, Over;
    var s := BranchScale(root, x, y, z);
    if x.x + y.y + z.z > 0.0 {
      TwiceRoot(root, PivotW(x, y, z));
      BranchW(x, y, z, s);
    } else if x.x > y.y && x.x > z.z {
      TwiceRoot(root, PivotX(x, y, z));
      BranchX(x, y, z, s);
    } else if y.y > z.z {
      TwiceRoot(root, PivotY(x, y, z));
      BranchY(x, y, z, s);
    } else {
      TwiceRoot(root, PivotZ(x, y, z));
      BranchZ(x, y, z, s);
    }
  }

  /** Every rotation is converted, to a unit quaternion with exactly that matrix. */
  lemma QuaternionIsTheRotation(root: real -> real, x: Vec, y: Vec, z: Vec)
    requires IsSqrt(root) && Rotation(x, y, z)
    ensures var q := ColumnsToQuaternion(root, x, y, z);
            && q.Success? && NormSquared(q.value) == 1.0
            && ColumnX(q.value) == x && ColumnY(q.value) == y && ColumnZ(q.value) == z
  {
    NormalizeUnit(root, x);
    NormalizeUnit(root, y);
    NormalizeUnit(root, z);
    RotationAllPivots(x, y, z);
    RawRecovers(root, x, y, z);
    var q := RawQuaternion(x, y, z, BranchScale(root, x, y, z));
    RecoversMatrix(q, x, y, z);
    NormalizeUnitQuat(root, q);
    hide Over, Dot, Cross, NormSquared, ColumnX, ColumnY, ColumnZ, BranchScale, RawQuaternion, Normalize, NormalizeQuat;
  }

  // ---------------------------------------------------- the agent's heading

  /** Godot (X right, Y up, -Z forward) to canonical (+X forward, +Y left, +Z up), and back. */
  function ToCanonical(g: Vec): Vec { Vec(-g.z, -g.x, g.y) }

  function ToGodot(c: Vec): Vec { Vec(-c.y, c.z, -c.x) }

  lemma CoordinatesRoundTrip(v: Vec)
    ensures ToGodot(ToCanonical(v)) == v && ToCanonical(ToGodot(v)) == v
    ensures Dot(ToCanonical(v), ToCanonical(v)) == Dot(v, v)
  {
  }

  const UP := Vec(0.0, 0.0, 1.0)

  /** `_agent_quaternion`: `forward` is the agent's Godot forward vector, if it reports one. */
  function AgentQuaternion(root: real -> real, forward: Option<Vec>): Result<Quat, GeometryError> {
    match forward
    case None => Success(Quat(0.0, 0.0, 0.0, 1.0))
    case Some(godot) =>
      match Normalize(root, ToCanonical(godot)) {
        case Failure(e) => Failure(e)
        case Success(ahead) =>
          if Abs(Dot(ahead, UP)) > MAX_VERTICAL then Failure(TelemetryInvalid)
          else
            match Normalize(root, Cross(UP, ahead)) {
              case Failure(e) => Failure(e)
              case Success(left) =>
                match Normalize(root, Cross(ahead, left)) {
                  case Failure(e) => Failure(e)
                  case Success(up) => ColumnsToQuaternion(root, ahead, left, up)
                }
            }
      }
  }

  lemma UnitFromScaled(a: Vec, v: Vec, length: real)
    requires length > 0.0 && Dot(a, a) == length * length
    requires v.x * length == a.x && v.y * length == a.y && v.z * length == a.z
    ensures Dot(v, v) == 1.0
  {
    calc {
      (length * length) * (v.x * v.x) + (length * length) * (v.y * v.y) + (length * length) * (v.z * v.z);
    == { ScaledSquare(v.x, length, a.x); ScaledSquare(v.y, length, a.y); ScaledSquare(v.z, length, a.z); }
      Dot(a, a);
    ==
      length * length;
    }
    SharesOfUnit(length, v.x * v.x, v.y * v.y, v.z * v.z);
  }

  lemma SharesOfUnit(length: real, x: real, y: real, z: real)
    requires length > 0.0
    requires (length * length) * x + (length * length) * y + (length * length) * z == length * length
    ensures x + y + z == 1.0
  {
    var excess := x + y + z - 1.0;
    if excess != 0.0 {
      PositiveTriple(length, if excess > 0.0 then excess else -excess);
    }
  }

  lemma PositiveTriple(k: real, m: real)
    requires k > 0.0 && m > 0.0
    ensures (k * k) * m > 0.0
  {
    ProductSign(k, k);
    ProductSign(k * k, m);
  }

  lemma ScaledSquare(v: real, length: real, a: real)
    requires v * length == a
    ensures (length * length) * (v * v) == a * a
  {
    Times(v * length, v * length, a);
    Times(a, v * length, a);
  }

  lemma NormalizedIsUnit(root: real -> real, a: Vec)
    requires IsSqrt(root)
    ensures var v := Normalize(root, a);
            v.Success? ==>
              && Dot(v.value, v.value) == 1.0
              && a == Vec(v.value.x * root(Dot(a, a)), v.value.y * root(Dot(a, a)), v.value.z * root(Dot(a, a)))
  {
    var length := root(Dot(a, a));
    SquareSum(a);
    assert IsRoot(length, Dot(a, a));
    if length > MIN_LENGTH {
      OverTimes(a.x, length);
      OverTimes(a.y, length);
      OverTimes(a.z, length);
      hide Over, Dot;
      UnitFromScaled(a, Normalize(root, a).value, length);
    }
  }

  lemma SquareSum(a: Vec)
    ensures Dot(a, a) >= 0.0
  {
    assert a.x * a.x >= 0.0 && a.y * a.y >= 0.0 && a.z * a.z >= 0.0;
  }

  /** The left vector of a heading that is not near vertical: level, unit, and never degenerate. */
  lemma LeftOfHeading(root: real -> real, ahead: Vec)
    requires IsSqrt(root) && Dot(ahead, ahead) == 1.0 && Abs(ahead.z) <= MAX_VERTICAL
    ensures var left := Normalize(root, Cross(UP, ahead));
            left.Success? && Dot(left.value, left.value) == 1.0
            && Dot(ahead, left.value) == 0.0 && left.value.z == 0.0
  {
    var raw := Cross(UP, ahead);
    assert raw == Vec(-ahead.y, ahead.x, 0.0);
    var length := root(Dot(raw, raw));
    HeadingLength(ahead, raw);
    assert IsRoot(length, Dot(raw, raw));
    SquareOrder(length, 0.1);
    NormalizedIsUnit(root, raw);
    var left := Normalize(root, raw).value;
    Cancel(length, left.z, 0.0);
    LevelOrthogonal(ahead, left, length);
  }

  lemma HeadingLength(ahead: Vec, raw: Vec)
    requires Dot(ahead, ahead) == 1.0 && Abs(ahead.z) <= MAX_VERTICAL
    requires raw == Vec(-ahead.y, ahead.x, 0.0)
    ensures Dot(raw, raw) >= 0.0396
  {
    SquareOrder(Abs(ahead.z), MAX_VERTICAL);
    assert Abs(ahead.z) * Abs(ahead.z) == ahead.z * ahead.z;
  }

  lemma LevelOrthogonal(ahead: Vec, left: Vec, length: real)
    requires length > 0.0 && left.z == 0.0
    requires left.x * length == -ahead.y && left.y * length == ahead.x
    ensures Dot(ahead, left) == 0.0
  {
    Times(left.y, left.x * length, -ahead.y);
    Times(left.x, left.y * length, ahead.x);
    Times(ahead.z, left.z, 0.0);
  }

  lemma CrossOfUnits(a: Vec, b: Vec)
    requires Dot(a, a) == 1.0 && Dot(b, b) == 1.0 && Dot(a, b) == 0.0
    ensures var c := Cross(a, b); Dot(c, c) == 1.0 && Dot(b, c) == 0.0 && Dot(c, a) == 0.0
  {
    UnitCross(a, b);
    CrossOrthogonal(a, b);
  }

  lemma CrossOrthogonal(a: Vec, b: Vec)
    ensures var c := Cross(a, b); Dot(b, c) == 0.0 && Dot(c, a) == 0.0
  {
    var c := Cross(a, b);
    TripleZero(a.x, a.y, a.z, b.x, b.y, b.z, c.x, c.y, c.z);
    TripleZero(b.x, b.y, b.z, a.x, a.y, a.z, -c.x, -c.y, -c.z);
  }

  lemma TripleProduct(a: Vec, b: Vec, c: Vec)
    ensures Dot(Cross(a, b), c) == Dot(a, Cross(b, c))
  {
    assert (a.y * b.z - a.z * b.y) * c.x == a.y * b.z * c.x - a.z * b.y * c.x;
    assert (a.z * b.x - a.x * b.z) * c.y == a.z * b.x * c.y - a.x * b.z * c.y;
    assert (a.x * b.y - a.y * b.x) * c.z == a.x * b.y * c.z - a.y * b.x * c.z;
  }

  /** `c = a x b` has `c . c = a . (b x c) = a . a`. */
  lemma UnitCross(a: Vec, b: Vec)
    requires Dot(a, a) == 1.0 && Dot(b, b) == 1.0 && Dot(a, b) == 0.0
    ensures Dot(Cross(a, b), Cross(a, b)) == 1.0
  {
    hide Dot, Cross;
    AntiCross(a, b);
    DoubleCross(b, a);
    TripleProduct(a, b, Cross(a, b));
  }

  lemma TripleZero(p: real, q: real, r: real, u: real, v: real, w: real, cx: real, cy: real, cz: real)
    requires cx == q * w - r * v && cy == r * u - p * w && cz == p * v - q * u
    ensures p * cx + q * cy + r * cz == 0.0
  {
    Times(p, cx, q * w - r * v);
    Times(q, cy, r * u - p * w);
    Times(r, cz, p * v - q * u);
  }

  lemma UpOfHeading(ahead: Vec, left: Vec, length: real)
    requires length > 0.0 && length * length == ahead.x * ahead.x + ahead.y * ahead.y
    requires left.x * length == -ahead.y && left.y * length == ahead.x
    ensures Cross(ahead, left).z > 0.0
  {
    var z := ahead.x * left.y - ahead.y * left.x;
    Times(ahead.x, left.y * length, ahead.x);
    Times(ahead.y, left.x * length, -ahead.y);
    assert z * length == ahead.x * (left.y * length) - ahead.y * (left.x * length);
    assert z * length == length * length;
    Cancel(length, z, length);
  }

  lemma LeftIsScaled(root: real -> real, ahead: Vec)
    requires IsSqrt(root) && Dot(ahead, ahead) == 1.0 && Abs(ahead.z) <= MAX_VERTICAL
    ensures var left := Normalize(root, Cross(UP, ahead));
            left.Success? && Cross(ahead, left.value).z > 0.0
  {
    LeftOfHeading(root, ahead);
    var raw := Cross(UP, ahead);
    assert raw == Vec(-ahead.y, ahead.x, 0.0);
    NormalizedIsUnit(root, raw);
    var length := root(Dot(raw, raw));
    assert Dot(raw, raw) == ahead.x * ahead.x + ahead.y * ahead.y;
    HeadingLength(ahead, raw);
    assert IsRoot(length, Dot(raw, raw));
    SquareOrder(length, 0.1);
    var left := Normalize(root, raw).value;
    hide Cross, Normalize, Dot;
    UpOfHeading(ahead, left, length);
  }

  /** A heading is converted exactly when it is long enough and not near vertical. */
  lemma HeadingConverts(root: real -> real, godot: Vec)
    requires IsSqrt(root)
    ensures var length := root(Dot(godot, godot));
            var ahead := Normalize(root, ToCanonical(godot));
            && (ahead.Success? <==> length > 0.00000001)
            && (ahead.Success? ==>
                  && ahead.value.x * length == -godot.z && ahead.value.y * length == -godot.x
                  && ahead.value.z * length == godot.y && Dot(ahead.value, ahead.value) == 1.0
                  && (Abs(ahead.value.z) <= MAX_VERTICAL <==> Abs(godot.y) <= 0.98 * length))
  {
    var length := root(Dot(godot, godot));
    CoordinatesRoundTrip(godot);
    NormalizedIsUnit(root, ToCanonical(godot));
    var ahead := Normalize(root, ToCanonical(godot));
    hide Dot;
    if ahead.Success? {
      ScaledBound(ahead.value.z, length, godot.y);
    }
  }

  lemma ScaledBound(v: real, length: real, a: real)
    requires length > 0.0 && v * length == a
    ensures Abs(v) <= 0.98 <==> Abs(a) <= 0.98 * length
  {
    var gap := 0.98 - Abs(v);
    assert Abs(a) == Abs(v) * length by {
      ProductSign(v, length);
      ProductSign(-v, length);
    }
    assert 0.98 * length - Abs(a) == gap * length;
    ProductSign(gap, length);
    ProductSign(-gap, length);
    assert (-gap) * length == -(gap * length);
  }

  lemma AgentTurns(root: real -> real, godot: Vec)
    requires IsSqrt(root)
    ensures var ahead := Normalize(root, ToCanonical(godot));
            var q := AgentQuaternion(root, Some(godot));
            && (q.Success? <==> ahead.Success? && Abs(ahead.value.z) <= MAX_VERTICAL)
            && (q.Success? ==> NormSquared(q.value) == 1.0 && ColumnX(q.value) == ahead.value
                               && ColumnY(q.value).z == 0.0 && ColumnZ(q.value).z > 0.0)
  {
    var ahead := Normalize(root, ToCanonical(godot));
    NormalizedIsUnit(root, ToCanonical(godot));
    if ahead.Success? {
      assert Dot(ahead.value, UP) == ahead.value.z;
      if Abs(ahead.value.z) <= MAX_VERTICAL {
        hide ColumnX, ColumnY, ColumnZ, NormSquared;
        LeftOfHeading(root, ahead.value);
        LeftIsScaled(root, ahead.value);
        var left := Normalize(root, Cross(UP, ahead.value)).value;
        CrossOfUnits(ahead.value, left);
        NormalizeUnit(root, Cross(ahead.value, left));
        QuaternionIsTheRotation(root, ahead.value, left, Cross(ahead.value, left));
      }
    }
  }

  /** What an agent's orientation is: the conversion fails exactly for a forward vector that is too short or near
      vertical; otherwise it is a unit quaternion that turns +X to the heading, keeps +Y level and +Z upwards. */
  lemma AgentQuaternionFollowsHeading(root: real -> real, godot: Vec)
    requires IsSqrt(root)
    ensures var length := root(Dot(godot, godot));
            var q := AgentQuaternion(root, Some(godot));
            && (q.Success? <==> length > 0.00000001 && Abs(godot.y) <= 0.98 * length)
            && (q.Success? ==>
                  && NormSquared(q.value) == 1.0
                  && ColumnX(q.value).x * length == -godot.z && ColumnX(q.value).y * length == -godot.x
                  && ColumnX(q.value).z * length == godot.y
                  && ColumnY(q.value).z == 0.0 && ColumnZ(q.value).z > 0.0)
  {
    hide Dot, Cross, Normalize, ColumnX, ColumnY, ColumnZ, NormSquared, AgentQuaternion, ToCanonical, Abs, IsSqrt;
    HeadingConverts(root, godot);
    AgentTurns(root, godot);
  }

  /** A vector normalises exactly when it is longer than the least length, to the vector it is that many times of. */
  lemma NormalizeIff(root: real -> real, a: Vec)
    requires IsSqrt(root)
    ensures var length, v := root(Dot(a, a)), Normalize(root, a);
            && (v.Success? <==> length > 0.00000001) && (v.Failure? ==> v.error == TelemetryInvalid)
            && (v.Success? ==> a == Vec(v.value.x * length, v.value.y * length, v.value.z * length))
  {
    NormalizedIsUnit(root, a);
    hide Dot;
  }

  /** Columns of which one is too short are refused. */
  lemma ShortColumnsAreRefused(root: real -> real, x: Vec, y: Vec, z: Vec)
    requires IsSqrt(root)
    requires root(Dot(x, x)) <= 0.00000001 || root(Dot(y, y)) <= 0.00000001 || root(Dot(z, z)) <= 0.00000001
    ensures ColumnsToQuaternion(root, x, y, z) == Failure(TelemetryInvalid)
  {
    NormalizeIff(root, x);
    NormalizeIff(root, y);
    NormalizeIff(root, z);
    hide Dot, Normalize, BranchScale, RawQuaternion, NormalizeQuat;
  }

  /** So is a quaternion that is too short to be normalised. */
  lemma NormalizeQuatIff(root: real -> real, q: Quat)
    requires IsSqrt(root)
    ensures var length, n := root(NormSquared(q)), NormalizeQuat(root, q);
            && (n.Success? <==> length > 0.00000001) && (n.Failure? ==> n.error == TelemetryInvalid)
            && (n.Success? ==>
                  q == Quat(n.value.x * length, n.value.y * length, n.value.z * length, n.value.w * length))
  {
    var length := root(NormSquared(q));
    if length > 0.00000001 {
      OverTimes(q.x, length);
      OverTimes(q.y, length);
      OverTimes(q.z, length);
      OverTimes(q.w, length);
    }
    hide NormSquared, Over;
  }
}
