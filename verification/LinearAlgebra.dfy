/** Linear algebra over the reals for 4x4 matrices held column by column, the layout of
    components/dashboard/src/mat4.ts. Determinants are built from the six 2x2 minors of a pair of columns. */
module LinearAlgebra {
  datatype Vec = Vec(x: real, y: real, z: real, w: real)
  datatype Minors = Minors(xy: real, xz: real, xw: real, yz: real, yw: real, zw: real)
  datatype Matrix = Matrix(c0: Vec, c1: Vec, c2: Vec, c3: Vec)

  const E0 := Vec(1.0, 0.0, 0.0, 0.0)
  const E1 := Vec(0.0, 1.0, 0.0, 0.0)
  const E2 := Vec(0.0, 0.0, 1.0, 0.0)
  const E3 := Vec(0.0, 0.0, 0.0, 1.0)
  const IDENTITY := Matrix(E0, E1, E2, E3)

  function Dot4(a: real, b: real, c: real, d: real, v: Vec): real {
    a * v.x + b * v.y + c * v.z + d * v.w
  }

  function Dot(u: Vec, v: Vec): real {
    Dot4(u.x, u.y, u.z, u.w, v)
  }

  function Transpose(m: Matrix): Matrix {
    Matrix(Vec(m.c0.x, m.c1.x, m.c2.x, m.c3.x), Vec(m.c0.y, m.c1.y, m.c2.y, m.c3.y),
           Vec(m.c0.z, m.c1.z, m.c2.z, m.c3.z), Vec(m.c0.w, m.c1.w, m.c2.w, m.c3.w))
  }

  /** The row `r` times each column. */
  function RowTimes(r: Vec, m: Matrix): Vec {
    Vec(Dot(r, m.c0), Dot(r, m.c1), Dot(r, m.c2), Dot(r, m.c3))
  }

  /** The matrix times a column. */
  function Apply(m: Matrix, v: Vec): Vec {
    var rows := Transpose(m);
    Vec(Dot(rows.c0, v), Dot(rows.c1, v), Dot(rows.c2, v), Dot(rows.c3, v))
  }

  function Mul(m: Matrix, n: Matrix): Matrix {
    Matrix(Apply(m, n.c0), Apply(m, n.c1), Apply(m, n.c2), Apply(m, n.c3))
  }

  function Minor(a: real, b: real, c: real, d: real): real { a * d - b * c }
  function XY(u: Vec, v: Vec): real { Minor(u.x, u.y, v.x, v.y) }
  function XZ(u: Vec, v: Vec): real { Minor(u.x, u.z, v.x, v.z) }
  function XW(u: Vec, v: Vec): real { Minor(u.x, u.w, v.x, v.w) }
  function YZ(u: Vec, v: Vec): real { Minor(u.y, u.z, v.y, v.z) }
  function YW(u: Vec, v: Vec): real { Minor(u.y, u.w, v.y, v.w) }
  function ZW(u: Vec, v: Vec): real { Minor(u.z, u.w, v.z, v.w) }


  /** The six 2x2 minors of two columns. */
  function Wedge(u: Vec, v: Vec): Minors {
    Minors(XY(u, v), XZ(u, v), XW(u, v), YZ(u, v), YW(u, v), ZW(u, v))
  }

  /** Laplace expansion: the minors of one pair of columns against the complementary minors of the other. */
  function Pair(p: Minors, q: Minors): real {
    SixTerms(p.xy, p.xz, p.xw, p.yz, p.yw, p.zw, q.xy, q.xz, q.xw, q.yz, q.yw, q.zw)
  }

  function SixTerms(b00: real, b01: real, b02: real, b03: real, b04: real, b05: real,
                    b06: real, b07: real, b08: real, b09: real, b10: real, b11: real): real {
    b00 * b11 - b01 * b10 + b02 * b09 + b03 * b08 - b04 * b07 + b05 * b06
  }

  function Det(m: Matrix): real {
    Pair(Wedge(m.c0, m.c1), Wedge(m.c2, m.c3))
  }

  /** The determinant's definition as the signed sum over the 24 permutations. */
  function Leibniz(a: Vec, b: Vec, c: Vec, d: Vec): real {
    a.x * b.y * c.z * d.w - a.x * b.y * c.w * d.z - a.x * b.z * c.y * d.w + a.x * b.z * c.w * d.y
    + a.x * b.w * c.y * d.z - a.x * b.w * c.z * d.y - a.y * b.x * c.z * d.w + a.y * b.x * c.w * d.z
    + a.y * b.z * c.x * d.w - a.y * b.z * c.w * d.x - a.y * b.w * c.x * d.z + a.y * b.w * c.z * d.x
    + a.z * b.x * c.y * d.w - a.z * b.x * c.w * d.y - a.z * b.y * c.x * d.w + a.z * b.y * c.w * d.x
    + a.z * b.w * c.x * d.y - a.z * b.w * c.y * d.x - a.w * b.x * c.y * d.z + a.w * b.x * c.z * d.y
    + a.w * b.y * c.x * d.z - a.w * b.y * c.z * d.x - a.w * b.z * c.x * d.y + a.w * b.z * c.y * d.x
  }

  // ---- Polynomial identities on written-out components. Each one multiplies out one side only, which
  //      the solver does at once; two such forms then meet in the middle. ----

  lemma DotApplyExpanded(a: Vec, m: Matrix, v: Vec, r: Vec)
    requires r.x == m.c0.x * v.x + m.c1.x * v.y + m.c2.x * v.z + m.c3.x * v.w
    requires r.y == m.c0.y * v.x + m.c1.y * v.y + m.c2.y * v.z + m.c3.y * v.w
    requires r.z == m.c0.z * v.x + m.c1.z * v.y + m.c2.z * v.z + m.c3.z * v.w
    requires r.w == m.c0.w * v.x + m.c1.w * v.y + m.c2.w * v.z + m.c3.w * v.w
    ensures a.x * r.x + a.y * r.y + a.z * r.z + a.w * r.w
         == v.x * (a.x * m.c0.x + a.y * m.c0.y + a.z * m.c0.z + a.w * m.c0.w)
          + v.y * (a.x * m.c1.x + a.y * m.c1.y + a.z * m.c1.z + a.w * m.c1.w)
          + v.z * (a.x * m.c2.x + a.y * m.c2.y + a.z * m.c2.z + a.w * m.c2.w)
          + v.w * (a.x * m.c3.x + a.y * m.c3.y + a.z * m.c3.z + a.w * m.c3.w)
  {}

  lemma RowTimesExpanded(a: Vec, m: Matrix, v: Vec, k: Vec)
    requires k.x == a.x * m.c0.x + a.y * m.c0.y + a.z * m.c0.z + a.w * m.c0.w
    requires k.y == a.x * m.c1.x + a.y * m.c1.y + a.z * m.c1.z + a.w * m.c1.w
    requires k.z == a.x * m.c2.x + a.y * m.c2.y + a.z * m.c2.z + a.w * m.c2.w
    requires k.w == a.x * m.c3.x + a.y * m.c3.y + a.z * m.c3.z + a.w * m.c3.w
    ensures k.x * v.x + k.y * v.y + k.z * v.z + k.w * v.w
         == v.x * (a.x * m.c0.x + a.y * m.c0.y + a.z * m.c0.z + a.w * m.c0.w)
          + v.y * (a.x * m.c1.x + a.y * m.c1.y + a.z * m.c1.z + a.w * m.c1.w)
          + v.z * (a.x * m.c2.x + a.y * m.c2.y + a.z * m.c2.z + a.w * m.c2.w)
          + v.w * (a.x * m.c3.x + a.y * m.c3.y + a.z * m.c3.z + a.w * m.c3.w)
  {}

  lemma PairExpanded(a: Vec, b: Vec, c: Vec, d: Vec, p: Minors, q: Minors)
    requires p.xy == a.x * b.y - a.y * b.x && p.xz == a.x * b.z - a.z * b.x && p.xw == a.x * b.w - a.w * b.x
    requires p.yz == a.y * b.z - a.z * b.y && p.yw == a.y * b.w - a.w * b.y && p.zw == a.z * b.w - a.w * b.z
    requires q.xy == c.x * d.y - c.y * d.x && q.xz == c.x * d.z - c.z * d.x && q.xw == c.x * d.w - c.w * d.x
    requires q.yz == c.y * d.z - c.z * d.y && q.yw == c.y * d.w - c.w * d.y && q.zw == c.z * d.w - c.w * d.z
    ensures p.xy * q.zw - p.xz * q.yw + p.xw * q.yz + p.yz * q.xw - p.yw * q.xz + p.zw * q.xy
         == a.x * b.y * c.z * d.w - a.x * b.y * c.w * d.z - a.x * b.z * c.y * d.w + a.x * b.z * c.w * d.y
          + a.x * b.w * c.y * d.z - a.x * b.w * c.z * d.y - a.y * b.x * c.z * d.w + a.y * b.x * c.w * d.z
          + a.y * b.z * c.x * d.w - a.y * b.z * c.w * d.x - a.y * b.w * c.x * d.z + a.y * b.w * c.z * d.x
          + a.z * b.x * c.y * d.w - a.z * b.x * c.w * d.y - a.z * b.y * c.x * d.w + a.z * b.y * c.w * d.x
          + a.z * b.w * c.x * d.y - a.z * b.w * c.y * d.x - a.w * b.x * c.y * d.z + a.w * b.x * c.z * d.y
          + a.w * b.y * c.x * d.z - a.w * b.y * c.z * d.x - a.w * b.z * c.x * d.y + a.w * b.z * c.y * d.x
  {}

  /** Cauchy-Binet: a minor of products is the sum over column pairs of products of minors. */
  lemma CauchyBinet(f0: real, f1: real, f2: real, f3: real, g0: real, g1: real, g2: real, g3: real, u: Vec, v: Vec,
                    fu: real, fv: real, gu: real, gv: real, p: Minors,
                    k0: real, k1: real, k2: real, k3: real, k4: real, k5: real, s: real)
    requires fu == f0 * u.x + f1 * u.y + f2 * u.z + f3 * u.w && fv == f0 * v.x + f1 * v.y + f2 * v.z + f3 * v.w
    requires gu == g0 * u.x + g1 * u.y + g2 * u.z + g3 * u.w && gv == g0 * v.x + g1 * v.y + g2 * v.z + g3 * v.w
    requires p.xy == u.x * v.y - u.y * v.x && p.xz == u.x * v.z - u.z * v.x && p.xw == u.x * v.w - u.w * v.x
    requires p.yz == u.y * v.z - u.z * v.y && p.yw == u.y * v.w - u.w * v.y && p.zw == u.z * v.w - u.w * v.z
    requires k0 == f0 * g1 - f1 * g0 && k1 == f0 * g2 - f2 * g0 && k2 == f0 * g3 - f3 * g0
    requires k3 == f1 * g2 - f2 * g1 && k4 == f1 * g3 - f3 * g1 && k5 == f2 * g3 - f3 * g2
    requires s == fu * gv - fv * gu
    ensures s == p.xy * k0 + p.xz * k1 + p.xw * k2 + p.yz * k3 + p.yw * k4 + p.zw * k5
  {
    MinorOfDotsExpanded(f0, f1, f2, f3, g0, g1, g2, g3, u, v, fu, fv, gu, gv);
    DotOfMinorsExpanded(f0, f1, f2, f3, g0, g1, g2, g3, u, v, p, k0, k1, k2, k3, k4, k5);
  }

  lemma MinorOfDotsExpanded(f0: real, f1: real, f2: real, f3: real, g0: real, g1: real, g2: real, g3: real,
                            u: Vec, v: Vec, fu: real, fv: real, gu: real, gv: real)
    requires fu == f0 * u.x + f1 * u.y + f2 * u.z + f3 * u.w && fv == f0 * v.x + f1 * v.y + f2 * v.z + f3 * v.w
    requires gu == g0 * u.x + g1 * u.y + g2 * u.z + g3 * u.w && gv == g0 * v.x + g1 * v.y + g2 * v.z + g3 * v.w
    ensures fu * gv - fv * gu
         == f0 * u.x * g1 * v.y + f1 * u.y * g0 * v.x - g0 * u.x * f1 * v.y - g1 * u.y * f0 * v.x
          + f0 * u.x * g2 * v.z + f2 * u.z * g0 * v.x - g0 * u.x * f2 * v.z - g2 * u.z * f0 * v.x
          + f1 * u.y * g2 * v.z + f2 * u.z * g1 * v.y - g1 * u.y * f2 * v.z - g2 * u.z * f1 * v.y
          + f0 * u.x * g3 * v.w + f3 * u.w * g0 * v.x - g0 * u.x * f3 * v.w - g3 * u.w * f0 * v.x
          + f1 * u.y * g3 * v.w + f3 * u.w * g1 * v.y - g1 * u.y * f3 * v.w - g3 * u.w * f1 * v.y
          + f2 * u.z * g3 * v.w + f3 * u.w * g2 * v.z - g2 * u.z * f3 * v.w - g3 * u.w * f2 * v.z
  {}

  lemma DotOfMinorsExpanded(f0: real, f1: real, f2: real, f3: real, g0: real, g1: real, g2: real, g3: real,
                            u: Vec, v: Vec, p: Minors, k0: real, k1: real, k2: real, k3: real, k4: real, k5: real)
    requires p.xy == u.x * v.y - u.y * v.x && p.xz == u.x * v.z - u.z * v.x && p.xw == u.x * v.w - u.w * v.x
    requires p.yz == u.y * v.z - u.z * v.y && p.yw == u.y * v.w - u.w * v.y && p.zw == u.z * v.w - u.w * v.z
    requires k0 == f0 * g1 - f1 * g0 && k1 == f0 * g2 - f2 * g0 && k2 == f0 * g3 - f3 * g0
    requires k3 == f1 * g2 - f2 * g1 && k4 == f1 * g3 - f3 * g1 && k5 == f2 * g3 - f3 * g2
    ensures p.xy * k0 + p.xz * k1 + p.xw * k2 + p.yz * k3 + p.yw * k4 + p.zw * k5
         == f0 * u.x * g1 * v.y + f1 * u.y * g0 * v.x - g0 * u.x * f1 * v.y - g1 * u.y * f0 * v.x
          + f0 * u.x * g2 * v.z + f2 * u.z * g0 * v.x - g0 * u.x * f2 * v.z - g2 * u.z * f0 * v.x
          + f1 * u.y * g2 * v.z + f2 * u.z * g1 * v.y - g1 * u.y * f2 * v.z - g2 * u.z * f1 * v.y
          + f0 * u.x * g3 * v.w + f3 * u.w * g0 * v.x - g0 * u.x * f3 * v.w - g3 * u.w * f0 * v.x
          + f1 * u.y * g3 * v.w + f3 * u.w * g1 * v.y - g1 * u.y * f3 * v.w - g3 * u.w * f1 * v.y
          + f2 * u.z * g3 * v.w + f3 * u.w * g2 * v.z - g2 * u.z * f3 * v.w - g3 * u.w * f2 * v.z
  {}

  // ---- The definitions, component by component ----

  lemma DotIs(u: Vec, v: Vec) returns (d: real)
    ensures d == Dot(u, v)
    ensures d == u.x * v.x + u.y * v.y + u.z * v.z + u.w * v.w
  {
    d := Dot(u, v);
  }

  lemma ApplyIs(m: Matrix, v: Vec) returns (r: Vec)
    ensures r == Apply(m, v)
    ensures r.x == m.c0.x * v.x + m.c1.x * v.y + m.c2.x * v.z + m.c3.x * v.w
    ensures r.y == m.c0.y * v.x + m.c1.y * v.y + m.c2.y * v.z + m.c3.y * v.w
    ensures r.z == m.c0.z * v.x + m.c1.z * v.y + m.c2.z * v.z + m.c3.z * v.w
    ensures r.w == m.c0.w * v.x + m.c1.w * v.y + m.c2.w * v.z + m.c3.w * v.w
  {
    r := Apply(m, v);
  }

  lemma WedgeIs(u: Vec, v: Vec) returns (p: Minors)
    ensures p == Wedge(u, v)
    ensures p.xy == u.x * v.y - u.y * v.x && p.xz == u.x * v.z - u.z * v.x && p.xw == u.x * v.w - u.w * v.x
    ensures p.yz == u.y * v.z - u.z * v.y && p.yw == u.y * v.w - u.w * v.y && p.zw == u.z * v.w - u.w * v.z
  {
    p := Wedge(u, v);
  }

  // ---- The identities on vectors and matrices ----

  /** A row times a matrix times a column. */
  function Bilinear(a: Vec, m: Matrix, v: Vec): real {
    v.x * (a.x * m.c0.x + a.y * m.c0.y + a.z * m.c0.z + a.w * m.c0.w)
    + v.y * (a.x * m.c1.x + a.y * m.c1.y + a.z * m.c1.z + a.w * m.c1.w)
    + v.z * (a.x * m.c2.x + a.y * m.c2.y + a.z * m.c2.z + a.w * m.c2.w)
    + v.w * (a.x * m.c3.x + a.y * m.c3.y + a.z * m.c3.z + a.w * m.c3.w)
  }

  lemma DotApplyIs(a: Vec, m: Matrix, v: Vec)
    ensures Dot(a, Apply(m, v)) == Bilinear(a, m, v)
  {
    var r := ApplyIs(m, v);
    var d := DotIs(a, r);
    DotApplyExpanded(a, m, v, r);
  }

  lemma RowTimesIs(a: Vec, m: Matrix, v: Vec)
    ensures Dot(RowTimes(a, m), v) == Bilinear(a, m, v)
  {
    var x := DotIs(a, m.c0);
    var y := DotIs(a, m.c1);
    var z := DotIs(a, m.c2);
    var w := DotIs(a, m.c3);
    var d := DotIs(Vec(x, y, z, w), v);
    RowTimesExpanded(a, m, v, Vec(x, y, z, w));
  }

  lemma DotApply(a: Vec, m: Matrix, v: Vec)
    ensures Dot(a, Apply(m, v)) == Dot(RowTimes(a, m), v)
  {
    DotApplyIs(a, m, v);
    RowTimesIs(a, m, v);
  }

  /** The Laplace expansion the code computes is the determinant. */
  lemma PairIsLeibniz(a: Vec, b: Vec, c: Vec, d: Vec)
    ensures Pair(Wedge(a, b), Wedge(c, d)) == Leibniz(a, b, c, d)
  {
    var p := WedgeIs(a, b);
    var q := WedgeIs(c, d);
    PairExpanded(a, b, c, d, p, q);
  }

  // ---- Products of matrices ----

  lemma ApplyMul(m: Matrix, n: Matrix, v: Vec)
    ensures Apply(m, Apply(n, v)) == Apply(Mul(m, n), v)
  {
    var rows := Transpose(m);
    DotApply(rows.c0, n, v);
    DotApply(rows.c1, n, v);
    DotApply(rows.c2, n, v);
    DotApply(rows.c3, n, v);
  }

  lemma MulAssociative(m: Matrix, n: Matrix, k: Matrix)
    ensures Mul(m, Mul(n, k)) == Mul(Mul(m, n), k)
  {
    ApplyMul(m, n, k.c0);
    ApplyMul(m, n, k.c1);
    ApplyMul(m, n, k.c2);
    ApplyMul(m, n, k.c3);
  }

  lemma MulIdentity(m: Matrix)
    ensures Mul(m, IDENTITY) == m && Mul(IDENTITY, m) == m
  {}

  // ---- The determinant is multiplicative ----

  function Step(t: real, x: real, y: real): real {
    t * x + y
  }

  /** The combination of six numbers with the minors `p` as coefficients. */
  function Weigh(p: Minors, k0: real, k1: real, k2: real, k3: real, k4: real, k5: real): real {
    Step(p.xy, k0, Step(p.xz, k1, Step(p.xw, k2, Step(p.yz, k3, Step(p.yw, k4, Step(p.zw, k5, 0.0))))))
  }

  function StepMinors(t: real, a: Minors, b: Minors): Minors {
    Minors(Step(t, a.xy, b.xy), Step(t, a.xz, b.xz), Step(t, a.xw, b.xw),
           Step(t, a.yz, b.yz), Step(t, a.yw, b.yw), Step(t, a.zw, b.zw))
  }

  lemma PairStep(t: real, a: Minors, b: Minors, q: Minors)
    ensures Pair(StepMinors(t, a, b), q) == Step(t, Pair(a, q), Pair(b, q))
  {
    var g := PairIs(a, q);
    var h := PairIs(b, q);
    var r := PairIs(StepMinors(t, a, b), q);
  }

  lemma PairIs(p: Minors, q: Minors) returns (r: real)
    ensures r == Pair(p, q) && r == Pair(q, p)
    ensures r == p.xy * q.zw - p.xz * q.yw + p.xw * q.yz + p.yz * q.xw - p.yw * q.xz + p.zw * q.xy
  {
    r := Pair(p, q);
  }

  lemma PairOfSpan(p: Minors, a: Minors, b: Minors, c: Minors, d: Minors, e: Minors, f: Minors, s: Minors, q: Minors)
    requires s.xy == Weigh(p, a.xy, b.xy, c.xy, d.xy, e.xy, f.xy)
    requires s.xz == Weigh(p, a.xz, b.xz, c.xz, d.xz, e.xz, f.xz)
    requires s.xw == Weigh(p, a.xw, b.xw, c.xw, d.xw, e.xw, f.xw)
    requires s.yz == Weigh(p, a.yz, b.yz, c.yz, d.yz, e.yz, f.yz)
    requires s.yw == Weigh(p, a.yw, b.yw, c.yw, d.yw, e.yw, f.yw)
    requires s.zw == Weigh(p, a.zw, b.zw, c.zw, d.zw, e.zw, f.zw)
    ensures Pair(s, q) == Weigh(p, Pair(a, q), Pair(b, q), Pair(c, q), Pair(d, q), Pair(e, q), Pair(f, q))
  {
    var zero := Minors(0.0, 0.0, 0.0, 0.0, 0.0, 0.0);
    var s5 := StepMinors(p.zw, f, zero);
    var s4 := StepMinors(p.yw, e, s5);
    var s3 := StepMinors(p.yz, d, s4);
    var s2 := StepMinors(p.xw, c, s3);
    var s1 := StepMinors(p.xz, b, s2);
    assert s == StepMinors(p.xy, a, s1);
    PairStep(p.xy, a, s1, q);
    PairStep(p.xz, b, s2, q);
    PairStep(p.xw, c, s3, q);
    PairStep(p.yz, d, s4, q);
    PairStep(p.yw, e, s5, q);
    PairStep(p.zw, f, zero, q);
    assert Pair(zero, q) == 0.0;
  }

  lemma MinorIs(a: real, b: real, c: real, d: real) returns (r: real)
    ensures r == Minor(a, b, c, d) && r == a * d - b * c
  {
    r := Minor(a, b, c, d);
  }

  lemma MinorOfProducts(f0: real, f1: real, f2: real, f3: real, g0: real, g1: real, g2: real, g3: real, u: Vec, v: Vec,
                        fu: real, fv: real, gu: real, gv: real)
    requires fu == Dot4(f0, f1, f2, f3, u) && fv == Dot4(f0, f1, f2, f3, v)
    requires gu == Dot4(g0, g1, g2, g3, u) && gv == Dot4(g0, g1, g2, g3, v)
    ensures Minor(fu, gu, fv, gv)
         == Weigh(Wedge(u, v), Minor(f0, g0, f1, g1), Minor(f0, g0, f2, g2), Minor(f0, g0, f3, g3),
                  Minor(f1, g1, f2, g2), Minor(f1, g1, f3, g3), Minor(f2, g2, f3, g3))
  {
    var p := WedgeIs(u, v);
    var k0 := MinorIs(f0, g0, f1, g1);
    var k1 := MinorIs(f0, g0, f2, g2);
    var k2 := MinorIs(f0, g0, f3, g3);
    var k3 := MinorIs(f1, g1, f2, g2);
    var k4 := MinorIs(f1, g1, f3, g3);
    var k5 := MinorIs(f2, g2, f3, g3);
    var s := MinorIs(fu, gu, fv, gv);
    CauchyBinet(f0, f1, f2, f3, g0, g1, g2, g3, u, v, fu, fv, gu, gv, p, k0, k1, k2, k3, k4, k5, s);
  }

  /** Pairing with the minors of two products, by the minors of the factors. */
  lemma PairWithProducts(m: Matrix, u: Vec, v: Vec, r: Minors)
    ensures Pair(Wedge(Apply(m, u), Apply(m, v)), r)
         == Weigh(Wedge(u, v),
                  Pair(Wedge(m.c0, m.c1), r), Pair(Wedge(m.c0, m.c2), r), Pair(Wedge(m.c0, m.c3), r),
                  Pair(Wedge(m.c1, m.c2), r), Pair(Wedge(m.c1, m.c3), r), Pair(Wedge(m.c2, m.c3), r))
  {
    var p, s := Wedge(u, v), Wedge(Apply(m, u), Apply(m, v));
    var a, b, c := Wedge(m.c0, m.c1), Wedge(m.c0, m.c2), Wedge(m.c0, m.c3);
    var d, e, f := Wedge(m.c1, m.c2), Wedge(m.c1, m.c3), Wedge(m.c2, m.c3);
    var x, y := Apply(m, u), Apply(m, v);
    MinorOfProducts(m.c0.x, m.c1.x, m.c2.x, m.c3.x, m.c0.y, m.c1.y, m.c2.y, m.c3.y, u, v, x.x, y.x, x.y, y.y);
    MinorOfProducts(m.c0.x, m.c1.x, m.c2.x, m.c3.x, m.c0.z, m.c1.z, m.c2.z, m.c3.z, u, v, x.x, y.x, x.z, y.z);
    MinorOfProducts(m.c0.x, m.c1.x, m.c2.x, m.c3.x, m.c0.w, m.c1.w, m.c2.w, m.c3.w, u, v, x.x, y.x, x.w, y.w);
    MinorOfProducts(m.c0.y, m.c1.y, m.c2.y, m.c3.y, m.c0.z, m.c1.z, m.c2.z, m.c3.z, u, v, x.y, y.y, x.z, y.z);
    MinorOfProducts(m.c0.y, m.c1.y, m.c2.y, m.c3.y, m.c0.w, m.c1.w, m.c2.w, m.c3.w, u, v, x.y, y.y, x.w, y.w);
    MinorOfProducts(m.c0.z, m.c1.z, m.c2.z, m.c3.z, m.c0.w, m.c1.w, m.c2.w, m.c3.w, u, v, x.z, y.z, x.w, y.w);
    PairOfSpan(p, a, b, c, d, e, f, s, r);
  }

  lemma PairSymmetric(p: Minors, q: Minors)
    ensures Pair(p, q) == Pair(q, p)
  {}

  /** Pairs that share a column pair to zero. */
  lemma SharedColumnPairs(a: Vec, b: Vec, c: Vec)
    ensures var p, q, r := Wedge(a, b), Wedge(a, c), Wedge(b, c);
            Pair(p, p) == 0.0 && Pair(q, q) == 0.0 && Pair(r, r) == 0.0 &&
            Pair(p, q) == 0.0 && Pair(q, p) == 0.0 && Pair(p, r) == 0.0 &&
            Pair(r, p) == 0.0 && Pair(q, r) == 0.0 && Pair(r, q) == 0.0
  {
    var p, q, r := Wedge(a, b), Wedge(a, c), Wedge(b, c);
    PairIsLeibniz(a, b, a, b);
    PairIsLeibniz(a, c, a, c);
    PairIsLeibniz(b, c, b, c);
    PairIsLeibniz(a, b, a, c);
    PairIsLeibniz(a, b, b, c);
    PairIsLeibniz(a, c, b, c);
    PairSymmetric(p, q);
    PairSymmetric(p, r);
    PairSymmetric(q, r);
  }

  lemma DetIs(m: Matrix)
    ensures Det(m) == Leibniz(m.c0, m.c1, m.c2, m.c3)
  {
    PairIsLeibniz(m.c0, m.c1, m.c2, m.c3);
  }

  /** Complementary column pairs give the determinant up to sign. */
  lemma ComplementaryColumnPairs(m: Matrix)
    ensures Pair(Wedge(m.c0, m.c1), Wedge(m.c2, m.c3)) == Pair(Wedge(m.c2, m.c3), Wedge(m.c0, m.c1)) == Det(m)
    ensures Pair(Wedge(m.c0, m.c2), Wedge(m.c1, m.c3)) == Pair(Wedge(m.c1, m.c3), Wedge(m.c0, m.c2)) == -Det(m)
    ensures Pair(Wedge(m.c0, m.c3), Wedge(m.c1, m.c2)) == Pair(Wedge(m.c1, m.c2), Wedge(m.c0, m.c3)) == Det(m)
  {
    PairSymmetric(Wedge(m.c0, m.c1), Wedge(m.c2, m.c3));
    PairSymmetric(Wedge(m.c0, m.c2), Wedge(m.c1, m.c3));
    PairSymmetric(Wedge(m.c0, m.c3), Wedge(m.c1, m.c2));
    PairIsLeibniz(m.c0, m.c1, m.c2, m.c3);
    PairIsLeibniz(m.c0, m.c2, m.c1, m.c3);
    PairIsLeibniz(m.c0, m.c3, m.c1, m.c2);
  }

  lemma WeighOne(p: Minors, d: real)
    ensures Weigh(p, d, 0.0, 0.0, 0.0, 0.0, 0.0) == Step(p.xy, d, 0.0)
    ensures Weigh(p, 0.0, d, 0.0, 0.0, 0.0, 0.0) == Step(p.xz, d, 0.0)
    ensures Weigh(p, 0.0, 0.0, d, 0.0, 0.0, 0.0) == Step(p.xw, d, 0.0)
    ensures Weigh(p, 0.0, 0.0, 0.0, d, 0.0, 0.0) == Step(p.yz, d, 0.0)
    ensures Weigh(p, 0.0, 0.0, 0.0, 0.0, d, 0.0) == Step(p.yw, d, 0.0)
    ensures Weigh(p, 0.0, 0.0, 0.0, 0.0, 0.0, d) == Step(p.zw, d, 0.0)
  {}

  lemma WeighComplement(p: Minors, q: Minors, d: real)
    ensures Weigh(p, Step(q.zw, d, 0.0), Step(q.yw, -d, 0.0), Step(q.yz, d, 0.0),
                  Step(q.xw, d, 0.0), Step(q.xz, -d, 0.0), Step(q.xy, d, 0.0))
         == Step(Pair(p, q), d, 0.0)
  {
    var r := PairIs(p, q);
  }

  /** The minors of two products against the minors of each column pair. */
  lemma ProductsAgainstColumns(m: Matrix, w: Vec, z: Vec)
    ensures var s, q, d, d' := Wedge(Apply(m, w), Apply(m, z)), Wedge(w, z), Det(m), -Det(m);
            Pair(s, Wedge(m.c0, m.c1)) == Step(q.zw, d, 0.0) && Pair(s, Wedge(m.c0, m.c2)) == Step(q.yw, d', 0.0) &&
            Pair(s, Wedge(m.c0, m.c3)) == Step(q.yz, d, 0.0) && Pair(s, Wedge(m.c1, m.c2)) == Step(q.xw, d, 0.0) &&
            Pair(s, Wedge(m.c1, m.c3)) == Step(q.xz, d', 0.0) && Pair(s, Wedge(m.c2, m.c3)) == Step(q.xy, d, 0.0)
  {
    SharedColumnPairs(m.c0, m.c1, m.c2);
    SharedColumnPairs(m.c0, m.c1, m.c3);
    SharedColumnPairs(m.c0, m.c2, m.c3);
    SharedColumnPairs(m.c1, m.c2, m.c3);
    ComplementaryColumnPairs(m);
    PairWithProducts(m, w, z, Wedge(m.c0, m.c1));
    PairWithProducts(m, w, z, Wedge(m.c0, m.c2));
    PairWithProducts(m, w, z, Wedge(m.c0, m.c3));
    PairWithProducts(m, w, z, Wedge(m.c1, m.c2));
    PairWithProducts(m, w, z, Wedge(m.c1, m.c3));
    PairWithProducts(m, w, z, Wedge(m.c2, m.c3));
    WeighOne(Wedge(w, z), Det(m));
    WeighOne(Wedge(w, z), -Det(m));
  }

  lemma DetOfProduct(m: Matrix, n: Matrix)
    ensures Det(Mul(m, n)) == Step(Det(n), Det(m), 0.0)
  {
    var s := Wedge(Apply(m, n.c2), Apply(m, n.c3));
    PairWithProducts(m, n.c0, n.c1, s);
    ProductsAgainstColumns(m, n.c2, n.c3);
    PairSymmetric(s, Wedge(m.c0, m.c1));
    PairSymmetric(s, Wedge(m.c0, m.c2));
    PairSymmetric(s, Wedge(m.c0, m.c3));
    PairSymmetric(s, Wedge(m.c1, m.c2));
    PairSymmetric(s, Wedge(m.c1, m.c3));
    PairSymmetric(s, Wedge(m.c2, m.c3));
    WeighComplement(Wedge(n.c0, n.c1), Wedge(n.c2, n.c3), Det(m));
  }

  /** The determinant of a product is the product of the determinants. */
  lemma DetMultiplicative(m: Matrix, n: Matrix)
    ensures Det(Mul(m, n)) == Det(n) * Det(m)
  {
    DetOfProduct(m, n);
  }

  // ---- The inverse ----

  function Times(x: real, s: real): real {
    x * s
  }

  function Scale(v: Vec, s: real): Vec {
    Vec(Times(v.x, s), Times(v.y, s), Times(v.z, s), Times(v.w, s))
  }

  function Negate(v: Vec): Vec {
    Vec(-v.x, -v.y, -v.z, -v.w)
  }

  function Three(x: real, p: real, y: real, q: real, z: real, r: real): real {
    x * p - y * q + z * r
  }

  /** The row whose product with a column v is the pairing of the minors of (v, a) with q. */
  function Contract(a: Vec, q: Minors): Vec {
    Vec(Three(a.y, q.zw, a.z, q.yw, a.w, q.yz), -Three(a.x, q.zw, a.z, q.xw, a.w, q.xz),
        Three(a.x, q.yw, a.y, q.xw, a.w, q.xy), -Three(a.x, q.yz, a.y, q.xz, a.z, q.xy))
  }

  /** Row i of the adjugate. */
  function AdjugateRow(m: Matrix, i: int): Vec {
    if i == 0 then Contract(m.c1, Wedge(m.c2, m.c3))
    else if i == 1 then Negate(Contract(m.c0, Wedge(m.c2, m.c3)))
    else if i == 2 then Contract(m.c3, Wedge(m.c0, m.c1))
    else Negate(Contract(m.c2, Wedge(m.c0, m.c1)))
  }

  function Inverse(m: Matrix): Matrix
    requires Det(m) != 0.0
  {
    var s := 1.0 / Det(m);
    Transpose(Matrix(Scale(AdjugateRow(m, 0), s), Scale(AdjugateRow(m, 1), s),
                     Scale(AdjugateRow(m, 2), s), Scale(AdjugateRow(m, 3), s)))
  }

  lemma ContractExpanded(a: Vec, v: Vec, q: Minors, k: Vec)
    requires k.x == a.y * q.zw - a.z * q.yw + a.w * q.yz && k.y == a.z * q.xw - a.x * q.zw - a.w * q.xz
    requires k.z == a.x * q.yw - a.y * q.xw + a.w * q.xy && k.w == a.y * q.xz - a.x * q.yz - a.z * q.xy
    ensures k.x * v.x + k.y * v.y + k.z * v.z + k.w * v.w
         == (v.x * a.y - v.y * a.x) * q.zw - (v.x * a.z - v.z * a.x) * q.yw + (v.x * a.w - v.w * a.x) * q.yz
          + (v.y * a.z - v.z * a.y) * q.xw - (v.y * a.w - v.w * a.y) * q.xz + (v.z * a.w - v.w * a.z) * q.xy
  {}

  lemma WedgePairExpanded(a: Vec, v: Vec, q: Minors, p: Minors)
    requires p.xy == v.x * a.y - v.y * a.x && p.xz == v.x * a.z - v.z * a.x && p.xw == v.x * a.w - v.w * a.x
    requires p.yz == v.y * a.z - v.z * a.y && p.yw == v.y * a.w - v.w * a.y && p.zw == v.z * a.w - v.w * a.z
    ensures p.xy * q.zw - p.xz * q.yw + p.xw * q.yz + p.yz * q.xw - p.yw * q.xz + p.zw * q.xy
         == (v.x * a.y - v.y * a.x) * q.zw - (v.x * a.z - v.z * a.x) * q.yw + (v.x * a.w - v.w * a.x) * q.yz
          + (v.y * a.z - v.z * a.y) * q.xw - (v.y * a.w - v.w * a.y) * q.xz + (v.z * a.w - v.w * a.z) * q.xy
  {}

  function TripleForm(a: Vec, q: Minors, v: Vec): real {
    (v.x * a.y - v.y * a.x) * q.zw - (v.x * a.z - v.z * a.x) * q.yw + (v.x * a.w - v.w * a.x) * q.yz
    + (v.y * a.z - v.z * a.y) * q.xw - (v.y * a.w - v.w * a.y) * q.xz + (v.z * a.w - v.w * a.z) * q.xy
  }

  lemma DotContractIs(a: Vec, q: Minors, v: Vec)
    ensures Dot(Contract(a, q), v) == TripleForm(a, q, v)
  {
    var d := DotIs(Contract(a, q), v);
    ContractExpanded(a, v, q, Contract(a, q));
  }

  lemma WedgePairIs(a: Vec, q: Minors, v: Vec)
    ensures Pair(Wedge(v, a), q) == TripleForm(a, q, v)
  {
    var p := WedgeIs(v, a);
    var r := PairIs(p, q);
    WedgePairExpanded(a, v, q, p);
  }

  lemma DotContract(a: Vec, q: Minors, v: Vec)
    ensures Dot(Contract(a, q), v) == Pair(Wedge(v, a), q)
  {
    DotContractIs(a, q, v);
    WedgePairIs(a, q, v);
  }

  lemma DotNegate(k: Vec, v: Vec)
    ensures Dot(Negate(k), v) == -Dot(k, v)
  {
    var d := DotIs(Negate(k), v);
    var e := DotIs(k, v);
  }

  lemma DotScale(k: Vec, s: real, v: Vec)
    ensures Dot(Scale(k, s), v) == Step(Dot(k, v), s, 0.0)
  {
    var d := DotIs(Scale(k, s), v);
    var e := DotIs(k, v);
  }

  /** Rows of the adjugate against columns of the matrix: the determinant on the diagonal, zero elsewhere. */
  lemma AdjugateRows(m: Matrix)
    ensures var k := AdjugateRow(m, 0);
            Dot(k, m.c0) == Det(m) && Dot(k, m.c1) == 0.0 && Dot(k, m.c2) == 0.0 && Dot(k, m.c3) == 0.0
    ensures var k := AdjugateRow(m, 1);
            Dot(k, m.c0) == 0.0 && Dot(k, m.c1) == Det(m) && Dot(k, m.c2) == 0.0 && Dot(k, m.c3) == 0.0
    ensures var k := AdjugateRow(m, 2);
            Dot(k, m.c0) == 0.0 && Dot(k, m.c1) == 0.0 && Dot(k, m.c2) == Det(m) && Dot(k, m.c3) == 0.0
    ensures var k := AdjugateRow(m, 3);
            Dot(k, m.c0) == 0.0 && Dot(k, m.c1) == 0.0 && Dot(k, m.c2) == 0.0 && Dot(k, m.c3) == Det(m)
  {
    var p, q := Wedge(m.c0, m.c1), Wedge(m.c2, m.c3);
    ContractedPair(m.c0, m.c1, m.c2, m.c3);
    ContractedPair(m.c2, m.c3, m.c0, m.c1);
    PairSymmetric(p, q);
    DotNegate(Contract(m.c0, q), m.c0);
    DotNegate(Contract(m.c0, q), m.c1);
    DotNegate(Contract(m.c0, q), m.c2);
    DotNegate(Contract(m.c0, q), m.c3);
    DotNegate(Contract(m.c2, p), m.c0);
    DotNegate(Contract(m.c2, p), m.c1);
    DotNegate(Contract(m.c2, p), m.c2);
    DotNegate(Contract(m.c2, p), m.c3);
  }

  lemma ContractedPair(a: Vec, b: Vec, c: Vec, d: Vec)
    ensures var q, k, l := Wedge(c, d), Contract(b, Wedge(c, d)), Contract(a, Wedge(c, d));
            Dot(k, a) == Pair(Wedge(a, b), q) && Dot(k, b) == 0.0 && Dot(k, c) == 0.0 && Dot(k, d) == 0.0 &&
            Dot(l, b) == -Pair(Wedge(a, b), q) && Dot(l, a) == 0.0 && Dot(l, c) == 0.0 && Dot(l, d) == 0.0
  {
    var q := Wedge(c, d);
    DotContract(b, q, a);
    DotContract(b, q, b);
    DotContract(b, q, c);
    DotContract(b, q, d);
    DotContract(a, q, b);
    DotContract(a, q, a);
    DotContract(a, q, c);
    DotContract(a, q, d);
    PairAlternates(a, b, q);
    PairAlternates(b, b, q);
    PairAlternates(a, a, q);
    PairWithOwn(b, c, d);
    PairWithOwn(a, c, d);
  }

  lemma PairAlternates(a: Vec, b: Vec, q: Minors)
    ensures Pair(Wedge(b, a), q) == -Pair(Wedge(a, b), q)
  {
    var p := WedgeIs(a, b);
    var n := WedgeIs(b, a);
    assert n == Minors(-p.xy, -p.xz, -p.xw, -p.yz, -p.yw, -p.zw);
    PairNegated(p, n, q);
  }

  lemma PairNegated(p: Minors, n: Minors, q: Minors)
    requires n == Minors(-p.xy, -p.xz, -p.xw, -p.yz, -p.yw, -p.zw)
    ensures Pair(n, q) == -Pair(p, q)
  {
    var r := PairIs(p, q);
    var s := PairIs(n, q);
  }

  lemma PairWithOwn(a: Vec, c: Vec, d: Vec)
    ensures Pair(Wedge(c, a), Wedge(c, d)) == 0.0 && Pair(Wedge(d, a), Wedge(c, d)) == 0.0
  {
    PairIsLeibniz(c, a, c, d);
    PairIsLeibniz(d, a, c, d);
  }

  lemma LeftInverse(m: Matrix)
    requires Det(m) != 0.0
    ensures Mul(Inverse(m), m) == IDENTITY
  {
    AdjugateRows(m);
    ScaledRow(AdjugateRow(m, 0), Det(m), m);
    ScaledRow(AdjugateRow(m, 1), Det(m), m);
    ScaledRow(AdjugateRow(m, 2), Det(m), m);
    ScaledRow(AdjugateRow(m, 3), Det(m), m);
  }

  lemma ScaledRow(k: Vec, d: real, m: Matrix)
    requires d != 0.0
    ensures RowTimes(Scale(k, 1.0 / d), m)
         == Vec(Step(Dot(k, m.c0), 1.0 / d, 0.0), Step(Dot(k, m.c1), 1.0 / d, 0.0),
                Step(Dot(k, m.c2), 1.0 / d, 0.0), Step(Dot(k, m.c3), 1.0 / d, 0.0))
    ensures Step(d, 1.0 / d, 0.0) == 1.0 && Step(0.0, 1.0 / d, 0.0) == 0.0
  {
    DotScale(k, 1.0 / d, m.c0);
    DotScale(k, 1.0 / d, m.c1);
    DotScale(k, 1.0 / d, m.c2);
    DotScale(k, 1.0 / d, m.c3);
  }

  lemma DetIdentity()
    ensures Det(IDENTITY) == 1.0
  {
    DetIs(IDENTITY);
  }

  lemma FactorsOfIdentity(m: Matrix, n: Matrix)
    requires Mul(m, n) == IDENTITY
    ensures Det(n) * Det(m) == 1.0 && Det(m) != 0.0 && Det(n) != 0.0
  {
    DetIdentity();
    DetMultiplicative(m, n);
    NonZeroFactors(Det(n), Det(m));
  }

  lemma NonZeroFactors(a: real, b: real)
    requires a * b == 1.0
    ensures a != 0.0 && b != 0.0
  {}

  lemma InversesAgree(k: Matrix, n: Matrix, m: Matrix)
    requires Mul(k, n) == IDENTITY && Mul(n, m) == IDENTITY
    ensures k == m
  {
    MulAssociative(k, n, m);
    MulIdentity(k);
    MulIdentity(m);
  }

  /** The inverse is two-sided, and inverting it gives the matrix back. */
  lemma InverseTheorem(m: Matrix)
    requires Det(m) != 0.0
    ensures Mul(Inverse(m), m) == IDENTITY && Mul(m, Inverse(m)) == IDENTITY
    ensures Det(Inverse(m)) != 0.0 && Inverse(Inverse(m)) == m
  {
    var n := Inverse(m);
    LeftInverse(m);
    FactorsOfIdentity(n, m);
    LeftInverse(n);
    InversesAgree(Inverse(n), n, m);
  }

  /** Any one-sided inverse shows that the determinant is not zero and is the computed inverse. */
  lemma InverseIsUnique(m: Matrix, n: Matrix)
    requires Mul(m, n) == IDENTITY || Mul(n, m) == IDENTITY
    ensures Det(m) != 0.0 && n == Inverse(m)
  {
    if Mul(m, n) == IDENTITY {
      FactorsOfIdentity(m, n);
      LeftInverse(m);
      InversesAgree(Inverse(m), m, n);
    } else {
      FactorsOfIdentity(n, m);
      InverseTheorem(m);
      InversesAgree(n, m, Inverse(m));
    }
  }
}
