/** Rotations and translations (components/dashboard/src/mat4.ts). The sine, the cosine and the length of
    the axis enter as numbers with s*s + c*c == 1 and length*length == x*x + y*y + z*z. */
module Motions {
  import opened LinearAlgebra

  function Diagonal(p: real, t: real, c: real): real { p * p * t + c }
  function Above(p: real, q: real, r: real, s: real, t: real): real { p * q * t + r * s }
  function Below(p: real, q: real, r: real, s: real, t: real): real { p * q * t - r * s }

  /** The rotation by the angle with sine `s` and cosine `c` about the axis (x, y, z). */
  function Rotation(x: real, y: real, z: real, s: real, c: real): Matrix {
    var t := 1.0 - c;
    Matrix(Vec(Diagonal(x, t, c), Above(y, x, z, s, t), Below(z, x, y, s, t), 0.0),
           Vec(Below(x, y, z, s, t), Diagonal(y, t, c), Above(z, y, x, s, t), 0.0),
           Vec(Above(x, z, y, s, t), Below(y, z, x, s, t), Diagonal(z, t, c), 0.0),
           E3)
  }

  function Translation(x: real, y: real, z: real): Matrix {
    Matrix(E0, E1, E2, Vec(x, y, z, 1.0))
  }

  // ---- Identities for one column; the other columns are the same with the axis components rotated.
  //      n is the squared length of the axis, k is s*s + c*c and m is t + c; all three are 1. ----

  lemma NormExpanded(x: real, y: real, z: real, s: real, c: real, t: real, b0: real, b1: real, b2: real)
    requires b0 == x * x * t + c && b1 == y * x * t + z * s && b2 == z * x * t - y * s
    ensures b0 * b0 + b1 * b1 + b2 * b2
         == (x * x * t + c) * (x * x * t + c) + (y * x * t + z * s) * (y * x * t + z * s)
          + (z * x * t - y * s) * (z * x * t - y * s)
  {}

  lemma NormReduced(x: real, y: real, z: real, s: real, c: real, t: real, n: real, k: real, m: real, a: real)
    requires n == x * x + y * y + z * z && k == s * s + c * c && m == t + c && a == x * x * t * t + s * s
    ensures (n - 1.0) * a + k + x * x * (m * m - k)
         == (x * x * t + c) * (x * x * t + c) + (y * x * t + z * s) * (y * x * t + z * s)
          + (z * x * t - y * s) * (z * x * t - y * s)
  {}

  lemma Norm(x: real, y: real, z: real, s: real, c: real, t: real, b0: real, b1: real, b2: real)
    requires x * x + y * y + z * z == 1.0 && s * s + c * c == 1.0 && t == 1.0 - c
    requires b0 == x * x * t + c && b1 == y * x * t + z * s && b2 == z * x * t - y * s
    ensures b0 * b0 + b1 * b1 + b2 * b2 == 1.0
  {
    NormExpanded(x, y, z, s, c, t, b0, b1, b2);
    NormReduced(x, y, z, s, c, t, 1.0, 1.0, 1.0, x * x * t * t + s * s);
  }

  lemma OrthogonalExpanded(x: real, y: real, z: real, s: real, c: real, t: real,
                           b0: real, b1: real, b2: real, d0: real, d1: real, d2: real)
    requires b0 == x * x * t + c && b1 == y * x * t + z * s && b2 == z * x * t - y * s
    requires d0 == x * y * t - z * s && d1 == y * y * t + c && d2 == z * y * t + x * s
    ensures b0 * d0 + b1 * d1 + b2 * d2
         == (x * x * t + c) * (x * y * t - z * s) + (y * x * t + z * s) * (y * y * t + c)
          + (z * x * t - y * s) * (z * y * t + x * s)
  {}

  lemma OrthogonalReduced(x: real, y: real, z: real, s: real, c: real, t: real, n: real, k: real, m: real)
    requires n == x * x + y * y + z * z && k == s * s + c * c && m == t + c
    ensures x * y * t * t * (n - 1.0) + x * y * (m * m - k)
         == (x * x * t + c) * (x * y * t - z * s) + (y * x * t + z * s) * (y * y * t + c)
          + (z * x * t - y * s) * (z * y * t + x * s)
  {}

  lemma Orthogonal(x: real, y: real, z: real, s: real, c: real, t: real,
                   b0: real, b1: real, b2: real, d0: real, d1: real, d2: real)
    requires x * x + y * y + z * z == 1.0 && s * s + c * c == 1.0 && t == 1.0 - c
    requires b0 == x * x * t + c && b1 == y * x * t + z * s && b2 == z * x * t - y * s
    requires d0 == x * y * t - z * s && d1 == y * y * t + c && d2 == z * y * t + x * s
    ensures b0 * d0 + b1 * d1 + b2 * d2 == 0.0
  {
    OrthogonalExpanded(x, y, z, s, c, t, b0, b1, b2, d0, d1, d2);
    OrthogonalReduced(x, y, z, s, c, t, 1.0, 1.0, 1.0);
  }

  lemma SameProduct(a: real, b: real, a': real, b': real)
    requires a == a' && b == b'
    ensures a * b == a' * b'
  {}

  function CrossX(x: real, y: real, z: real, s: real, c: real, t: real): real {
    (y * x * t + z * s) * (z * y * t + x * s) - (z * x * t - y * s) * (y * y * t + c)
  }

  lemma CrossXReduced(x: real, y: real, z: real, s: real, c: real, t: real, n: real, k: real, m: real)
    requires n == x * x + y * y + z * z && k == s * s + c * c && m == t + c
    ensures x * z * t + y * s + t * s * y * (n - 1.0) + y * s * (m - 1.0) + x * z * (k - m - c * (m - 1.0))
         == (y * x * t + z * s) * (z * y * t + x * s) - (z * x * t - y * s) * (y * y * t + c)
  {}

  lemma CrossXIs(x: real, y: real, z: real, s: real, c: real, t: real)
    requires x * x + y * y + z * z == 1.0 && s * s + c * c == 1.0 && t == 1.0 - c
    ensures CrossX(x, y, z, s, c, t) == Above(x, z, y, s, t)
  {
    CrossXReduced(x, y, z, s, c, t, 1.0, 1.0, 1.0);
  }

  function CrossY(x: real, y: real, z: real, s: real, c: real, t: real): real {
    (x * x * t + c) * (z * y * t + x * s) - (z * x * t - y * s) * (x * y * t - z * s)
  }

  lemma CrossYReduced(x: real, y: real, z: real, s: real, c: real, t: real, n: real, k: real, m: real)
    requires n == x * x + y * y + z * z && k == s * s + c * c && m == t + c
    ensures x * s - y * z * t + t * s * x * (n - 1.0) + x * s * (m - 1.0) - y * z * (k - m - c * (m - 1.0))
         == (x * x * t + c) * (z * y * t + x * s) - (z * x * t - y * s) * (x * y * t - z * s)
  {}

  lemma CrossYIs(x: real, y: real, z: real, s: real, c: real, t: real)
    requires x * x + y * y + z * z == 1.0 && s * s + c * c == 1.0 && t == 1.0 - c
    ensures CrossY(x, y, z, s, c, t) == -Below(y, z, x, s, t)
  {
    CrossYReduced(x, y, z, s, c, t, 1.0, 1.0, 1.0);
  }

  function CrossZ(x: real, y: real, z: real, s: real, c: real, t: real): real {
    (x * x * t + c) * (y * y * t + c) - (y * x * t + z * s) * (x * y * t - z * s)
  }

  lemma CrossZReduced(x: real, y: real, z: real, s: real, c: real, t: real, n: real, k: real, m: real)
    requires n == x * x + y * y + z * z && k == s * s + c * c && m == t + c
    ensures z * z * t + c + t * c * (n - 1.0) + c * (m - 1.0) + z * z * (k - m - c * (m - 1.0))
         == (x * x * t + c) * (y * y * t + c) - (y * x * t + z * s) * (x * y * t - z * s)
  {}

  lemma CrossZIs(x: real, y: real, z: real, s: real, c: real, t: real)
    requires x * x + y * y + z * z == 1.0 && s * s + c * c == 1.0 && t == 1.0 - c
    ensures CrossZ(x, y, z, s, c, t) == Diagonal(z, t, c)
  {
    CrossZReduced(x, y, z, s, c, t, 1.0, 1.0, 1.0);
  }

  lemma CrossXExpanded(x: real, y: real, z: real, s: real, c: real, t: real, b1: real, d2: real, b2: real, d1: real)
    requires b1 == Above(y, x, z, s, t) && d2 == Above(z, y, x, s, t)
    requires b2 == Below(z, x, y, s, t) && d1 == Diagonal(y, t, c)
    ensures Minor(b1, b2, d1, d2) == CrossX(x, y, z, s, c, t)
  {
    SameProduct(b1, d2, y * x * t + z * s, z * y * t + x * s);
    SameProduct(b2, d1, z * x * t - y * s, y * y * t + c);
  }

  lemma CrossYExpanded(x: real, y: real, z: real, s: real, c: real, t: real, b2: real, d0: real, b0: real, d2: real)
    requires b2 == Below(z, x, y, s, t) && d0 == Below(x, y, z, s, t)
    requires b0 == Diagonal(x, t, c) && d2 == Above(z, y, x, s, t)
    ensures Minor(b0, b2, d0, d2) == CrossY(x, y, z, s, c, t)
  {
    SameProduct(b0, d2, x * x * t + c, z * y * t + x * s);
    SameProduct(b2, d0, z * x * t - y * s, x * y * t - z * s);
  }

  lemma CrossZExpanded(x: real, y: real, z: real, s: real, c: real, t: real, b0: real, d1: real, b1: real, d0: real)
    requires b0 == Diagonal(x, t, c) && d1 == Diagonal(y, t, c)
    requires b1 == Above(y, x, z, s, t) && d0 == Below(x, y, z, s, t)
    ensures Minor(b0, b1, d0, d1) == CrossZ(x, y, z, s, c, t)
  {
    SameProduct(b0, d1, x * x * t + c, y * y * t + c);
    SameProduct(b1, d0, y * x * t + z * s, x * y * t - z * s);
  }

  lemma AxisExpanded(x: real, y: real, z: real, s: real, c: real, t: real, n: real)
    requires n == x * x + y * y + z * z
    ensures x * t * n + c * x == (x * x * t + c) * x + (x * y * t - z * s) * y + (x * z * t + y * s) * z
  {}

  // ---- The same on the entries of the rotation matrix ----

  function Dot3(a: real, b: real, c: real, d: real, e: real, f: real): real {
    a * d + b * e + c * f
  }

  lemma FlatDot(u: Vec, v: Vec)
    requires u.w == 0.0 || v.w == 0.0
    ensures Dot(u, v) == Dot3(u.x, u.y, u.z, v.x, v.y, v.z)
    ensures Dot(u, v) == Dot3(u.y, u.z, u.x, v.y, v.z, v.x)
    ensures Dot(u, v) == Dot3(u.z, u.x, u.y, v.z, v.x, v.y)
    ensures Dot(u, v) == Dot3(v.x, v.y, v.z, u.x, u.y, u.z)
  {
    var d := DotIs(u, v);
  }

  lemma ColumnNorm(x: real, y: real, z: real, s: real, c: real)
    requires x * x + y * y + z * z == 1.0 && s * s + c * c == 1.0
    ensures var t := 1.0 - c;
            var b0, b1, b2 := Diagonal(x, t, c), Above(y, x, z, s, t), Below(z, x, y, s, t);
            Dot3(b0, b1, b2, b0, b1, b2) == 1.0
  {
    var t := 1.0 - c;
    Norm(x, y, z, s, c, t, Diagonal(x, t, c), Above(y, x, z, s, t), Below(z, x, y, s, t));
  }

  lemma ColumnsOrthogonal(x: real, y: real, z: real, s: real, c: real)
    requires x * x + y * y + z * z == 1.0 && s * s + c * c == 1.0
    ensures var t := 1.0 - c;
            Dot3(Diagonal(x, t, c), Above(y, x, z, s, t), Below(z, x, y, s, t),
                 Below(x, y, z, s, t), Diagonal(y, t, c), Above(z, y, x, s, t)) == 0.0
  {
    var t := 1.0 - c;
    Orthogonal(x, y, z, s, c, t, Diagonal(x, t, c), Above(y, x, z, s, t), Below(z, x, y, s, t),
               Below(x, y, z, s, t), Diagonal(y, t, c), Above(z, y, x, s, t));
  }

  lemma ColumnsCross(x: real, y: real, z: real, s: real, c: real)
    requires x * x + y * y + z * z == 1.0 && s * s + c * c == 1.0
    ensures var r := Rotation(x, y, z, s, c);
            YZ(r.c0, r.c1) == r.c2.x && XZ(r.c0, r.c1) == -r.c2.y && XY(r.c0, r.c1) == r.c2.z
  {
    var t, r := 1.0 - c, Rotation(x, y, z, s, c);
    CrossXExpanded(x, y, z, s, c, t, r.c0.y, r.c1.z, r.c0.z, r.c1.y);
    CrossYExpanded(x, y, z, s, c, t, r.c0.z, r.c1.x, r.c0.x, r.c1.z);
    CrossZExpanded(x, y, z, s, c, t, r.c0.x, r.c1.y, r.c0.y, r.c1.x);
    CrossXIs(x, y, z, s, c, t);
    CrossYIs(x, y, z, s, c, t);
    CrossZIs(x, y, z, s, c, t);
  }

  lemma RotationColumns(x: real, y: real, z: real, s: real, c: real)
    requires x * x + y * y + z * z == 1.0 && s * s + c * c == 1.0
    ensures var r := Rotation(x, y, z, s, c);
            Dot(r.c0, r.c0) == 1.0 && Dot(r.c1, r.c1) == 1.0 && Dot(r.c2, r.c2) == 1.0
    ensures var r := Rotation(x, y, z, s, c);
            Dot(r.c0, r.c1) == 0.0 && Dot(r.c1, r.c2) == 0.0 && Dot(r.c2, r.c0) == 0.0
  {
    var r := Rotation(x, y, z, s, c);
    ColumnNorm(x, y, z, s, c);
    ColumnNorm(y, z, x, s, c);
    ColumnNorm(z, x, y, s, c);
    ColumnsOrthogonal(x, y, z, s, c);
    ColumnsOrthogonal(y, z, x, s, c);
    ColumnsOrthogonal(z, x, y, s, c);
    FlatDot(r.c0, r.c0);
    FlatDot(r.c1, r.c1);
    FlatDot(r.c2, r.c2);
    FlatDot(r.c0, r.c1);
    FlatDot(r.c1, r.c2);
    FlatDot(r.c2, r.c0);
  }

  lemma DotSymmetric(u: Vec, v: Vec)
    ensures Dot(u, v) == Dot(v, u)
  {
    var d := DotIs(u, v);
    var e := DotIs(v, u);
  }

  lemma DotUnit(v: Vec)
    ensures Dot(v, E0) == Dot(E0, v) == v.x && Dot(v, E1) == Dot(E1, v) == v.y
    ensures Dot(v, E2) == Dot(E2, v) == v.z && Dot(v, E3) == Dot(E3, v) == v.w
  {}

  lemma RotationIsOrthogonal(x: real, y: real, z: real, s: real, c: real)
    requires x * x + y * y + z * z == 1.0 && s * s + c * c == 1.0
    ensures var r := Rotation(x, y, z, s, c); Mul(Transpose(r), r) == IDENTITY
  {
    var r := Rotation(x, y, z, s, c);
    RotationColumns(x, y, z, s, c);
    DotSymmetric(r.c0, r.c1);
    DotSymmetric(r.c1, r.c2);
    DotSymmetric(r.c2, r.c0);
    DotUnit(r.c0);
    DotUnit(r.c1);
    DotUnit(r.c2);
    DotUnit(E3);
  }

  lemma FlatDet(a: Vec, b: Vec, c: Vec)
    requires a.w == 0.0 && b.w == 0.0 && c.w == 0.0
    ensures Det(Matrix(a, b, c, E3)) == Dot3(c.x, c.y, c.z, YZ(a, b), -XZ(a, b), XY(a, b))
  {
    var q := WedgeIs(c, E3);
    assert q == Minors(0.0, 0.0, c.x, 0.0, c.y, c.z);
    var d := PairIs(Wedge(a, b), q);
  }

  lemma RotationDet(x: real, y: real, z: real, s: real, c: real)
    requires x * x + y * y + z * z == 1.0 && s * s + c * c == 1.0
    ensures Det(Rotation(x, y, z, s, c)) == 1.0
  {
    var r := Rotation(x, y, z, s, c);
    FlatDet(r.c0, r.c1, r.c2);
    ColumnsCross(x, y, z, s, c);
    RotationColumns(x, y, z, s, c);
    FlatDot(r.c2, r.c2);
  }

  lemma AxisEntry(x: real, y: real, z: real, s: real, c: real)
    requires x * x + y * y + z * z == 1.0
    ensures var t := 1.0 - c;
            Dot3(Diagonal(x, t, c), Below(x, y, z, s, t), Above(x, z, y, s, t), x, y, z) == x
  {
    var t := 1.0 - c;
    AxisExpanded(x, y, z, s, c, t, 1.0);
  }

  /** The rotation keeps its axis, turns by the angle with cosine `c` (its trace) and in the sense of `s`
      (its skew part); with orthogonality and determinant 1 this pins it down. */
  lemma RotationAboutAxis(x: real, y: real, z: real, s: real, c: real)
    requires x * x + y * y + z * z == 1.0 && s * s + c * c == 1.0
    ensures var r := Rotation(x, y, z, s, c);
            Mul(Transpose(r), r) == IDENTITY && Det(r) == 1.0 && r.c3 == E3 && r.c0.w == r.c1.w == r.c2.w == 0.0
    ensures Apply(Rotation(x, y, z, s, c), Vec(x, y, z, 0.0)) == Vec(x, y, z, 0.0)
    ensures var r := Rotation(x, y, z, s, c);
            r.c0.x + r.c1.y + r.c2.z == 1.0 + 2.0 * c &&
            r.c1.z - r.c2.y == 2.0 * (x * s) && r.c2.x - r.c0.z == 2.0 * (y * s) && r.c0.y - r.c1.x == 2.0 * (z * s)
  {
    RotationIsOrthogonal(x, y, z, s, c);
    RotationDet(x, y, z, s, c);
    AxisIsFixed(x, y, z, s, c);
    AngleOfRotation(x, y, z, s, c);
  }

  lemma AxisIsFixed(x: real, y: real, z: real, s: real, c: real)
    requires x * x + y * y + z * z == 1.0
    ensures Apply(Rotation(x, y, z, s, c), Vec(x, y, z, 0.0)) == Vec(x, y, z, 0.0)
  {
    var rows, v := Transpose(Rotation(x, y, z, s, c)), Vec(x, y, z, 0.0);
    AxisEntry(x, y, z, s, c);
    AxisEntry(y, z, x, s, c);
    AxisEntry(z, x, y, s, c);
    FlatDot(rows.c0, v);
    FlatDot(rows.c1, v);
    FlatDot(rows.c2, v);
    FlatDot(rows.c3, v);
  }

  lemma AngleOfRotation(x: real, y: real, z: real, s: real, c: real)
    requires x * x + y * y + z * z == 1.0
    ensures var r := Rotation(x, y, z, s, c);
            r.c0.x + r.c1.y + r.c2.z == 1.0 + 2.0 * c &&
            r.c1.z - r.c2.y == 2.0 * (x * s) && r.c2.x - r.c0.z == 2.0 * (y * s) && r.c0.y - r.c1.x == 2.0 * (z * s)
  {
    hide Above, Below, Diagonal;
    var t := 1.0 - c;
    Trace(x, y, z, c);
    SkewPart(z, y, x, s, t);
    SkewPart(x, z, y, s, t);
    SkewPart(y, x, z, s, t);
  }

  lemma Trace(x: real, y: real, z: real, c: real)
    requires x * x + y * y + z * z == 1.0
    ensures var t := 1.0 - c; Diagonal(x, t, c) + Diagonal(y, t, c) + Diagonal(z, t, c) == 1.0 + 2.0 * c
  {
    TraceExpanded(x, y, z, 1.0 - c, c, 1.0);
  }

  lemma SkewPart(p: real, q: real, r: real, s: real, t: real)
    ensures Above(p, q, r, s, t) - Below(q, p, r, s, t) == 2.0 * (r * s)
  {}

  lemma TraceExpanded(x: real, y: real, z: real, t: real, c: real, n: real)
    requires n == x * x + y * y + z * z
    ensures t * n + 3.0 * c == (x * x * t + c) + (y * y * t + c) + (z * z * t + c)
  {}

  lemma TranslationMoves(x: real, y: real, z: real, p: Vec)
    ensures Apply(Translation(x, y, z), p) == Vec(p.x + x * p.w, p.y + y * p.w, p.z + z * p.w, p.w)
    ensures Det(Translation(x, y, z)) == 1.0
  {
    var q := WedgeIs(E2, Vec(x, y, z, 1.0));
    var r := PairIs(Wedge(E0, E1), q);
  }
}

/** The matrix class, updated in place. */
module Mat4Class {
  import opened LinearAlgebra
  import opened Motions

  /** The 16 numbers of the array, column by column. */
  function Columns(s: seq<real>): Matrix
    requires |s| == 16
  {
    Matrix(Vec(s[0], s[1], s[2], s[3]), Vec(s[4], s[5], s[6], s[7]),
           Vec(s[8], s[9], s[10], s[11]), Vec(s[12], s[13], s[14], s[15]))
  }

  lemma ColumnsDetermineArray(s: seq<real>, t: seq<real>)
    requires |s| == |t| == 16 && Columns(s) == Columns(t)
    ensures s == t
  {
    var m, n := Columns(s), Columns(t);
    assert m.c0 == n.c0 && m.c1 == n.c1 && m.c2 == n.c2 && m.c3 == n.c3;
    forall i | 0 <= i < 16 ensures s[i] == t[i] {
      if i < 8 {
        assert i == 0 || i == 1 || i == 2 || i == 3 || i == 4 || i == 5 || i == 6 || i == 7;
      } else {
        assert i == 8 || i == 9 || i == 10 || i == 11 || i == 12 || i == 13 || i == 14 || i == 15;
      }
    }
  }

  /** Inverting twice restores the original array, and the second inversion never fails. */
  lemma InvertTwice(original: seq<real>, once: seq<real>, twice: seq<real>)
    requires |original| == |once| == |twice| == 16 && Det(Columns(original)) != 0.0
    requires Columns(once) == Inverse(Columns(original))
    ensures Det(Columns(once)) != 0.0
    ensures Columns(twice) == Inverse(Columns(once)) ==> twice == original
  {
    InverseTheorem(Columns(original));
    if Columns(twice) == Inverse(Columns(once)) {
      ColumnsDetermineArray(twice, original);
    }
  }

  lemma Dot4Flat(a: real, b: real, c: real, d: real, p: real, q: real, r: real)
    ensures Dot4(a, b, c, d, Vec(p, q, r, 0.0)) == Sum3(a, p, b, q, c, r)
    ensures Dot4(a, b, c, d, Vec(p, q, r, 1.0)) == Sum3(a, p, b, q, c, r) + d
  {}

  lemma ApplyUnit(m: Matrix)
    ensures Apply(m, E0) == m.c0 && Apply(m, E1) == m.c1 && Apply(m, E2) == m.c2 && Apply(m, E3) == m.c3
  {}

  function SquaredLength(x: real, y: real, z: real): real { x * x + y * y + z * z }
  function SquaredRadius(s: real, c: real): real { s * s + c * c }

  /** The rotation about an axis of length `len`, with the axis scaled to length 1. */
  function NormalizedRotation(axis: seq<real>, len: real, s: real, c: real): Motion
    requires |axis| >= 3 && len != 0.0
  {
    var l := 1.0 / len;
    Rotate(Times(axis[0], l), Times(axis[1], l), Times(axis[2], l), s, c)
  }

  lemma UnitAxis(x: real, y: real, z: real, len: real)
    requires len * len == SquaredLength(x, y, z) && len != 0.0
    ensures var l := 1.0 / len; SquaredLength(Times(x, l), Times(y, l), Times(z, l)) == 1.0
  {
    var l := 1.0 / len;
    assert len * l == 1.0;
    ScaledSquares(x, y, z, l, len * len);
    assert len * len * l * l == (len * l) * (len * l);
  }

  lemma ScaledBack(a: real, len: real)
    requires len != 0.0
    ensures Times(a, 1.0 / len) * len == a
  {}

  lemma ScaledSquares(x: real, y: real, z: real, l: real, n: real)
    requires n == x * x + y * y + z * z
    ensures n * l * l == (x * l) * (x * l) + (y * l) * (y * l) + (z * l) * (z * l)
  {}

  datatype Motion = Translate(x: real, y: real, z: real) | Rotate(x: real, y: real, z: real, s: real, c: real) {
    ghost predicate Proper() {
      Rotate? ==> SquaredLength(x, y, z) == 1.0 && SquaredRadius(s, c) == 1.0
    }

    function ToMatrix(): Matrix {
      match this
      case Translate(x, y, z) => Translation(x, y, z)
      case Rotate(x, y, z, s, c) => Rotation(x, y, z, s, c)
    }
  }

  /** The matrix after a sequence of translations and rotations. */
  function AfterMotions(m: Matrix, motions: seq<Motion>): Matrix {
    if motions == [] then m
    else Mul(AfterMotions(m, motions[..|motions| - 1]), motions[|motions| - 1].ToMatrix())
  }

  lemma MotionDet(motion: Motion)
    requires motion.Proper()
    ensures Det(motion.ToMatrix()) == 1.0
  {
    hide Det, Rotation, Translation, SquaredLength, SquaredRadius;
    match motion
    case Translate(x, y, z) => TranslationMoves(x, y, z, E0);
    case Rotate(x, y, z, s, c) => UnitRotationDet(x, y, z, s, c);
  }

  lemma UnitRotationDet(x: real, y: real, z: real, s: real, c: real)
    requires SquaredLength(x, y, z) == 1.0 && SquaredRadius(s, c) == 1.0
    ensures Det(Rotation(x, y, z, s, c)) == 1.0
  {
    hide Det, Rotation;
    RotationDet(x, y, z, s, c);
  }

  lemma {:induction false} MotionsKeepDet(m: Matrix, motions: seq<Motion>)
    requires forall i | 0 <= i < |motions| :: motions[i].Proper()
    ensures Det(AfterMotions(m, motions)) == Det(m)
  {
    hide Det, Mul, Motion.ToMatrix, Motion.Proper;
    if motions != [] {
      var front, last := motions[..|motions| - 1], motions[|motions| - 1];
      MotionsKeepDet(m, front);
      DetMultiplicative(AfterMotions(m, front), last.ToMatrix());
      MotionDet(last);
    }
  }

  /** From the identity, any sequence of motions leads to a matrix of determinant 1. */
  lemma MotionsHaveDetOne(motions: seq<Motion>)
    requires forall i | 0 <= i < |motions| :: motions[i].Proper()
    ensures Det(AfterMotions(IDENTITY, motions)) == 1.0
  {
    MotionsKeepDet(IDENTITY, motions);
    DetIdentity();
  }

  /** The matrix is not singular, and the computed inverse is a two-sided one. */
  ghost predicate HasInverse(m: Matrix) {
    Det(m) != 0.0 && Mul(m, Inverse(m)) == IDENTITY && Mul(Inverse(m), m) == IDENTITY
  }

  lemma UnitDetInvertible(m: Matrix)
    requires Det(m) == 1.0
    ensures HasInverse(m)
  {
    InverseTheorem(m);
  }

  /** So `Invert` accepts it, and gives its inverse. */
  lemma MotionsStayInvertible(motions: seq<Motion>)
    requires forall i | 0 <= i < |motions| :: motions[i].Proper()
    ensures Det(AfterMotions(IDENTITY, motions)) == 1.0 && HasInverse(AfterMotions(IDENTITY, motions))
  {
    hide *;
    MotionsHaveDetOne(motions);
    UnitDetInvertible(AfterMotions(IDENTITY, motions));
  }

  function Sum3(a: real, p: real, b: real, q: real, c: real, r: real): real {
    a * p + b * q + c * r
  }

  class Mat4 {
    const data: array<real>

    ghost predicate Valid() { data.Length == 16 }

    ghost function Value(): Matrix
      requires Valid()
      reads data
    {
      Columns(data[..])
    }

    constructor ()
      ensures Valid() && fresh(data)
    {
      data := new real[16](_ => 0.0);
    }

    method SetToIdentity()
      requires Valid()
      modifies data
      ensures Value() == IDENTITY
    {
      data[0] := 1.0; data[4] := 0.0; data[8] := 0.0; data[12] := 0.0;
      data[1] := 0.0; data[5] := 1.0; data[9] := 0.0; data[13] := 0.0;
      data[2] := 0.0; data[6] := 0.0; data[10] := 1.0; data[14] := 0.0;
      data[3] := 0.0; data[7] := 0.0; data[11] := 0.0; data[15] := 1.0;
    }

    method SetFrom(other: Mat4)
      requires Valid() && other.Valid()
      modifies data
      ensures Value() == old(other.Value())
    {
      forall i | 0 <= i < 16 {
        data[i] := other.data[i];
      }
      assert data[..] == old(other.data[..]);
    }

    method Transpose()
      requires Valid()
      modifies data
      ensures Value() == LinearAlgebra.Transpose(old(Value()))
    {
      var a01, a02, a03 := data[1], data[2], data[3];
      var a12, a13 := data[6], data[7];
      var a23 := data[11];
      data[1] := data[4];
      data[2] := data[8];
      data[3] := data[12];
      data[4] := a01;
      data[6] := data[9];
      data[7] := data[13];
      data[8] := a02;
      data[9] := a12;
      data[11] := data[14];
      data[12] := a03;
      data[13] := a13;
      data[14] := a23;
    }

    /** Despite its name, this returns the reciprocal of the determinant, or 0 when that is 0. */
    method DetReciprocal() returns (r: real)
      requires Valid()
      ensures r == 0.0 <==> Det(Value()) == 0.0
      ensures r != 0.0 ==> r * Det(Value()) == 1.0
    {
      var b00 := Minor(data[0], data[1], data[4], data[5]);
      var b01 := Minor(data[0], data[2], data[4], data[6]);
      var b02 := Minor(data[0], data[3], data[4], data[7]);
      var b03 := Minor(data[1], data[2], data[5], data[6]);
      var b04 := Minor(data[1], data[3], data[5], data[7]);
      var b05 := Minor(data[2], data[3], data[6], data[7]);
      var b06 := Minor(data[8], data[9], data[12], data[13]);
      var b07 := Minor(data[8], data[10], data[12], data[14]);
      var b08 := Minor(data[8], data[11], data[12], data[15]);
      var b09 := Minor(data[9], data[10], data[13], data[14]);
      var b10 := Minor(data[9], data[11], data[13], data[15]);
      var b11 := Minor(data[10], data[11], data[14], data[15]);
      var det := SixTerms(b00, b01, b02, b03, b04, b05, b06, b07, b08, b09, b10, b11);
      if det == 0.0 {
        return 0.0;
      }
      r := 1.0 / det;
    }

    /** Replaces the matrix by its inverse; false stands for the thrown error. */
    method Invert() returns (ok: bool)
      requires Valid()
      modifies data
      ensures ok <==> Det(old(Value())) != 0.0
      ensures !ok ==> data[..] == old(data[..])
      ensures ok ==> Value() == Inverse(old(Value()))
    {
      ghost var m := Value();
      var a00, a01, a02, a03 := data[0], data[1], data[2], data[3];
      var a10, a11, a12, a13 := data[4], data[5], data[6], data[7];
      var a20, a21, a22, a23 := data[8], data[9], data[10], data[11];
      var a30, a31, a32, a33 := data[12], data[13], data[14], data[15];
      var b00, b01, b02 := Minor(a00, a01, a10, a11), Minor(a00, a02, a10, a12), Minor(a00, a03, a10, a13);
      var b03, b04, b05 := Minor(a01, a02, a11, a12), Minor(a01, a03, a11, a13), Minor(a02, a03, a12, a13);
      var b06, b07, b08 := Minor(a20, a21, a30, a31), Minor(a20, a22, a30, a32), Minor(a20, a23, a30, a33);
      var b09, b10, b11 := Minor(a21, a22, a31, a32), Minor(a21, a23, a31, a33), Minor(a22, a23, a32, a33);
      var det := SixTerms(b00, b01, b02, b03, b04, b05, b06, b07, b08, b09, b10, b11);
      assert det == Det(m);
      if det == 0.0 {
        return false;
      }
      det := 1.0 / det;
      data[0] := Times(Three(a11, b11, a12, b10, a13, b09), det);
      data[1] := Times(-Three(a01, b11, a02, b10, a03, b09), det);
      data[2] := Times(Three(a31, b05, a32, b04, a33, b03), det);
      data[3] := Times(-Three(a21, b05, a22, b04, a23, b03), det);
      data[4] := Times(-Three(a10, b11, a12, b08, a13, b07), det);
      data[5] := Times(Three(a00, b11, a02, b08, a03, b07), det);
      data[6] := Times(-Three(a30, b05, a32, b02, a33, b01), det);
      data[7] := Times(Three(a20, b05, a22, b02, a23, b01), det);
      data[8] := Times(Three(a10, b10, a11, b08, a13, b06), det);
      data[9] := Times(-Three(a00, b10, a01, b08, a03, b06), det);
      data[10] := Times(Three(a30, b04, a31, b02, a33, b00), det);
      data[11] := Times(-Three(a20, b04, a21, b02, a23, b00), det);
      data[12] := Times(-Three(a10, b09, a11, b07, a12, b06), det);
      data[13] := Times(Three(a00, b09, a01, b07, a02, b06), det);
      data[14] := Times(-Three(a30, b03, a31, b01, a32, b00), det);
      data[15] := Times(Three(a20, b03, a21, b01, a22, b00), det);
      ok := true;
    }

    /** Multiplies by the translation on the right. */
    method Translate(x: real, y: real, z: real)
      requires Valid()
      modifies data
      ensures Value() == Mul(old(Value()), Translation(x, y, z))
    {
      ghost var m := Value();
      Dot4Flat(m.c0.x, m.c1.x, m.c2.x, m.c3.x, x, y, z);
      Dot4Flat(m.c0.y, m.c1.y, m.c2.y, m.c3.y, x, y, z);
      Dot4Flat(m.c0.z, m.c1.z, m.c2.z, m.c3.z, x, y, z);
      Dot4Flat(m.c0.w, m.c1.w, m.c2.w, m.c3.w, x, y, z);
      ApplyUnit(m);
      data[12] := Sum3(data[0], x, data[4], y, data[8], z) + data[12];
      data[13] := Sum3(data[1], x, data[5], y, data[9], z) + data[13];
      data[14] := Sum3(data[2], x, data[6], y, data[10], z) + data[14];
      data[15] := Sum3(data[3], x, data[7], y, data[11], z) + data[15];
    }

    /** Multiplies by the rotation on the right; false stands for the error thrown for a short axis.
        `len` is the length of the axis, `s` and `c` are the sine and cosine of the angle. */
    method Rotate(axis: seq<real>, len: real, s: real, c: real) returns (ok: bool)
      requires Valid()
      requires |axis| >= 3 && len >= 0.0 && len * len == SquaredLength(axis[0], axis[1], axis[2])
      requires SquaredRadius(s, c) == 1.0
      modifies data
      ensures ok <==> len >= 0.001
      ensures !ok ==> data[..] == old(data[..])
      ensures ok ==>
        var motion := NormalizedRotation(axis, len, s, c);
        && motion.Rotate? && motion.Proper() && motion.s == s && motion.c == c
        && motion.x * len == axis[0] && motion.y * len == axis[1] && motion.z * len == axis[2]
        && Value() == Mul(old(Value()), Rotation(motion.x, motion.y, motion.z, s, c))
    {
      if len < 0.001 {
        return false;
      }
      var l := 1.0 / len;
      var x, y, z := Times(axis[0], l), Times(axis[1], l), Times(axis[2], l);
      UnitAxis(axis[0], axis[1], axis[2], len);
      ScaledBack(axis[0], len);
      ScaledBack(axis[1], len);
      ScaledBack(axis[2], len);
      var t := 1.0 - c;
      MultiplyFlat(Diagonal(x, t, c), Above(y, x, z, s, t), Below(z, x, y, s, t),
                   Below(x, y, z, s, t), Diagonal(y, t, c), Above(z, y, x, s, t),
                   Above(x, z, y, s, t), Below(y, z, x, s, t), Diagonal(z, t, c));
      ok := true;
    }

    /** The multiplication inside `Rotate`: by the matrix with this 3x3 block. */
    method MultiplyFlat(b00: real, b01: real, b02: real,
                        b10: real, b11: real, b12: real,
                        b20: real, b21: real, b22: real)
      requires Valid()
      modifies data
      ensures Value()
           == Mul(old(Value()), Matrix(Vec(b00, b01, b02, 0.0), Vec(b10, b11, b12, 0.0), Vec(b20, b21, b22, 0.0), E3))
    {
      ghost var m := Value();
      var a00, a01, a02, a03 := data[0], data[1], data[2], data[3];
      var a10, a11, a12, a13 := data[4], data[5], data[6], data[7];
      var a20, a21, a22, a23 := data[8], data[9], data[10], data[11];
      MulFlat(m, b00, b01, b02);
      MulFlat(m, b10, b11, b12);
      MulFlat(m, b20, b21, b22);
      ApplyUnit(m);
      data[0] := Sum3(a00, b00, a10, b01, a20, b02);
      data[1] := Sum3(a01, b00, a11, b01, a21, b02);
      data[2] := Sum3(a02, b00, a12, b01, a22, b02);
      data[3] := Sum3(a03, b00, a13, b01, a23, b02);
      data[4] := Sum3(a00, b10, a10, b11, a20, b12);
      data[5] := Sum3(a01, b10, a11, b11, a21, b12);
      data[6] := Sum3(a02, b10, a12, b11, a22, b12);
      data[7] := Sum3(a03, b10, a13, b11, a23, b12);
      data[8] := Sum3(a00, b20, a10, b21, a20, b22);
      data[9] := Sum3(a01, b20, a11, b21, a21, b22);
      data[10] := Sum3(a02, b20, a12, b21, a22, b22);
      data[11] := Sum3(a03, b20, a13, b21, a23, b22);
    }
  }

  lemma MulFlat(m: Matrix, p: real, q: real, r: real)
    ensures Apply(m, Vec(p, q, r, 0.0))
         == Vec(Sum3(m.c0.x, p, m.c1.x, q, m.c2.x, r), Sum3(m.c0.y, p, m.c1.y, q, m.c2.y, r),
                Sum3(m.c0.z, p, m.c1.z, q, m.c2.z, r), Sum3(m.c0.w, p, m.c1.w, q, m.c2.w, r))
  {
    Dot4Flat(m.c0.x, m.c1.x, m.c2.x, m.c3.x, p, q, r);
    Dot4Flat(m.c0.y, m.c1.y, m.c2.y, m.c3.y, p, q, r);
    Dot4Flat(m.c0.z, m.c1.z, m.c2.z, m.c3.z, p, q, r);
    Dot4Flat(m.c0.w, m.c1.w, m.c2.w, m.c3.w, p, q, r);
  }
}
