/** The renderer's 3-D vector and 3x3 matrix algebra, over the reals.
    Go's float32 rounding is not modelled, so every identity below is exact.
    The in-place mutators of Vec and Mat (v.Add(a), m.Scale(s), ...)
    always act on a local copy in the source; a call `v.Add(a)` is modelled as
    the assignment `v := VecAdd(v, a)`. */
module Kernel {

  datatype Vec = Vec(x: real, y: real, z: real)

  /** Row-major: xx xy xz / yx yy yz / zx zy zz. */
  datatype Mat = Mat(xx: real, xy: real, xz: real,
                     yx: real, yy: real, yz: real,
                     zx: real, zy: real, zz: real)

  /** Go's zero value `Vec{}`. */
  const Origin := Vec(0.0, 0.0, 0.0)

  function VecAdd(a: Vec, b: Vec): (r: Vec)
    ensures VecSub(r, b) == a
  {
    Vec(a.x + b.x, a.y + b.y, a.z + b.z)
  }

  function VecSub(a: Vec, b: Vec): (r: Vec)
    ensures r == Origin <==> a == b
    ensures Vec(r.x + b.x, r.y + b.y, r.z + b.z) == a
  {
    Vec(a.x - b.x, a.y - b.y, a.z - b.z)
  }

  function VecScale(v: Vec, s: real): (r: Vec)
    ensures s == 1.0 ==> r == v
    ensures s == 0.0 ==> r == Origin
  {
    Vec(v.x * s, v.y * s, v.z * s)
  }

  function VecDot(a: Vec, b: Vec): real
  {
    a.x * b.x + a.y * b.y + a.z * b.z
  }

  /** The cross product is orthogonal to both of its arguments. */
  function VecCross(a: Vec, b: Vec): (r: Vec)
    ensures VecDot(r, a) == 0.0 && VecDot(r, b) == 0.0
  {
    Vec(a.y * b.z - a.z * b.y,
        a.z * b.x - a.x * b.z,
        a.x * b.y - a.y * b.x)
  }

  /** Squared length: never negative, and zero at the origin. */
  function LenSq(v: Vec): (r: real)
    ensures r >= 0.0
    ensures v == Origin ==> r == 0.0
  {
    SquareFacts(v.x);
    SquareFacts(v.y);
    SquareFacts(v.z);
    v.x * v.x + v.y * v.y + v.z * v.z
  }

  lemma SquareFacts(a: real)
    ensures a * a >= 0.0
    ensures a == 0.0 ==> a * a == 0.0
  {
    if a > 0.0 {
      PositiveProduct(a, a);
    } else if a < 0.0 {
      PositiveProduct(-a, -a);
      assert (-a) * (-a) == a * a;
    }
  }

  lemma PositiveProduct(a: real, b: real)
    requires a > 0.0 && b > 0.0
    ensures a * b > 0.0
  {
  }

  /** The squared distance between two points does not depend on their order. */
  lemma {:induction false} LenSqSubSymmetric(a: Vec, b: Vec)
    ensures LenSq(VecSub(a, b)) == LenSq(VecSub(b, a))
  {
    var d, e := VecSub(a, b), VecSub(b, a);
    assert e.x == -d.x && e.y == -d.y && e.z == -d.z;
    assert e.x * e.x == d.x * d.x;
    assert e.y * e.y == d.y * d.y;
    assert e.z * e.z == d.z * d.z;
  }

  function MatVec(m: Mat, v: Vec): Vec
  {
    Vec(m.xx * v.x + m.xy * v.y + m.xz * v.z,
        m.yx * v.x + m.yy * v.y + m.yz * v.z,
        m.zx * v.x + m.zy * v.y + m.zz * v.z)
  }

  /** The identity matrix leaves every vector unchanged. */
  function MatIdent(): (r: Mat)
    ensures forall v :: MatVec(r, v) == v
  {
    Mat(1.0, 0.0, 0.0,
        0.0, 1.0, 0.0,
        0.0, 0.0, 1.0)
  }

  /** The product applies m2 first and then m1. */
  function MatMat(m1: Mat, m2: Mat): (r: Mat)
    ensures forall v :: MatVec(r, v) == MatVec(m1, MatVec(m2, v))
  {
    var r := Mat(
      m1.xx * m2.xx + m1.xy * m2.yx + m1.xz * m2.zx,
      m1.xx * m2.xy + m1.xy * m2.yy + m1.xz * m2.zy,
      m1.xx * m2.xz + m1.xy * m2.yz + m1.xz * m2.zz,
      m1.yx * m2.xx + m1.yy * m2.yx + m1.yz * m2.zx,
      m1.yx * m2.xy + m1.yy * m2.yy + m1.yz * m2.zy,
      m1.yx * m2.xz + m1.yy * m2.yz + m1.yz * m2.zz,
      m1.zx * m2.xx + m1.zy * m2.yx + m1.zz * m2.zx,
      m1.zx * m2.xy + m1.zy * m2.yy + m1.zz * m2.zy,
      m1.zx * m2.xz + m1.zy * m2.yz + m1.zz * m2.zz);
    assert forall v :: MatVec(r, v) == MatVec(m1, MatVec(m2, v)) by {
      forall v ensures MatVec(r, v) == MatVec(m1, MatVec(m2, v)) {
        MatVecRows(r, v);
        MatVecRows(m1, MatVec(m2, v));
        RowTimesVec(m1.xx, m1.xy, m1.xz, m2, v);
        RowTimesVec(m1.yx, m1.yy, m1.yz, m2, v);
        RowTimesVec(m1.zx, m1.zy, m1.zz, m2, v);
      }
    }
    r
  }

  /** One row (p, q, t) of a product, applied to v. */
  lemma RowTimesVec(p: real, q: real, t: real, m: Mat, v: Vec)
    ensures Row(p * m.xx + q * m.yx + t * m.zx,
                p * m.xy + q * m.yy + t * m.zy,
                p * m.xz + q * m.yz + t * m.zz, v)
         == Row(p, q, t, MatVec(m, v))
  {
  }

  /** Rotation about the x axis, given the sine and cosine of the angle:
      the x coordinate is kept, and a zero angle gives the identity. */
  function MatRotX(s: real, c: real): (r: Mat)
    ensures forall v :: MatVec(r, v).x == v.x
    ensures s == 0.0 && c == 1.0 ==> r == MatIdent()
  {
    Mat(1.0, 0.0, 0.0,
        0.0, c, s,
        0.0, -s, c)
  }

  /** Rotation about the y axis: the y coordinate is kept. */
  function MatRotY(s: real, c: real): (r: Mat)
    ensures forall v :: MatVec(r, v).y == v.y
    ensures s == 0.0 && c == 1.0 ==> r == MatIdent()
  {
    Mat(c, 0.0, -s,
        0.0, 1.0, 0.0,
        s, 0.0, c)
  }

  /** Rotation about the z axis: the z coordinate is kept. */
  function MatRotZ(s: real, c: real): (r: Mat)
    ensures forall v :: MatVec(r, v).z == v.z
    ensures s == 0.0 && c == 1.0 ==> r == MatIdent()
  {
    Mat(c, s, 0.0,
        -s, c, 0.0,
        0.0, 0.0, 1.0)
  }

  /** The skew-symmetric matrix of v multiplies by v on the left of a cross product. */
  function MatSkew(v: Vec): (r: Mat)
    ensures forall w :: MatVec(r, w) == VecCross(v, w)
  {
    Mat(0.0, -v.z, v.y,
        v.z, 0.0, -v.x,
        -v.y, v.x, 0.0)
  }

  /** Rotating by an angle and then by its negation (sine negated, cosine kept)
      restores every vector, when sine and cosine lie on the unit circle. */
  lemma {:induction false} RotYRoundTrip(s: real, c: real, v: Vec)
    requires s * s + c * c == 1.0
    ensures MatVec(MatRotY(-s, c), MatVec(MatRotY(s, c), v)) == v
  {
    var w := MatVec(MatRotY(s, c), v);
    assert w.x == c * v.x - s * v.z;
    assert w.z == s * v.x + c * v.z;
    calc {
      c * w.x + s * w.z;
      c * (c * v.x - s * v.z) + s * (s * v.x + c * v.z);
      (s * s + c * c) * v.x;
      v.x;
    }
    calc {
      -s * w.x + c * w.z;
      -s * (c * v.x - s * v.z) + c * (s * v.x + c * v.z);
      (s * s + c * c) * v.z;
      v.z;
    }
  }

  /** A rotation about y keeps the squared length, when sine and cosine lie
      on the unit circle. */
  lemma {:induction false} RotYKeepsLength(s: real, c: real, v: Vec)
    requires s * s + c * c == 1.0
    ensures LenSq(MatVec(MatRotY(s, c), v)) == LenSq(v)
  {
    var w := MatVec(MatRotY(s, c), v);
    calc {
      w.x * w.x + w.z * w.z;
      (c * v.x - s * v.z) * (c * v.x - s * v.z) + (s * v.x + c * v.z) * (s * v.x + c * v.z);
      (s * s + c * c) * (v.x * v.x) + (s * s + c * c) * (v.z * v.z);
      v.x * v.x + v.z * v.z;
    }
  }

  /** Rotating about x by an angle and then by its negation restores every
      vector, when sine and cosine lie on the unit circle. */
  lemma {:induction false} RotXRoundTrip(s: real, c: real, v: Vec)
    requires s * s + c * c == 1.0
    ensures MatVec(MatRotX(-s, c), MatVec(MatRotX(s, c), v)) == v
  {
    var w := MatVec(MatRotX(s, c), v);
    assert w.y == c * v.y + s * v.z && w.z == -s * v.y + c * v.z;
    assert c * w.y - s * w.z == (s * s + c * c) * v.y;
    assert s * w.y + c * w.z == (s * s + c * c) * v.z;
  }

  /** A rotation about x keeps the squared length on the unit circle. */
  lemma {:induction false} RotXKeepsLength(s: real, c: real, v: Vec)
    requires s * s + c * c == 1.0
    ensures LenSq(MatVec(MatRotX(s, c), v)) == LenSq(v)
  {
    var w := MatVec(MatRotX(s, c), v);
    assert w.y * w.y + w.z * w.z == (s * s + c * c) * (v.y * v.y) + (s * s + c * c) * (v.z * v.z);
  }

  /** Rotating about z by an angle and then by its negation restores every
      vector, when sine and cosine lie on the unit circle. */
  lemma {:induction false} RotZRoundTrip(s: real, c: real, v: Vec)
    requires s * s + c * c == 1.0
    ensures MatVec(MatRotZ(-s, c), MatVec(MatRotZ(s, c), v)) == v
  {
    var w := MatVec(MatRotZ(s, c), v);
    assert w.x == c * v.x + s * v.y && w.y == -s * v.x + c * v.y;
    assert c * w.x - s * w.y == (s * s + c * c) * v.x;
    assert s * w.x + c * w.y == (s * s + c * c) * v.y;
  }

  /** A rotation about z keeps the squared length on the unit circle. */
  lemma {:induction false} RotZKeepsLength(s: real, c: real, v: Vec)
    requires s * s + c * c == 1.0
    ensures LenSq(MatVec(MatRotZ(s, c), v)) == LenSq(v)
  {
    var w := MatVec(MatRotZ(s, c), v);
    assert w.x * w.x + w.y * w.y == (s * s + c * c) * (v.x * v.x) + (s * s + c * c) * (v.y * v.y);
  }

  /** The z, then y, then x rotations together keep the squared length on
      the unit circle. */
  lemma {:induction false} RotZYXKeepsLength(s: Vec, c: Vec, v: Vec)
    requires s.x * s.x + c.x * c.x == 1.0
    requires s.y * s.y + c.y * c.y == 1.0
    requires s.z * s.z + c.z * c.z == 1.0
    ensures LenSq(MatVec(MatRotX(s.x, c.x), MatVec(MatRotY(s.y, c.y), MatVec(MatRotZ(s.z, c.z), v)))) == LenSq(v)
  {
    var w1 := MatVec(MatRotZ(s.z, c.z), v);
    var w2 := MatVec(MatRotY(s.y, c.y), w1);
    RotZKeepsLength(s.z, c.z, v);
    RotYKeepsLength(s.y, c.y, w1);
    RotXKeepsLength(s.x, c.x, w2);
  }

  /** One row (p, q, r) of a matrix applied to v. */
  function Row(p: real, q: real, r: real, v: Vec): real
  {
    p * v.x + q * v.y + r * v.z
  }

  /** A matrix applied to v is its three rows applied to v. */
  lemma {:induction false} MatVecRows(m: Mat, v: Vec)
    ensures MatVec(m, v) == Vec(Row(m.xx, m.xy, m.xz, v), Row(m.yx, m.yy, m.yz, v), Row(m.zx, m.zy, m.zz, v))
  {
  }

  /** One row distributes over a difference. */
  lemma {:induction false} RowSub(p: real, q: real, r: real, a: Vec, b: Vec)
    ensures Row(p, q, r, a) - Row(p, q, r, b) == Row(p, q, r, VecSub(a, b))
  {
  }

  /** A matrix maps the difference of two vectors to the difference of
      their images. */
  lemma {:induction false} MatVecSub(m: Mat, a: Vec, b: Vec)
    ensures VecSub(MatVec(m, a), MatVec(m, b)) == MatVec(m, VecSub(a, b))
  {
    MatVecRows(m, a);
    MatVecRows(m, b);
    MatVecRows(m, VecSub(a, b));
    RowSub(m.xx, m.xy, m.xz, a, b);
    RowSub(m.yx, m.yy, m.yz, a, b);
    RowSub(m.zx, m.zy, m.zz, a, b);
  }
}
