/**
 The 3x3 matrix arithmetic the rotation fit relies on (`numeric.det`,
 `numeric.transpose`, `numeric.dot`, `numeric.add` on 3x3 arrays), over
 exact reals. A matrix is a value with one field per entry, row by row.
 */
module Linalg {

  datatype Mat3 = Mat3(m00: real, m01: real, m02: real,
                       m10: real, m11: real, m12: real,
                       m20: real, m21: real, m22: real)

  /** A 3-vector, as `THREE.Vector3`. */
  datatype Vec3 = Vec3(x: real, y: real, z: real)

  const Identity: Mat3 := Mat3(1.0, 0.0, 0.0, 0.0, 1.0, 0.0, 0.0, 0.0, 1.0)

  function Det(m: Mat3): real
  {
    Det9(m.m00, m.m01, m.m02, m.m10, m.m11, m.m12, m.m20, m.m21, m.m22)
  }

  function Transpose(m: Mat3): Mat3
  {
    Mat3(m.m00, m.m10, m.m20, m.m01, m.m11, m.m21, m.m02, m.m12, m.m22)
  }

  /** The dot product of (x0, x1, x2) and (y0, y1, y2). */
  function Dot3(x0: real, x1: real, x2: real, y0: real, y1: real, y2: real): real
  {
    x0 * y0 + x1 * y1 + x2 * y2
  }

  /** The matrix product a b: row r of a against column c of b. */
  function Mul(a: Mat3, b: Mat3): Mat3
  {
    Mat3(Dot3(a.m00, a.m01, a.m02, b.m00, b.m10, b.m20),
         Dot3(a.m00, a.m01, a.m02, b.m01, b.m11, b.m21),
         Dot3(a.m00, a.m01, a.m02, b.m02, b.m12, b.m22),
         Dot3(a.m10, a.m11, a.m12, b.m00, b.m10, b.m20),
         Dot3(a.m10, a.m11, a.m12, b.m01, b.m11, b.m21),
         Dot3(a.m10, a.m11, a.m12, b.m02, b.m12, b.m22),
         Dot3(a.m20, a.m21, a.m22, b.m00, b.m10, b.m20),
         Dot3(a.m20, a.m21, a.m22, b.m01, b.m11, b.m21),
         Dot3(a.m20, a.m21, a.m22, b.m02, b.m12, b.m22))
  }

  function Add(a: Mat3, b: Mat3): Mat3
  {
    Mat3(a.m00 + b.m00, a.m01 + b.m01, a.m02 + b.m02,
         a.m10 + b.m10, a.m11 + b.m11, a.m12 + b.m12,
         a.m20 + b.m20, a.m21 + b.m21, a.m22 + b.m22)
  }

  /** The matrix times a column vector, as `Vector3.applyMatrix3`. */
  function Apply(m: Mat3, v: Vec3): Vec3
  {
    Vec3(m.m00 * v.x + m.m01 * v.y + m.m02 * v.z,
         m.m10 * v.x + m.m11 * v.y + m.m12 * v.z,
         m.m20 * v.x + m.m21 * v.y + m.m22 * v.z)
  }

  /** a - b, as `Vector3.sub`. */
  function Sub(a: Vec3, b: Vec3): Vec3
  {
    Vec3(a.x - b.x, a.y - b.y, a.z - b.z)
  }

  /** v times s, as `Vector3.multiplyScalar`. */
  function Scale(v: Vec3, s: real): Vec3
  {
    Vec3(v.x * s, v.y * s, v.z * s)
  }

  /** Equal factors give equal products. */
  lemma ProductEqual(x: real, y: real, a: real, b: real)
    requires x == y && a == b
    ensures x * a == y * b
  {
  }

  lemma DetTranspose(m: Mat3)
    ensures Det(Transpose(m)) == Det(m)
  {
  }

  /** The determinant of the matrix with rows (a, b, c), (d, e, f), (g, h, i). */
  function Det9(a: real, b: real, c: real, d: real, e: real, f: real, g: real, h: real, i: real): real
  {
    a * (e * i - f * h) - b * (d * i - f * g) + c * (d * h - e * g)
  }

  lemma Det9MulExpanded(a0: real, a1: real, a2: real, a3: real, a4: real, a5: real, a6: real, a7: real, a8: real,
                        b0: real, b1: real, b2: real, b3: real, b4: real, b5: real, b6: real, b7: real, b8: real)
    ensures Det9(a0 * b0 + a1 * b3 + a2 * b6, a0 * b1 + a1 * b4 + a2 * b7, a0 * b2 + a1 * b5 + a2 * b8,
                 a3 * b0 + a4 * b3 + a5 * b6, a3 * b1 + a4 * b4 + a5 * b7, a3 * b2 + a4 * b5 + a5 * b8,
                 a6 * b0 + a7 * b3 + a8 * b6, a6 * b1 + a7 * b4 + a8 * b7, a6 * b2 + a7 * b5 + a8 * b8)
         == Det9(a0, a1, a2, a3, a4, a5, a6, a7, a8) * Det9(b0, b1, b2, b3, b4, b5, b6, b7, b8)
  {
  }

  lemma Det9Mul(a0: real, a1: real, a2: real, a3: real, a4: real, a5: real, a6: real, a7: real, a8: real,
                b0: real, b1: real, b2: real, b3: real, b4: real, b5: real, b6: real, b7: real, b8: real)
    ensures Det9(Dot3(a0, a1, a2, b0, b3, b6), Dot3(a0, a1, a2, b1, b4, b7), Dot3(a0, a1, a2, b2, b5, b8),
                 Dot3(a3, a4, a5, b0, b3, b6), Dot3(a3, a4, a5, b1, b4, b7), Dot3(a3, a4, a5, b2, b5, b8),
                 Dot3(a6, a7, a8, b0, b3, b6), Dot3(a6, a7, a8, b1, b4, b7), Dot3(a6, a7, a8, b2, b5, b8))
         == Det9(a0, a1, a2, a3, a4, a5, a6, a7, a8) * Det9(b0, b1, b2, b3, b4, b5, b6, b7, b8)
  {
    Det9MulExpanded(a0, a1, a2, a3, a4, a5, a6, a7, a8, b0, b1, b2, b3, b4, b5, b6, b7, b8);
  }

  /** The determinant is multiplicative. */
  lemma DetMul(a: Mat3, b: Mat3)
    ensures Det(Mul(a, b)) == Det(a) * Det(b)
  {
    Det9Mul(a.m00, a.m01, a.m02, a.m10, a.m11, a.m12, a.m20, a.m21, a.m22,
            b.m00, b.m01, b.m02, b.m10, b.m11, b.m12, b.m20, b.m21, b.m22);
  }

  /** One entry of (a b) c against the same entry of a (b c): row
      (a0, a1, a2) of a, the rows of b, and column (c0, c1, c2) of c. */
  lemma Dot3Assoc(a0: real, a1: real, a2: real,
                  b00: real, b01: real, b02: real, b10: real, b11: real, b12: real,
                  b20: real, b21: real, b22: real, c0: real, c1: real, c2: real)
    ensures Dot3(Dot3(a0, a1, a2, b00, b10, b20), Dot3(a0, a1, a2, b01, b11, b21), Dot3(a0, a1, a2, b02, b12, b22),
                 c0, c1, c2)
         == Dot3(a0, a1, a2, Dot3(b00, b01, b02, c0, c1, c2), Dot3(b10, b11, b12, c0, c1, c2),
                 Dot3(b20, b21, b22, c0, c1, c2))
  {
  }

  lemma MulAssoc(a: Mat3, b: Mat3, c: Mat3)
    ensures Mul(Mul(a, b), c) == Mul(a, Mul(b, c))
  {
    Dot3Assoc(a.m00, a.m01, a.m02, b.m00, b.m01, b.m02, b.m10, b.m11, b.m12, b.m20, b.m21, b.m22, c.m00, c.m10, c.m20);
    Dot3Assoc(a.m00, a.m01, a.m02, b.m00, b.m01, b.m02, b.m10, b.m11, b.m12, b.m20, b.m21, b.m22, c.m01, c.m11, c.m21);
    Dot3Assoc(a.m00, a.m01, a.m02, b.m00, b.m01, b.m02, b.m10, b.m11, b.m12, b.m20, b.m21, b.m22, c.m02, c.m12, c.m22);
    Dot3Assoc(a.m10, a.m11, a.m12, b.m00, b.m01, b.m02, b.m10, b.m11, b.m12, b.m20, b.m21, b.m22, c.m00, c.m10, c.m20);
    Dot3Assoc(a.m10, a.m11, a.m12, b.m00, b.m01, b.m02, b.m10, b.m11, b.m12, b.m20, b.m21, b.m22, c.m01, c.m11, c.m21);
    Dot3Assoc(a.m10, a.m11, a.m12, b.m00, b.m01, b.m02, b.m10, b.m11, b.m12, b.m20, b.m21, b.m22, c.m02, c.m12, c.m22);
    Dot3Assoc(a.m20, a.m21, a.m22, b.m00, b.m01, b.m02, b.m10, b.m11, b.m12, b.m20, b.m21, b.m22, c.m00, c.m10, c.m20);
    Dot3Assoc(a.m20, a.m21, a.m22, b.m00, b.m01, b.m02, b.m10, b.m11, b.m12, b.m20, b.m21, b.m22, c.m01, c.m11, c.m21);
    Dot3Assoc(a.m20, a.m21, a.m22, b.m00, b.m01, b.m02, b.m10, b.m11, b.m12, b.m20, b.m21, b.m22, c.m02, c.m12, c.m22);
  }

  lemma TransposeMul(a: Mat3, b: Mat3)
    ensures Transpose(Mul(a, b)) == Mul(Transpose(b), Transpose(a))
  {
  }

  lemma MulIdentity(a: Mat3)
    ensures Mul(a, Identity) == a && Mul(Identity, a) == a
  {
  }

  /** m is orthogonal: its transpose is its inverse on both sides. */
  ghost predicate Orthogonal(m: Mat3)
  {
    Mul(m, Transpose(m)) == Identity && Mul(Transpose(m), m) == Identity
  }

  /** An orthogonal matrix has determinant 1 or -1. */
  lemma OrthogonalDet(m: Mat3)
    requires Orthogonal(m)
    ensures Det(m) * Det(m) == 1.0
  {
    DetMul(m, Transpose(m));
    DetTranspose(m);
  }

  /** The product of orthogonal matrices is orthogonal. */
  lemma OrthogonalMul(a: Mat3, b: Mat3)
    requires Orthogonal(a) && Orthogonal(b)
    ensures Orthogonal(Mul(a, b))
  {
    var p := Mul(a, b);
    TransposeMul(a, b);
    calc {
      Mul(p, Transpose(p));
      Mul(Mul(a, b), Mul(Transpose(b), Transpose(a)));
      { MulAssoc(a, b, Mul(Transpose(b), Transpose(a))); }
      Mul(a, Mul(b, Mul(Transpose(b), Transpose(a))));
      { MulAssoc(b, Transpose(b), Transpose(a)); }
      Mul(a, Mul(Identity, Transpose(a)));
      { MulIdentity(Transpose(a)); }
      Identity;
    }
    calc {
      Mul(Transpose(p), p);
      Mul(Mul(Transpose(b), Transpose(a)), Mul(a, b));
      { MulAssoc(Transpose(b), Transpose(a), Mul(a, b)); }
      Mul(Transpose(b), Mul(Transpose(a), Mul(a, b)));
      { MulAssoc(Transpose(a), a, b); }
      Mul(Transpose(b), Mul(Identity, b));
      { MulIdentity(b); }
      Identity;
    }
  }

  /** The transpose of an orthogonal matrix is orthogonal. */
  lemma OrthogonalTranspose(m: Mat3)
    requires Orthogonal(m)
    ensures Orthogonal(Transpose(m))
  {
    assert Transpose(Transpose(m)) == m;
  }
}
