/** Vectors, 3x3 matrices and affine maps over the reals: the part of the
    `glam` crate that the scanner uses, idealised (no f32 rounding).
    Trigonometry is not computed: `Trig` carries cos, sin, tan and the
    Euler-angle rotation as opaque functions, and `Lawful` states the few
    identities the model relies on. */
module Geometry {

  datatype Vec2 = Vec2(x: real, y: real)

  datatype Vec3 = Vec3(x: real, y: real, z: real)

  /** A point as the f32 pipeline produces it: either finite coordinates,
      or a vector with an infinite or NaN component (what an unguarded
      division by zero yields; such a vector stays non-finite through
      every later scaling and affine map). */
  datatype Point3 = Finite(v: Vec3) | NonFinite

  const Zero := Vec3(0.0, 0.0, 0.0)

  function Add(a: Vec3, b: Vec3): Vec3 {
    Vec3(a.x + b.x, a.y + b.y, a.z + b.z)
  }

  function Sub(a: Vec3, b: Vec3): Vec3 {
    Vec3(a.x - b.x, a.y - b.y, a.z - b.z)
  }

  function Neg(a: Vec3): Vec3 {
    Vec3(-a.x, -a.y, -a.z)
  }

  function Scale(s: real, a: Vec3): Vec3 {
    Vec3(s * a.x, s * a.y, s * a.z)
  }

  function Cross(a: Vec3, b: Vec3): Vec3 {
    Vec3(a.y * b.z - a.z * b.y, a.z * b.x - a.x * b.z, a.x * b.y - a.y * b.x)
  }

  /** glam's `a.lerp(b, s)`, that is a + (b - a) * s. */
  function Lerp(a: Vec3, b: Vec3, s: real): (r: Vec3)
    ensures s == 0.0 ==> r == a
    ensures s == 1.0 ==> r == b
  {
    Add(a, Scale(s, Sub(b, a)))
  }

  /** A matrix given by its three rows. */
  datatype Mat3 = Mat3(r0: Vec3, r1: Vec3, r2: Vec3)

  const Identity := Mat3(Vec3(1.0, 0.0, 0.0), Vec3(0.0, 1.0, 0.0), Vec3(0.0, 0.0, 1.0))

  function Dot(a: Vec3, b: Vec3): real {
    a.x * b.x + a.y * b.y + a.z * b.z
  }

  function MatVec(m: Mat3, p: Vec3): Vec3 {
    Vec3(Dot(m.r0, p), Dot(m.r1, p), Dot(m.r2, p))
  }

  function Col0(m: Mat3): Vec3 { Vec3(m.r0.x, m.r1.x, m.r2.x) }
  function Col1(m: Mat3): Vec3 { Vec3(m.r0.y, m.r1.y, m.r2.y) }
  function Col2(m: Mat3): Vec3 { Vec3(m.r0.z, m.r1.z, m.r2.z) }

  function Transpose(m: Mat3): Mat3 {
    Mat3(Col0(m), Col1(m), Col2(m))
  }

  function MatMul(a: Mat3, b: Mat3): Mat3 {
    Mat3(Vec3(Dot(a.r0, Col0(b)), Dot(a.r0, Col1(b)), Dot(a.r0, Col2(b))),
         Vec3(Dot(a.r1, Col0(b)), Dot(a.r1, Col1(b)), Dot(a.r1, Col2(b))),
         Vec3(Dot(a.r2, Col0(b)), Dot(a.r2, Col1(b)), Dot(a.r2, Col2(b))))
  }

  /** A matrix is orthogonal (a rotation, up to reflection) when its
      transpose is its inverse on both sides. */
  predicate Orthogonal(m: Mat3) {
    MatMul(Transpose(m), m) == Identity && MatMul(m, Transpose(m)) == Identity
  }

  lemma MatVecIdentity(p: Vec3)
    ensures MatVec(Identity, p) == p
  {
  }

  lemma MatVecAdd(m: Mat3, a: Vec3, b: Vec3)
    ensures MatVec(m, Add(a, b)) == Add(MatVec(m, a), MatVec(m, b))
  {
  }

  lemma MatVecScale(m: Mat3, s: real, a: Vec3)
    ensures MatVec(m, Scale(s, a)) == Scale(s, MatVec(m, a))
  {
    assert Dot(m.r0, Scale(s, a)) == s * Dot(m.r0, a);
    assert Dot(m.r1, Scale(s, a)) == s * Dot(m.r1, a);
    assert Dot(m.r2, Scale(s, a)) == s * Dot(m.r2, a);
  }

  /** Applying a product is applying its factors in turn. */
  lemma MatVecMul(a: Mat3, b: Mat3, p: Vec3)
    ensures MatVec(MatMul(a, b), p) == MatVec(a, MatVec(b, p))
  {
    DotMulRow(a.r0, b, p);
    DotMulRow(a.r1, b, p);
    DotMulRow(a.r2, b, p);
  }

  lemma DotMulRow(row: Vec3, b: Mat3, p: Vec3)
    ensures Dot(Vec3(Dot(row, Col0(b)), Dot(row, Col1(b)), Dot(row, Col2(b))), p)
         == Dot(row, MatVec(b, p))
  {
  }

  lemma MatMulAssoc(a: Mat3, b: Mat3, c: Mat3)
    ensures MatMul(MatMul(a, b), c) == MatMul(a, MatMul(b, c))
  {
    forall p ensures MatVec(MatMul(MatMul(a, b), c), p) == MatVec(MatMul(a, MatMul(b, c)), p) {
      MatVecMul(MatMul(a, b), c, p);
      MatVecMul(a, b, MatVec(c, p));
      MatVecMul(a, MatMul(b, c), p);
      MatVecMul(b, c, p);
    }
    MatEqualByColumns(MatMul(MatMul(a, b), c), MatMul(a, MatMul(b, c)));
  }

  /** Two matrices that agree on the unit vectors are equal. */
  lemma MatEqualByColumns(m: Mat3, n: Mat3)
    requires MatVec(m, Vec3(1.0, 0.0, 0.0)) == MatVec(n, Vec3(1.0, 0.0, 0.0))
    requires MatVec(m, Vec3(0.0, 1.0, 0.0)) == MatVec(n, Vec3(0.0, 1.0, 0.0))
    requires MatVec(m, Vec3(0.0, 0.0, 1.0)) == MatVec(n, Vec3(0.0, 0.0, 1.0))
    ensures m == n
  {
  }

  lemma TransposeMul(a: Mat3, b: Mat3)
    ensures Transpose(MatMul(a, b)) == MatMul(Transpose(b), Transpose(a))
  {
  }

  /** Orthogonal matrices are closed under products. */
  lemma OrthogonalMul(a: Mat3, b: Mat3)
    requires Orthogonal(a) && Orthogonal(b)
    ensures Orthogonal(MatMul(a, b))
  {
    var at, bt := Transpose(a), Transpose(b);
    TransposeMul(a, b);
    calc {
      MatMul(MatMul(bt, at), MatMul(a, b));
      { MatMulAssoc(bt, at, MatMul(a, b)); }
      MatMul(bt, MatMul(at, MatMul(a, b)));
      { MatMulAssoc(at, a, b); }
      MatMul(bt, MatMul(Identity, b));
      { MatMulIdentityLeft(b); }
      Identity;
    }
    calc {
      MatMul(MatMul(a, b), MatMul(bt, at));
      { MatMulAssoc(a, b, MatMul(bt, at)); }
      MatMul(a, MatMul(b, MatMul(bt, at)));
      { MatMulAssoc(b, bt, at); }
      MatMul(a, MatMul(Identity, at));
      { MatMulIdentityLeft(at); }
      Identity;
    }
  }

  /** The transpose of an orthogonal matrix is orthogonal. */
  lemma TransposeOrthogonal(m: Mat3)
    requires Orthogonal(m)
    ensures Orthogonal(Transpose(m))
  {
    assert Transpose(Transpose(m)) == m;
  }

  lemma MatMulIdentityLeft(m: Mat3)
    ensures MatMul(Identity, m) == m
  {
  }

  lemma MatVecZero(m: Mat3)
    ensures MatVec(m, Zero) == Zero
  {
  }

  /** Moving a matrix across a dot product transposes it. */
  lemma DotTranspose(m: Mat3, a: Vec3, b: Vec3)
    ensures Dot(MatVec(m, a), b) == Dot(a, MatVec(Transpose(m), b))
  {
  }

  /** An orthogonal matrix keeps the length of every vector. */
  lemma OrthogonalKeepsLength(m: Mat3, v: Vec3)
    requires Orthogonal(m)
    ensures Dot(MatVec(m, v), MatVec(m, v)) == Dot(v, v)
  {
    DotTranspose(m, v, MatVec(m, v));
    MatVecMul(Transpose(m), m, v);
    MatVecIdentity(v);
  }

  /** Scaling by s and then by 1/s gives the vector back. */
  lemma ScaleInverse(s: real, v: Vec3)
    requires s != 0.0
    ensures Scale(1.0 / s, Scale(s, v)) == v
  {
    assert (1.0 / s) * s == 1.0;
    assert (1.0 / s) * (s * v.x) == ((1.0 / s) * s) * v.x;
    assert (1.0 / s) * (s * v.y) == ((1.0 / s) * s) * v.y;
    assert (1.0 / s) * (s * v.z) == ((1.0 / s) * s) * v.z;
  }

  /** An affine map p |-> m p + t, as glam's `Affine3A`. */
  datatype Affine = Affine(m: Mat3, t: Vec3)

  function Transform(a: Affine, p: Vec3): Vec3 {
    Add(MatVec(a.m, p), a.t)
  }

  /** The difference of two transformed points is the transformed
      difference: the translation cancels. */
  lemma TransformSub(a: Affine, p: Vec3, q: Vec3)
    ensures Sub(Transform(a, p), Transform(a, q)) == MatVec(a.m, Sub(p, q))
  {
  }

  /** glam's `a * b`: apply b first, then a. */
  function Compose(a: Affine, b: Affine): Affine {
    Affine(MatMul(a.m, b.m), Add(MatVec(a.m, b.t), a.t))
  }

  /** Applying a composition applies b, then a. */
  lemma ComposeApplies(a: Affine, b: Affine, p: Vec3)
    ensures Transform(Compose(a, b), p) == Transform(a, Transform(b, p))
  {
    MatVecMul(a.m, b.m, p);
    MatVecAdd(a.m, MatVec(b.m, p), b.t);
  }

  /** The algebraic inverse of an affine map whose linear part is
      orthogonal: p |-> m^T (p - t). */
  function InverseOrthogonal(a: Affine): Affine {
    var mt := Transpose(a.m);
    Affine(mt, Neg(MatVec(mt, a.t)))
  }

  lemma InverseOrthogonalCancels(a: Affine, p: Vec3)
    requires Orthogonal(a.m)
    ensures Transform(InverseOrthogonal(a), Transform(a, p)) == p
    ensures Transform(a, Transform(InverseOrthogonal(a), p)) == p
  {
    var mt := Transpose(a.m);
    MatVecAdd(mt, MatVec(a.m, p), a.t);
    MatVecMul(mt, a.m, p);
    MatVecIdentity(p);
    MatVecAdd(a.m, MatVec(mt, p), Neg(MatVec(mt, a.t)));
    MatVecMul(a.m, mt, p);
    MatVecScale(a.m, -1.0, MatVec(mt, a.t));
    assert Neg(MatVec(mt, a.t)) == Scale(-1.0, MatVec(mt, a.t));
    MatVecMul(a.m, mt, a.t);
    MatVecIdentity(a.t);
  }

  /** Scaling by s and applying a rigid map is undone by the inverse map
      followed by scaling by 1/s. */
  lemma UndoScaledTransform(a: Affine, s: real, q: Vec3)
    requires Orthogonal(a.m)
    requires s != 0.0
    ensures Scale(1.0 / s, Transform(InverseOrthogonal(a), Transform(a, Scale(s, q)))) == q
  {
    InverseOrthogonalCancels(a, Scale(s, q));
    ScaleInverse(s, q);
  }

  /** The inverse of the translation by (0, 0, -f) is the translation by
      (0, 0, f). */
  lemma InverseOfTranslation(a: Affine, f: real, p: Vec3)
    requires a.m == Identity && a.t == Vec3(0.0, 0.0, -f)
    ensures Transform(InverseOrthogonal(a), p) == Add(p, Vec3(0.0, 0.0, f))
  {
    assert Transpose(Identity) == Identity;
    MatVecIdentity(p);
    MatVecIdentity(a.t);
  }

  /** Transforming a non-finite point leaves it non-finite. */
  function TransformPoint(a: Affine, q: Point3): (r: Point3)
    ensures r.NonFinite? <==> q.NonFinite?
    ensures q.Finite? ==> r.v == Transform(a, q.v)
  {
    match q
    case Finite(v) => Finite(Transform(a, v))
    case NonFinite => NonFinite
  }

  function ScalePoint(s: real, q: Point3): (r: Point3)
    ensures r.NonFinite? <==> q.NonFinite?
    ensures q.Finite? ==> r.v == Scale(s, q.v)
  {
    match q
    case Finite(v) => Finite(Scale(s, v))
    case NonFinite => NonFinite
  }

  /** The floating-point functions the scanner calls, left opaque: cos,
      sin and tan of an angle in radians, and the rotation matrix that
      `Quat::from_euler(EulerRot::XYZ, x, y, z)` stands for, given the three
      angles in radians. */
  datatype Trig = Trig(cos: real -> real, sin: real -> real, tan: real -> real, eulerXYZ: Vec3 -> Mat3)

  /** The identities of these functions that the model relies on. */
  ghost predicate Lawful(trig: Trig) {
    ExactAtZero(trig) && RotationsOrthogonal(trig)
  }

  predicate ExactAtZero(trig: Trig) {
    && trig.cos(0.0) == 1.0
    && trig.sin(0.0) == 0.0
    && trig.tan(0.0) == 0.0
    && trig.eulerXYZ(Zero) == Identity
  }

  /** Every Euler-angle rotation is orthogonal. The quantifier fires only
      on `Rotation` terms, which `EulerOrthogonal` introduces on demand. */
  ghost predicate RotationsOrthogonal(trig: Trig) {
    forall v :: Orthogonal(Rotation(trig, v))
  }

  ghost function Rotation(trig: Trig, v: Vec3): Mat3 {
    trig.eulerXYZ(v)
  }

  lemma EulerOrthogonal(trig: Trig, v: Vec3)
    requires RotationsOrthogonal(trig)
    ensures Orthogonal(trig.eulerXYZ(v))
  {
    assert Orthogonal(Rotation(trig, v));
  }

  /** pi, as an exact real; the properties proved about it hold for any
      positive value. */
  const Pi: real := 3.14159265358979323846

  /** f32::to_radians. */
  function ToRadians(degrees: real): (r: real)
    ensures degrees == 0.0 ==> r == 0.0
    ensures degrees == 180.0 ==> r == Pi
    ensures degrees > 0.0 <==> r > 0.0
  {
    degrees * (Pi / 180.0)
  }

  /** The smallest integer not below r (f32::ceil). */
  function Ceil(r: real): (n: int)
    ensures n as real >= r
    ensures (n - 1) as real < r
  {
    -((-r).Floor)
  }
}
