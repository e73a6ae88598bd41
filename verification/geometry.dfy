/**
  Rigid 3D transforms as the relocalization handler uses them: a rotation
  basis (3x3 matrix, stored by rows) and a translation origin, composed and
  inverted the way tf2's Transform does it. Coordinates are exact reals; the
  conversion between quaternions and bases is not part of this model, so a
  pose enters already as a basis plus an origin.
*/
module Geometry {

  datatype Vec3 = Vec3(x: real, y: real, z: real)

  /** A 3x3 matrix given by its three rows. */
  datatype Mat3 = Mat3(r0: Vec3, r1: Vec3, r2: Vec3)

  /** A rigid transform p |-> basis * p + origin. */
  datatype Pose = Pose(basis: Mat3, origin: Vec3)

  function Add(u: Vec3, v: Vec3): Vec3 {
    Vec3(u.x + v.x, u.y + v.y, u.z + v.z)
  }

  function Sub(u: Vec3, v: Vec3): Vec3 {
    Vec3(u.x - v.x, u.y - v.y, u.z - v.z)
  }

  function Neg(u: Vec3): Vec3 {
    Vec3(-u.x, -u.y, -u.z)
  }

  function Dot(u: Vec3, v: Vec3): real {
    u.x * v.x + u.y * v.y + u.z * v.z
  }

  function Transpose(m: Mat3): Mat3 {
    Mat3(Vec3(m.r0.x, m.r1.x, m.r2.x),
         Vec3(m.r0.y, m.r1.y, m.r2.y),
         Vec3(m.r0.z, m.r1.z, m.r2.z))
  }

  /** Matrix times column vector: one dot product per row. */
  function MatVec(m: Mat3, v: Vec3): Vec3 {
    Vec3(Dot(m.r0, v), Dot(m.r1, v), Dot(m.r2, v))
  }

  /** Matrix product: row i of a*b is (row i of a) times b, i.e. b^T times that row. */
  function MatMul(a: Mat3, b: Mat3): Mat3 {
    var bt := Transpose(b);
    Mat3(MatVec(bt, a.r0), MatVec(bt, a.r1), MatVec(bt, a.r2))
  }

  const IdentityMat: Mat3 := Mat3(Vec3(1.0, 0.0, 0.0), Vec3(0.0, 1.0, 0.0), Vec3(0.0, 0.0, 1.0))

  const IdentityPose: Pose := Pose(IdentityMat, Vec3(0.0, 0.0, 0.0))

  /** A rotation basis: its transpose is its two-sided inverse. */
  ghost predicate Orthonormal(m: Mat3) {
    MatMul(Transpose(m), m) == IdentityMat && MatMul(m, Transpose(m)) == IdentityMat
  }

  /** Applies a transform to a point, as tf2's Transform::operator() does. */
  function Apply(a: Pose, p: Vec3): Vec3 {
    Add(MatVec(a.basis, p), a.origin)
  }

  /** tf2's Transform product a * b: first b, then a. */
  function Compose(a: Pose, b: Pose): Pose {
    Pose(MatMul(a.basis, b.basis), Apply(a, b.origin))
  }

  /** tf2's Transform::inverse: the transposed basis, and the negated origin rotated by it. */
  function Inverse(a: Pose): Pose {
    var inv := Transpose(a.basis);
    Pose(inv, MatVec(inv, Neg(a.origin)))
  }

  /** The pose b expressed in the frame of the pose a: inverse(a) * b. */
  function Relative(a: Pose, b: Pose): Pose {
    Compose(Inverse(a), b)
  }

  // ---------------------------------------------------------------------
  // Linear algebra facts

  lemma MatVecAdd(m: Mat3, u: Vec3, v: Vec3)
    ensures MatVec(m, Add(u, v)) == Add(MatVec(m, u), MatVec(m, v))
  {
  }

  lemma MatVecIdentity(u: Vec3)
    ensures MatVec(IdentityMat, u) == u
  {
  }

  lemma MatVecMul(a: Mat3, b: Mat3, v: Vec3)
    ensures MatVec(MatMul(a, b), v) == MatVec(a, MatVec(b, v))
  {
  }

  lemma MatMulAssoc(a: Mat3, b: Mat3, c: Mat3)
    ensures MatMul(MatMul(a, b), c) == MatMul(a, MatMul(b, c))
  {
    TransposeMul(b, c);
    MatVecMul(Transpose(c), Transpose(b), a.r0);
    MatVecMul(Transpose(c), Transpose(b), a.r1);
    MatVecMul(Transpose(c), Transpose(b), a.r2);
  }

  lemma TransposeMul(a: Mat3, b: Mat3)
    ensures Transpose(MatMul(a, b)) == MatMul(Transpose(b), Transpose(a))
  {
  }

  lemma MatMulIdentity(m: Mat3)
    ensures MatMul(IdentityMat, m) == m && MatMul(m, IdentityMat) == m
  {
  }

  /** a * (inverse(a) * q) == q for a rotation basis. */
  lemma ApplyInverseRight(a: Pose, q: Vec3)
    requires Orthonormal(a.basis)
    ensures Apply(a, Apply(Inverse(a), q)) == q
  {
    var inv := Transpose(a.basis);
    MatVecAdd(a.basis, MatVec(inv, q), MatVec(inv, Neg(a.origin)));
    MatVecMul(a.basis, inv, q);
    MatVecMul(a.basis, inv, Neg(a.origin));
    MatVecIdentity(q);
    MatVecIdentity(Neg(a.origin));
  }

  lemma MatVecSub(m: Mat3, u: Vec3, v: Vec3)
    ensures MatVec(m, Sub(u, v)) == Sub(MatVec(m, u), MatVec(m, v))
  {
  }

  // ---------------------------------------------------------------------
  // Properties of composition, inverse and relative poses

  /** Composition applies b first and a second. */
  lemma ComposeApplies(a: Pose, b: Pose, p: Vec3)
    ensures Apply(Compose(a, b), p) == Apply(a, Apply(b, p))
  {
  }

  /** For a rotation basis the inverse undoes the transform. */
  lemma InverseUndoes(a: Pose, p: Vec3)
    requires Orthonormal(a.basis)
    ensures Apply(Inverse(a), Apply(a, p)) == p
  {
  }

  /** inverse(a) * b rotates the offset between the two origins into a's frame. */
  lemma RelativeClosedForm(a: Pose, b: Pose)
    ensures Relative(a, b).basis == MatMul(Transpose(a.basis), b.basis)
    ensures Relative(a, b).origin == MatVec(Transpose(a.basis), Sub(b.origin, a.origin))
  {
  }

  /** Against the identity frame the relative pose is the pose itself. */
  lemma RelativeToIdentity(b: Pose)
    ensures Relative(IdentityPose, b) == b
  {
    assert Transpose(IdentityMat) == IdentityMat;
    RelativeClosedForm(IdentityPose, b);
    MatMulIdentity(b.basis);
    assert Sub(b.origin, IdentityPose.origin) == b.origin;
    MatVecIdentity(b.origin);
  }

  /** Re-anchoring the relative pose at its reference gives back the global pose. */
  lemma ReanchorRoundTrip(a: Pose, b: Pose)
    requires Orthonormal(a.basis)
    ensures Compose(a, Relative(a, b)) == b
  {
    var inv := Transpose(a.basis);
    RelativeClosedForm(a, b);
    MatMulAssoc(a.basis, inv, b.basis);
    MatMulIdentity(b.basis);
    MatVecMul(a.basis, inv, Sub(b.origin, a.origin));
    MatVecIdentity(Sub(b.origin, a.origin));
  }

  /**
    The relative pose does not depend on where the pair sits globally: moving
    both the reference and the pose by the same rigid transform t leaves
    inverse(reference) * pose unchanged.
  */
  lemma FrameInvariance(t: Pose, a: Pose, b: Pose)
    requires Orthonormal(t.basis)
    ensures Relative(Compose(t, a), Compose(t, b)) == Relative(a, b)
  {
    var s := t.basis;
    var ta := Compose(t, a);
    var tb := Compose(t, b);
    RelativeClosedForm(ta, tb);
    RelativeClosedForm(a, b);
    // basis: (s a)^T (s b) == a^T (s^T s) b == a^T b
    TransposeMul(s, a.basis);
    MatMulAssoc(Transpose(a.basis), Transpose(s), MatMul(s, b.basis));
    MatMulAssoc(Transpose(s), s, b.basis);
    MatMulIdentity(b.basis);
    // origin: (s a)^T (s (bo - ao)) == a^T (bo - ao)
    MatVecSub(s, b.origin, a.origin);
    var d := Sub(b.origin, a.origin);
    assert Sub(tb.origin, ta.origin) == MatVec(s, d);
    MatVecMul(Transpose(a.basis), Transpose(s), MatVec(s, d));
    MatVecMul(Transpose(s), s, d);
    MatVecIdentity(d);
  }
}
