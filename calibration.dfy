/** The scanner's calibration records and the transforms derived from them
    (server/src/calibration.rs). All records are immutable once loaded. */
module Calibration {
  import opened Geometry

  /** One laser fan-plane: its angle to the optical axis, in degrees, and
      its signed baseline, in length units. */
  datatype LaserCalib = LaserCalib(angle: real, baseline: real)

  /** A camera mount pose: XYZ Euler angles in degrees and a translation. */
  datatype RefSysTransform = RefSysTransform(rotation: Vec3, translation: Vec3)

  datatype CameraIntrinsics = CameraIntrinsics(focalLength: real, height: real, width: real, metersPerPx: real)

  datatype CameraCalib = CameraCalib(intrinsics: CameraIntrinsics, extrinsics: RefSysTransform, cam2ImgPlaneRotation: Vec3)

  datatype Calibration = Calibration(camera: CameraCalib, leftLaser: LaserCalib, rightLaser: LaserCalib)

  /** The calibrations the model accepts: a pixel has a non-zero size (the
      source divides by it with no check). */
  predicate ValidCalibration(calib: Calibration) {
    calib.camera.intrinsics.metersPerPx != 0.0
  }

  /** `LaserCalib::angle_rad`: the laser angle in radians. */
  function AngleRad(laser: LaserCalib): (r: real)
    ensures r * 180.0 == laser.angle * Pi
    ensures laser.angle == 0.0 ==> r == 0.0
  {
    ToRadians(laser.angle)
  }

  /** `CameraIntrinsics::focal_length_px`: the focal length in pixels. */
  function FocalLengthPx(intrinsics: CameraIntrinsics): (r: real)
    requires intrinsics.metersPerPx != 0.0
    ensures r * intrinsics.metersPerPx == intrinsics.focalLength
  {
    intrinsics.focalLength / intrinsics.metersPerPx
  }

  function RadiansOf(degrees: Vec3): (r: Vec3)
    ensures degrees == Zero ==> r == Zero
  {
    Vec3(ToRadians(degrees.x), ToRadians(degrees.y), ToRadians(degrees.z))
  }

  /** The rotation `Quat::from_euler(EulerRot::XYZ, a, b, c)` stands for,
      with the angles given in degrees. */
  function EulerXYZ(trig: Trig, degrees: Vec3): Mat3 {
    trig.eulerXYZ(RadiansOf(degrees))
  }

  /** `RefSysTransform::as_affine`: rotate by the Euler angles, then
      translate. */
  function AsAffine(pose: RefSysTransform, trig: Trig): (a: Affine)
    ensures a.t == pose.translation
    ensures Transform(a, Zero) == pose.translation
  {
    MatVecZero(EulerXYZ(trig, pose.rotation));
    Affine(EulerXYZ(trig, pose.rotation), pose.translation)
  }

  /** The pose is a rigid motion: its linear part is a rotation, so it
      keeps the distance between any two points. */
  lemma AsAffineRigid(pose: RefSysTransform, trig: Trig, p: Vec3, q: Vec3)
    requires Lawful(trig)
    ensures Orthogonal(AsAffine(pose, trig).m)
    ensures var d := Sub(Transform(AsAffine(pose, trig), p), Transform(AsAffine(pose, trig), q));
            Dot(d, d) == Dot(Sub(p, q), Sub(p, q))
  {
    EulerOrthogonal(trig, RadiansOf(pose.rotation));
    OrthogonalKeepsLength(EulerXYZ(trig, pose.rotation), Sub(p, q));
    TransformSub(AsAffine(pose, trig), p, q);
  }

  /** With all Euler angles zero, `as_affine` is a pure translation. */
  lemma AsAffineZeroRotation(pose: RefSysTransform, trig: Trig, p: Vec3)
    requires ExactAtZero(trig)
    requires pose.rotation == Zero
    ensures Transform(AsAffine(pose, trig), p) == Add(p, pose.translation)
  {
    MatVecIdentity(p);
  }

  /** The pose of the image plane in the camera frame: rotate by the
      image-plane tilt, then translate by (0, 0, -focal_length). */
  function CamToImgPlane(camera: CameraCalib, trig: Trig): Affine {
    Affine(EulerXYZ(trig, camera.cam2ImgPlaneRotation), Vec3(0.0, 0.0, -camera.intrinsics.focalLength))
  }

  /** `CameraCalib::img_plane_2_cam`: the inverse of `CamToImgPlane`,
      which for a rotation is the transpose. */
  function ImgPlane2Cam(camera: CameraCalib, trig: Trig): Affine {
    InverseOrthogonal(CamToImgPlane(camera, trig))
  }

  /** `img_plane_2_cam` undoes `CamToImgPlane` and is undone by it. */
  lemma ImgPlane2CamInverse(camera: CameraCalib, trig: Trig, p: Vec3)
    requires Lawful(trig)
    ensures Transform(ImgPlane2Cam(camera, trig), Transform(CamToImgPlane(camera, trig), p)) == p
    ensures Transform(CamToImgPlane(camera, trig), Transform(ImgPlane2Cam(camera, trig), p)) == p
  {
    EulerOrthogonal(trig, RadiansOf(camera.cam2ImgPlaneRotation));
    InverseOrthogonalCancels(CamToImgPlane(camera, trig), p);
  }

  /** With no image-plane tilt, `img_plane_2_cam` moves a point forward by
      the focal length in length units (not in pixels). */
  lemma ImgPlane2CamZeroRotation(camera: CameraCalib, trig: Trig, p: Vec3)
    requires ExactAtZero(trig)
    requires camera.cam2ImgPlaneRotation == Zero
    ensures Transform(ImgPlane2Cam(camera, trig), p) == Add(p, Vec3(0.0, 0.0, camera.intrinsics.focalLength))
  {
    InverseOfTranslation(CamToImgPlane(camera, trig), camera.intrinsics.focalLength, p);
  }

  /** The map from image-plane coordinates (in length units) to the world
      frame: `extrinsics.as_affine() * img_plane_2_cam()`. */
  function ImgPlane2World(camera: CameraCalib, trig: Trig): Affine {
    Compose(AsAffine(camera.extrinsics, trig), ImgPlane2Cam(camera, trig))
  }

  /** It first takes a point to the camera frame, then places the camera
      in the world. */
  lemma ImgPlane2WorldSteps(camera: CameraCalib, trig: Trig, p: Vec3)
    ensures Transform(ImgPlane2World(camera, trig), p)
         == Transform(AsAffine(camera.extrinsics, trig), Transform(ImgPlane2Cam(camera, trig), p))
  {
    ComposeApplies(AsAffine(camera.extrinsics, trig), ImgPlane2Cam(camera, trig), p);
  }

  /** The image-plane-to-world map is a rigid motion, so it can be undone
      by its algebraic inverse. */
  lemma ImgPlane2WorldRigid(camera: CameraCalib, trig: Trig)
    requires Lawful(trig)
    ensures Orthogonal(ImgPlane2World(camera, trig).m)
  {
    var r := EulerXYZ(trig, camera.extrinsics.rotation);
    var c := EulerXYZ(trig, camera.cam2ImgPlaneRotation);
    EulerOrthogonal(trig, RadiansOf(camera.extrinsics.rotation));
    EulerOrthogonal(trig, RadiansOf(camera.cam2ImgPlaneRotation));
    TransposeOrthogonal(c);
    OrthogonalMul(r, Transpose(c));
  }

  // The laws assumed of the opaque Euler rotation (see `Lawful`) hold of
  // the matrix it stands for, the product Rx Ry Rz of elementary rotations
  // built from the cosine c and sine s of each angle.

  function RotX(c: real, s: real): Mat3 {
    Mat3(Vec3(1.0, 0.0, 0.0), Vec3(0.0, c, -s), Vec3(0.0, s, c))
  }

  function RotY(c: real, s: real): Mat3 {
    Mat3(Vec3(c, 0.0, s), Vec3(0.0, 1.0, 0.0), Vec3(-s, 0.0, c))
  }

  function RotZ(c: real, s: real): Mat3 {
    Mat3(Vec3(c, -s, 0.0), Vec3(s, c, 0.0), Vec3(0.0, 0.0, 1.0))
  }

  function EulerMatrix(cx: real, sx: real, cy: real, sy: real, cz: real, sz: real): Mat3 {
    MatMul(MatMul(RotX(cx, sx), RotY(cy, sy)), RotZ(cz, sz))
  }

  lemma RotXOrthogonal(c: real, s: real)
    requires c * c + s * s == 1.0
    ensures Orthogonal(RotX(c, s))
  {
    var m := RotX(c, s);
    assert Transpose(m) == RotX(c, -s);
    assert MatMul(Transpose(m), m) == Identity;
    assert MatMul(m, Transpose(m)) == Identity;
  }

  lemma RotYOrthogonal(c: real, s: real)
    requires c * c + s * s == 1.0
    ensures Orthogonal(RotY(c, s))
  {
    var m := RotY(c, s);
    assert Transpose(m) == RotY(c, -s);
    assert MatMul(Transpose(m), m) == Identity;
    assert MatMul(m, Transpose(m)) == Identity;
  }

  lemma RotZOrthogonal(c: real, s: real)
    requires c * c + s * s == 1.0
    ensures Orthogonal(RotZ(c, s))
  {
    var m := RotZ(c, s);
    assert Transpose(m) == RotZ(c, -s);
    assert MatMul(Transpose(m), m) == Identity;
    assert MatMul(m, Transpose(m)) == Identity;
  }

  /** When each (cos, sin) pair lies on the unit circle, the Euler product
      is orthogonal: `RotationsOrthogonal` holds of it. */
  lemma EulerMatrixOrthogonal(cx: real, sx: real, cy: real, sy: real, cz: real, sz: real)
    requires cx * cx + sx * sx == 1.0 && cy * cy + sy * sy == 1.0 && cz * cz + sz * sz == 1.0
    ensures Orthogonal(EulerMatrix(cx, sx, cy, sy, cz, sz))
  {
    RotXOrthogonal(cx, sx);
    RotYOrthogonal(cy, sy);
    RotZOrthogonal(cz, sz);
    OrthogonalMul(RotX(cx, sx), RotY(cy, sy));
    OrthogonalMul(MatMul(RotX(cx, sx), RotY(cy, sy)), RotZ(cz, sz));
  }

  /** All three angles zero (cos 1, sin 0) give the identity: the last law
      of `ExactAtZero` holds of the Euler product. */
  lemma EulerMatrixAtZero()
    ensures EulerMatrix(1.0, 0.0, 1.0, 0.0, 1.0, 0.0) == Identity
  {
    assert RotX(1.0, 0.0) == Identity;
    assert RotY(1.0, 0.0) == Identity;
    assert RotZ(1.0, 0.0) == Identity;
    MatMulIdentityLeft(Identity);
  }
  /** The opaque rotation meets the law `RotationsOrthogonal` asks of it
      at every angle where it is the product Rx Ry Rz built from the
      opaque cosine and sine, and those lie on the unit circle. */
  lemma EulerLawAt(trig: Trig, v: Vec3)
    requires trig.cos(v.x) * trig.cos(v.x) + trig.sin(v.x) * trig.sin(v.x) == 1.0
    requires trig.cos(v.y) * trig.cos(v.y) + trig.sin(v.y) * trig.sin(v.y) == 1.0
    requires trig.cos(v.z) * trig.cos(v.z) + trig.sin(v.z) * trig.sin(v.z) == 1.0
    requires trig.eulerXYZ(v) == EulerMatrix(trig.cos(v.x), trig.sin(v.x), trig.cos(v.y), trig.sin(v.y),
                                             trig.cos(v.z), trig.sin(v.z))
    ensures Orthogonal(Rotation(trig, v))
  {
    EulerMatrixOrthogonal(trig.cos(v.x), trig.sin(v.x), trig.cos(v.y), trig.sin(v.y), trig.cos(v.z), trig.sin(v.z));
  }

  /** Likewise for the last law of `ExactAtZero`: with cos 0 = 1 and
      sin 0 = 0, the product at zero angles is the identity. */
  lemma EulerLawAtZero(trig: Trig)
    requires trig.cos(0.0) == 1.0 && trig.sin(0.0) == 0.0
    requires trig.eulerXYZ(Zero) == EulerMatrix(trig.cos(0.0), trig.sin(0.0), trig.cos(0.0), trig.sin(0.0),
                                                trig.cos(0.0), trig.sin(0.0))
    ensures trig.eulerXYZ(Zero) == Identity
  {
    EulerMatrixAtZero();
  }
}
