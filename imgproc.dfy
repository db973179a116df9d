/** Laser-line detection and triangulation (server/src/imgproc.rs): find
    the bright laser stripe in each row of a grayscale frame, lift the
    stripe points to the image plane, intersect each camera ray with the
    plane of the laser that lit it, and move the result to world
    coordinates. */
module ImgProc {
  import opened Geometry
  import opened Calibration
  import ServerMotor

  newtype Byte = x: int | 0 <= x < 256

  /** LOW_THRESHOLD: a pixel is part of the laser stripe only when it is
      strictly brighter than this. */
  const LowThreshold: Byte := 30

  predicate Bright(p: Byte) {
    p > LowThreshold
  }

  /** An 8-bit grayscale frame: a sequence of rows of `width` pixels. */
  datatype GrayImage = GrayImage(width: nat, rows: seq<seq<Byte>>)

  function Height(image: GrayImage): nat {
    |image.rows|
  }

  /** Every row holds exactly `width` pixels, as an `image::GrayImage`
      buffer always does. */
  predicate WellFormed(image: GrayImage) {
    forall r :: r in image.rows ==> |r| == image.width
  }

  // ---------------------------------------------------------------------
  // Reference definition of what `detect_laser_points` finds in a row.

  /** The first column of the maximal bright run that ends at column j
      (j itself when row[j-1] is dark). */
  function RunStart(row: seq<Byte>, j: nat): (r: nat)
    requires j < |row|
    ensures r <= j
    ensures forall i :: r <= i < j ==> Bright(row[i])
    ensures r == 0 || !Bright(row[r - 1])
  {
    if j > 0 && Bright(row[j - 1]) then RunStart(row, j - 1) else j
  }

  /** The column of a run as the scanner records it: column 0 stands for
      "no run", so a run beginning at column 0 is recorded from column 1. */
  function RecordedStart(row: seq<Byte>, j: nat): nat
    requires j < |row|
  {
    if RunStart(row, j) == 0 then 1 else RunStart(row, j)
  }

  /** Column k is where a point is emitted: a dark pixel right after a
      bright one, except after a run made of column 0 alone. */
  predicate EmitsAt(row: seq<Byte>, k: nat) {
    2 <= k < |row| && Bright(row[k - 1]) && !Bright(row[k])
  }

  /** The x coordinate emitted at column k: the mean of the recorded first
      and the last bright column of the run that ends at k - 1. */
  function Midpoint(row: seq<Byte>, k: nat): real
    requires EmitsAt(row, k)
  {
    (RecordedStart(row, k - 1) + (k - 1)) as real / 2.0
  }

  /** The points emitted while scanning the first n columns of row y. */
  function RowPoints(row: seq<Byte>, y: nat, n: nat): seq<Vec2>
    requires n <= |row|
  {
    if n == 0 then []
    else RowPoints(row, y, n - 1)
         + (if EmitsAt(row, n - 1) then [Vec2(Midpoint(row, n - 1), y as real)] else [])
  }

  /** The points of the first m rows, row after row. */
  function ImagePoints(rows: seq<seq<Byte>>, m: nat): seq<Vec2>
    requires m <= |rows|
  {
    if m == 0 then [] else ImagePoints(rows, m - 1) + RowPoints(rows[m - 1], m - 1, |rows[m - 1]|)
  }

  function Detected(image: GrayImage): seq<Vec2> {
    ImagePoints(image.rows, |image.rows|)
  }

  // The scanner's registers, in closed form, before column x is read.

  function StartReg(row: seq<Byte>, x: nat): nat
    requires x <= |row|
  {
    if x == 0 || !Bright(row[x - 1]) then 0
    else if RunStart(row, x - 1) == 0 then (if x - 1 == 0 then 0 else 1)
    else RunStart(row, x - 1)
  }

  function EndReg(row: seq<Byte>, x: nat): nat
    requires x <= |row|
  {
    if x == 0 || !Bright(row[x - 1]) then 0 else x - 1
  }

  /** `detect_laser_points`: one pass per row with two registers,
      `laser_start` and `laser_end`; a dark pixel after a recorded run
      emits the run's midpoint, and a run still open at the end of the row
      is dropped. */
  method DetectLaserPoints(image: GrayImage) returns (points: seq<Vec2>)
    ensures points == Detected(image)
  {
    points := [];
    var y := 0;
    while y < |image.rows|
      invariant 0 <= y <= |image.rows|
      invariant points == ImagePoints(image.rows, y)
    {
      var row := image.rows[y];
      var laserStart: nat := 0;
      var laserEnd: nat := 0;
      var x := 0;
      while x < |row|
        invariant 0 <= x <= |row|
        invariant laserStart == StartReg(row, x)
        invariant laserEnd == EndReg(row, x)
        invariant points == ImagePoints(image.rows, y) + RowPoints(row, y, x)
      {
        if Bright(row[x]) {
          if laserStart == 0 {
            laserStart := x;
          }
          laserEnd := x;
        } else {
          if laserStart != 0 {
            var mid := (laserStart + laserEnd) as real / 2.0;
            points := points + [Vec2(mid, y as real)];
            laserStart := 0;
            laserEnd := 0;
          }
        }
        x := x + 1;
      }
      y := y + 1;
    }
  }

  // ---------------------------------------------------------------------
  // Properties of the detection.

  /** A row with no pixel above the threshold yields no point. */
  lemma {:induction false} DarkRowNoPoints(row: seq<Byte>, y: nat, n: nat)
    requires n <= |row|
    requires forall i :: 0 <= i < |row| ==> !Bright(row[i])
    ensures RowPoints(row, y, n) == []
  {
    if n > 0 {
      DarkRowNoPoints(row, y, n - 1);
    }
  }

  /** A frame with no pixel above the threshold yields no point. */
  lemma {:induction false} DarkImageNoPoints(rows: seq<seq<Byte>>, m: nat)
    requires m <= |rows|
    requires forall r, i :: 0 <= r < |rows| && 0 <= i < |rows[r]| ==> !Bright(rows[r][i])
    ensures ImagePoints(rows, m) == []
  {
    if m > 0 {
      DarkImageNoPoints(rows, m - 1);
      DarkRowNoPoints(rows[m - 1], m - 1, |rows[m - 1]|);
    }
  }

  /** Every point of row y has y as its ordinate and an abscissa inside the
      row, away from both edges. */
  lemma {:induction false} RowPointsBounds(row: seq<Byte>, y: nat, n: nat)
    requires n <= |row|
    ensures forall p :: p in RowPoints(row, y, n) ==> p.y == y as real && 1.0 <= p.x <= (|row| - 2) as real
  {
    if n > 0 {
      RowPointsBounds(row, y, n - 1);
    }
  }

  /** The points of a row are exactly the midpoints of its runs that are
      closed by a dark pixel: each such run yields its midpoint ... */
  lemma {:induction false} EmittedRunAppears(row: seq<Byte>, y: nat, n: nat, k: nat)
    requires n <= |row|
    requires k < n && EmitsAt(row, k)
    ensures Vec2(Midpoint(row, k), y as real) in RowPoints(row, y, n)
  {
    if k < n - 1 {
      EmittedRunAppears(row, y, n - 1, k);
    }
  }

  /** ... and every point is such a midpoint. */
  lemma {:induction false} RowPointIsRunMidpoint(row: seq<Byte>, y: nat, n: nat, p: Vec2)
    requires n <= |row|
    requires p in RowPoints(row, y, n)
    ensures exists k: nat :: k < n && EmitsAt(row, k) && p == Vec2(Midpoint(row, k), y as real)
  {
    if p in RowPoints(row, y, n - 1) {
      RowPointIsRunMidpoint(row, y, n - 1, p);
    } else {
      assert EmitsAt(row, n - 1) && p == Vec2(Midpoint(row, n - 1), y as real);
    }
  }

  /** Every point emitted while reading the first n columns lies at least
      two columns left of column n - 1: its run was closed before column n. */
  lemma {:induction false} RowPointsBefore(row: seq<Byte>, y: nat, n: nat)
    requires n <= |row|
    ensures forall p :: p in RowPoints(row, y, n) ==> p.x <= n as real - 2.0
  {
    if n > 0 {
      RowPointsBefore(row, y, n - 1);
    }
  }

  /** Columns a..n-1 all bright: reading them emits nothing. */
  lemma {:induction false} NoPointsInsideRun(row: seq<Byte>, y: nat, a: nat, n: nat)
    requires a <= n <= |row|
    requires forall i :: a <= i < n ==> Bright(row[i])
    ensures RowPoints(row, y, n) == RowPoints(row, y, a)
    decreases n
  {
    if n > a {
      assert !EmitsAt(row, n - 1);
      NoPointsInsideRun(row, y, a, n - 1);
    }
  }

  /** Within a row, points are reported left to right and never twice:
      the abscissae strictly increase, one point per closed run. */
  lemma {:induction false} RowPointsIncreasing(row: seq<Byte>, y: nat, n: nat)
    requires n <= |row|
    ensures forall i, j :: 0 <= i < j < |RowPoints(row, y, n)| ==> RowPoints(row, y, n)[i].x < RowPoints(row, y, n)[j].x
  {
    if n > 0 {
      RowPointsIncreasing(row, y, n - 1);
      var prev := RowPoints(row, y, n - 1);
      if EmitsAt(row, n - 1) {
        var r := RunStart(row, n - 2);
        NoPointsInsideRun(row, y, r + 1, n - 1);
        RowPointsBefore(row, y, r + 1);
        var last := Vec2(Midpoint(row, n - 1), y as real);
        assert RowPoints(row, y, n) == prev + [last];
        forall i | 0 <= i < |prev|
          ensures prev[i].x < last.x
        {
          assert prev[i] in RowPoints(row, y, r + 1);
        }
      }
    }
  }

  /** Points are reported row by row, top to bottom, and left to right
      within a row: ordinates never decrease, and points on the same row
      have strictly increasing abscissae. */
  lemma {:induction false} ImagePointsRowOrder(rows: seq<seq<Byte>>, m: nat)
    requires m <= |rows|
    ensures forall p :: p in ImagePoints(rows, m) ==> 0.0 <= p.y < m as real
    ensures forall i, j :: 0 <= i < j < |ImagePoints(rows, m)| ==> ImagePoints(rows, m)[i].y <= ImagePoints(rows, m)[j].y
    ensures forall i, j :: 0 <= i < j < |ImagePoints(rows, m)| && ImagePoints(rows, m)[i].y == ImagePoints(rows, m)[j].y
              ==> ImagePoints(rows, m)[i].x < ImagePoints(rows, m)[j].x
  {
    if m > 0 {
      ImagePointsRowOrder(rows, m - 1);
      RowPointsBounds(rows[m - 1], m - 1, |rows[m - 1]|);
      RowPointsIncreasing(rows[m - 1], m - 1, |rows[m - 1]|);
      var prev := ImagePoints(rows, m - 1);
      var last := RowPoints(rows[m - 1], m - 1, |rows[m - 1]|);
      var all: seq<Vec2> := prev + last;
      assert ImagePoints(rows, m) == all;
      forall i, j | 0 <= i < j < |all|
        ensures all[i].y <= all[j].y
        ensures all[i].y == all[j].y ==> all[i].x < all[j].x
      {
        if j >= |prev| {
          assert all[j] == last[j - |prev|];
          assert all[j] in last;
          if i < |prev| {
            assert all[i] in prev;
          } else {
            assert all[i] == last[i - |prev|];
          }
        }
      }
    }
  }

  // A row holding a single bright run from column a to column b.

  predicate SingleRun(row: seq<Byte>, a: nat, b: nat) {
    a <= b < |row| && forall i :: 0 <= i < |row| ==> (Bright(row[i]) <==> a <= i <= b)
  }

  lemma {:induction false} SingleRunPrefix(row: seq<Byte>, a: nat, b: nat, y: nat, n: nat)
    requires SingleRun(row, a, b)
    requires n <= |row|
    ensures RowPoints(row, y, n)
         == if n > b + 1 && b >= 1 then [Vec2(((if a == 0 then 1 else a) + b) as real / 2.0, y as real)] else []
  {
    if n > 0 {
      SingleRunPrefix(row, a, b, y, n - 1);
      if n - 1 == b + 1 && b >= 1 {
        assert EmitsAt(row, n - 1);
        var r := RunStart(row, b);
        assert r < b ==> Bright(row[r]);
        assert r > 0 ==> !Bright(row[r - 1]);
      } else {
        assert !EmitsAt(row, n - 1);
      }
    }
  }

  /** A single run closed by a dark pixel yields exactly its midpoint; a
      run that reaches the last column, or a lone bright pixel at column 0,
      yields nothing. */
  lemma SingleRunPoints(row: seq<Byte>, a: nat, b: nat, y: nat)
    requires SingleRun(row, a, b)
    ensures b + 1 < |row| && b >= 1 ==>
              RowPoints(row, y, |row|) == [Vec2(((if a == 0 then 1 else a) + b) as real / 2.0, y as real)]
    ensures b + 1 == |row| ==> RowPoints(row, y, |row|) == []
    ensures b == 0 ==> RowPoints(row, y, |row|) == []
  {
    SingleRunPrefix(row, a, b, y, |row|);
  }

  /** A 640-pixel row lit on columns 100..119 yields the single point
      (109.5, y): the mean of the first and last bright columns. */
  lemma StripeExample(y: nat)
    ensures var row := seq(640, i => if 100 <= i < 120 then 255 as Byte else 0 as Byte);
            RowPoints(row, y, 640) == [Vec2(109.5, y as real)]
  {
    var row := seq(640, i => if 100 <= i < 120 then 255 as Byte else 0 as Byte);
    assert SingleRun(row, 100, 119);
    SingleRunPoints(row, 100, 119, y);
  }

  // ---------------------------------------------------------------------
  // Triangulation.

  /** A detected pixel lifted to depth `focalPx` and moved so that the
      centre of the frame is the origin. */
  function Centre(p: Vec2, image: GrayImage, focalPx: real): (c: Vec3)
    ensures c == Vec3(p.x - image.width as real / 2.0, p.y - Height(image) as real / 2.0, focalPx)
  {
    var toCentre := Affine(Identity, Neg(Vec3(image.width as real / 2.0, Height(image) as real / 2.0, 0.0)));
    MatVecIdentity(Vec3(p.x, p.y, focalPx));
    Transform(toCentre, Vec3(p.x, p.y, focalPx))
  }

  /** In a frame whose rows all hold `width` pixels, every detected
      point lies inside the frame, one column away from both edges. */
  lemma {:induction false} ImagePointsInsideFrame(rows: seq<seq<Byte>>, m: nat, width: nat)
    requires m <= |rows|
    requires forall r :: r in rows ==> |r| == width
    ensures forall p :: p in ImagePoints(rows, m) ==>
              1.0 <= p.x <= width as real - 2.0 && 0.0 <= p.y < m as real
  {
    if m > 0 {
      ImagePointsInsideFrame(rows, m - 1, width);
      assert rows[m - 1] in rows;
      RowPointsBounds(rows[m - 1], m - 1, |rows[m - 1]|);
    }
  }

  /** So for a well-formed frame, centring puts every point within half a
      frame of the optical axis, at depth `focal_length_px`. */
  lemma CentredInsideFrame(image: GrayImage, calib: Calibration)
    requires ValidCalibration(calib)
    requires WellFormed(image)
    ensures forall c :: c in Centred(image, calib) ==>
              && 1.0 - image.width as real / 2.0 <= c.x <= image.width as real / 2.0 - 2.0
              && -(Height(image) as real) / 2.0 <= c.y < Height(image) as real / 2.0
              && c.z == FocalLengthPx(calib.camera.intrinsics)
  {
    var detected := Detected(image);
    ImagePointsInsideFrame(image.rows, |image.rows|, image.width);
    forall c | c in Centred(image, calib)
      ensures 1.0 - image.width as real / 2.0 <= c.x <= image.width as real / 2.0 - 2.0
      ensures -(Height(image) as real) / 2.0 <= c.y < Height(image) as real / 2.0
      ensures c.z == FocalLengthPx(calib.camera.intrinsics)
    {
      var i :| 0 <= i < |Centred(image, calib)| && Centred(image, calib)[i] == c;
      assert detected[i] in detected;
    }
  }

  /** The points lit by the right laser (x >= 0), in input order. */
  function RightOf(ps: seq<Vec3>): seq<Vec3> {
    if ps == [] then []
    else RightOf(ps[..|ps| - 1]) + (if ps[|ps| - 1].x >= 0.0 then [ps[|ps| - 1]] else [])
  }

  /** The points lit by the left laser (x < 0), in input order. */
  function LeftOf(ps: seq<Vec3>): seq<Vec3> {
    if ps == [] then []
    else LeftOf(ps[..|ps| - 1]) + (if ps[|ps| - 1].x < 0.0 then [ps[|ps| - 1]] else [])
  }

  /** The right laser gets exactly the points with x >= 0, the left laser
      exactly those with x < 0. */
  lemma {:induction false} SplitBySign(ps: seq<Vec3>)
    ensures forall p :: p in RightOf(ps) <==> p in ps && p.x >= 0.0
    ensures forall p :: p in LeftOf(ps) <==> p in ps && p.x < 0.0
  {
    if ps != [] {
      var init, last := ps[..|ps| - 1], ps[|ps| - 1];
      SplitBySign(init);
      assert ps == init + [last];
    }
  }

  /** Every centred point goes to exactly one of the two lasers. */
  lemma {:induction false} SplitIsPartition(ps: seq<Vec3>)
    ensures |RightOf(ps)| + |LeftOf(ps)| == |ps|
    ensures multiset(RightOf(ps)) + multiset(LeftOf(ps)) == multiset(ps)
  {
    if ps != [] {
      var init, last := ps[..|ps| - 1], ps[|ps| - 1];
      SplitIsPartition(init);
      assert ps == init + [last];
      if last.x >= 0.0 {
        assert RightOf(ps) == RightOf(init) + [last];
        assert LeftOf(ps) == LeftOf(init);
      } else {
        assert RightOf(ps) == RightOf(init);
        assert LeftOf(ps) == LeftOf(init) + [last];
      }
    }
  }

  /** The loop of `triangulate` that sorts the centred points by laser. */
  method SplitByLaser(points: seq<Vec3>) returns (left: seq<Vec3>, right: seq<Vec3>)
    ensures right == RightOf(points)
    ensures left == LeftOf(points)
  {
    left, right := [], [];
    var i := 0;
    while i < |points|
      invariant 0 <= i <= |points|
      invariant right == RightOf(points[..i])
      invariant left == LeftOf(points[..i])
    {
      assert points[..i + 1][..i] == points[..i];
      var point := points[i];
      if point.x >= 0.0 {
        right := right + [point];
      } else {
        left := left + [point];
      }
      i := i + 1;
    }
    assert points[..i] == points;
  }

  /** The laser baseline in pixels. */
  function BaselinePx(laser: LaserCalib, metersPerPx: real): real
    requires metersPerPx != 0.0
  {
    laser.baseline / metersPerPx
  }

  function Denominator(p: Vec3, laser: LaserCalib, trig: Trig): real {
    p.z * trig.tan(AngleRad(laser)) + p.x
  }

  /** The plane of light of a laser, in image-plane pixel coordinates:
      x + z tan(angle) = baseline. */
  predicate OnLaserPlane(q: Vec3, laser: LaserCalib, metersPerPx: real, trig: Trig)
    requires metersPerPx != 0.0
  {
    q.x + q.z * trig.tan(AngleRad(laser)) == BaselinePx(laser, metersPerPx)
  }

  /** `project_on_laser_plane`: where the camera ray through p meets the
      laser plane. The division is not guarded: a ray parallel to the
      plane gives a non-finite point. */
  function ProjectOnLaserPlane(p: Vec3, laser: LaserCalib, metersPerPx: real, trig: Trig): (r: Point3)
    requires metersPerPx != 0.0
    ensures r.NonFinite? <==> Denominator(p, laser, trig) == 0.0
    ensures r.Finite? ==> OnLaserPlane(r.v, laser, metersPerPx, trig)
    ensures r.Finite? ==> Cross(r.v, p) == Zero
  {
    var den := Denominator(p, laser, trig);
    if den == 0.0 then NonFinite
    else
      var s := BaselinePx(laser, metersPerPx) / den;
      var t := trig.tan(AngleRad(laser));
      assert s * p.x + s * p.z * t == s * den;
      Finite(Scale(s, p))
  }

  /** The projection is the only point of the ray on the plane. */
  lemma ProjectionUnique(p: Vec3, laser: LaserCalib, metersPerPx: real, trig: Trig, s: real)
    requires metersPerPx != 0.0
    requires Denominator(p, laser, trig) != 0.0
    requires OnLaserPlane(Scale(s, p), laser, metersPerPx, trig)
    ensures ProjectOnLaserPlane(p, laser, metersPerPx, trig) == Finite(Scale(s, p))
  {
    var den := Denominator(p, laser, trig);
    var t := trig.tan(AngleRad(laser));
    assert s * p.x + s * p.z * t == s * den;
    assert s == BaselinePx(laser, metersPerPx) / den;
  }

  function ProjectAll(ps: seq<Vec3>, laser: LaserCalib, metersPerPx: real, trig: Trig): (r: seq<Point3>)
    requires metersPerPx != 0.0
    ensures |r| == |ps|
  {
    seq(|ps|, i requires 0 <= i < |ps| => ProjectOnLaserPlane(ps[i], laser, metersPerPx, trig))
  }

  /** The detected points of a frame, centred, in detection order. */
  function Centred(image: GrayImage, calib: Calibration): (r: seq<Vec3>)
    requires ValidCalibration(calib)
    ensures |r| == |Detected(image)|
  {
    var detected := Detected(image);
    seq(|detected|, i requires 0 <= i < |detected| => Centre(detected[i], image, FocalLengthPx(calib.camera.intrinsics)))
  }

  /** What `triangulate` returns for a frame: the detected points,
      centred; the right laser's projections, then the left laser's; each
      scaled to length units and moved to the world frame. */
  function Triangulation(image: GrayImage, calib: Calibration, trig: Trig): seq<Point3>
    requires ValidCalibration(calib)
  {
    var centred := Centred(image, calib);
    var mpp := calib.camera.intrinsics.metersPerPx;
    var projected := ProjectAll(RightOf(centred), calib.rightLaser, mpp, trig)
                   + ProjectAll(LeftOf(centred), calib.leftLaser, mpp, trig);
    var toWorld := ImgPlane2World(calib.camera, trig);
    seq(|projected|, i requires 0 <= i < |projected| => TransformPoint(toWorld, ScalePoint(mpp, projected[i])))
  }

  /** `triangulate`. */
  method Triangulate(image: GrayImage, calib: Calibration, trig: Trig) returns (points: seq<Point3>)
    requires ValidCalibration(calib)
    ensures points == Triangulation(image, calib, trig)
  {
    var focalPx := FocalLengthPx(calib.camera.intrinsics);
    var detected := DetectLaserPoints(image);
    var centred := seq(|detected|, i requires 0 <= i < |detected| => Centre(detected[i], image, focalPx));
    var left, right := SplitByLaser(centred);
    var mpp := calib.camera.intrinsics.metersPerPx;
    var rightProjected := ProjectAll(right, calib.rightLaser, mpp, trig);
    var leftProjected := ProjectAll(left, calib.leftLaser, mpp, trig);
    var projected := rightProjected + leftProjected;
    var toWorld := ImgPlane2World(calib.camera, trig);
    points := seq(|projected|, i requires 0 <= i < |projected| => TransformPoint(toWorld, ScalePoint(mpp, projected[i])));
  }

  /** One image-plane point, projected on a laser plane and taken to the
      world frame. */
  function WorldPoint(p: Vec3, laser: LaserCalib, calib: Calibration, trig: Trig): Point3
    requires ValidCalibration(calib)
  {
    var mpp := calib.camera.intrinsics.metersPerPx;
    TransformPoint(ImgPlane2World(calib.camera, trig), ScalePoint(mpp, ProjectOnLaserPlane(p, laser, mpp, trig)))
  }

  /** One output per detected point: first the points right of the
      optical axis, through the right laser, then those left of it,
      through the left laser, each in detection order. */
  lemma TriangulationLayout(image: GrayImage, calib: Calibration, trig: Trig)
    requires ValidCalibration(calib)
    ensures |Triangulation(image, calib, trig)| == |Detected(image)|
    ensures forall i :: 0 <= i < |RightOf(Centred(image, calib))| ==>
              Triangulation(image, calib, trig)[i] == WorldPoint(RightOf(Centred(image, calib))[i], calib.rightLaser, calib, trig)
    ensures forall i :: 0 <= i < |LeftOf(Centred(image, calib))| ==>
              Triangulation(image, calib, trig)[|RightOf(Centred(image, calib))| + i]
              == WorldPoint(LeftOf(Centred(image, calib))[i], calib.leftLaser, calib, trig)
  {
    var centred := Centred(image, calib);
    SplitIsPartition(centred);
  }

  /** A frame with no bright pixel gives no point. */
  lemma TriangulationOfDarkImage(image: GrayImage, calib: Calibration, trig: Trig)
    requires ValidCalibration(calib)
    requires forall r, i :: 0 <= r < |image.rows| && 0 <= i < |image.rows[r]| ==> !Bright(image.rows[r][i])
    ensures Triangulation(image, calib, trig) == []
  {
    DarkImageNoPoints(image.rows, |image.rows|);
  }

  /** A world point taken back to the image plane and to pixels: the
      inverse of the last two steps of `triangulate`. */
  function WorldToImagePlanePx(w: Vec3, calib: Calibration, trig: Trig): Vec3
    requires ValidCalibration(calib)
  {
    Scale(1.0 / calib.camera.intrinsics.metersPerPx, Transform(InverseOrthogonal(ImgPlane2World(calib.camera, trig)), w))
  }

  /** Every finite world point, taken back to the image plane and to
      pixels, lies on the plane of the laser that produced it: the
      triangulation is exact. */
  lemma WorldPointOnLaserPlane(p: Vec3, laser: LaserCalib, calib: Calibration, trig: Trig)
    requires ValidCalibration(calib)
    requires Lawful(trig)
    ensures WorldPoint(p, laser, calib, trig).Finite? ==>
              OnLaserPlane(WorldToImagePlanePx(WorldPoint(p, laser, calib, trig).v, calib, trig),
                           laser, calib.camera.intrinsics.metersPerPx, trig)
  {
    var mpp := calib.camera.intrinsics.metersPerPx;
    var q := ProjectOnLaserPlane(p, laser, mpp, trig);
    if q.Finite? {
      var w := Transform(ImgPlane2World(calib.camera, trig), Scale(mpp, q.v));
      assert WorldPoint(p, laser, calib, trig) == Finite(w);
      assert WorldToImagePlanePx(w, calib, trig) == q.v by {
        RoundTripToPixels(q.v, calib, trig);
      }
    } else {
      assert !WorldPoint(p, laser, calib, trig).Finite?;
    }
  }

  /** Going to the world frame and back returns the image-plane point. */
  lemma RoundTripToPixels(q: Vec3, calib: Calibration, trig: Trig)
    requires ValidCalibration(calib)
    requires Lawful(trig)
    ensures WorldToImagePlanePx(Transform(ImgPlane2World(calib.camera, trig), Scale(calib.camera.intrinsics.metersPerPx, q)), calib, trig) == q
  {
    ImgPlane2WorldRigid(calib.camera, trig);
    UndoScaledTransform(ImgPlane2World(calib.camera, trig), calib.camera.intrinsics.metersPerPx, q);
  }

  /** `process_image`: step the motor once, then triangulate. The frame
      index and the angle per step only feed the logger and the
      commented-out rotation, so the points do not depend on them. */
  method ProcessImage(image: GrayImage, index: int, anglePerStep: real, calib: Calibration, trig: Trig,
                      motor: ServerMotor.StepperMotor) returns (points: seq<Point3>)
    requires ValidCalibration(calib)
    modifies motor
    ensures points == Triangulation(image, calib, trig)
    ensures motor.kind == ServerMotor.Nema ==> motor.trace == old(motor.trace) + ServerMotor.StepTrace(1)
    ensures motor.kind == ServerMotor.Mock ==> motor.trace == old(motor.trace)
  {
    motor.Step(1);
    points := Triangulate(image, calib, trig);
  }
}
