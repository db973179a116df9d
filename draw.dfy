/** The viewer's point generators (scanner_ui/src/draw.rs): rings, discs,
    segments and cylinders sampled into a growing point buffer. */
module Draw {
  import opened Geometry

  /** The point of a circumference at angle t degrees: the centre, plus
      r cos t along v1, plus r sin t along v2. */
  function CircumferencePoint(trig: Trig, r: real, center: Vec3, v1: Vec3, v2: Vec3, t: nat): Vec3 {
    var alpha := ToRadians(t as real);
    Add(Add(center, Scale(r * trig.cos(alpha), v1)), Scale(r * trig.sin(alpha), v2))
  }

  /** What `circumference` appends: one point per whole degree. */
  function CircumferencePoints(trig: Trig, r: real, center: Vec3, v1: Vec3, v2: Vec3): (ps: seq<Vec3>)
    ensures |ps| == 360
  {
    seq(360, t requires 0 <= t < 360 => CircumferencePoint(trig, r, center, v1, v2, t))
  }

  /** The radius of the s-th of the 20 rings of `circle`. */
  function RingRadius(r: real, s: nat): real {
    s as real * r / 20.0
  }

  /** The first n rings of a disc, innermost first. */
  function Rings(trig: Trig, r: real, center: Vec3, v1: Vec3, v2: Vec3, n: nat): (ps: seq<Vec3>)
    ensures |ps| == 360 * n
  {
    if n == 0 then []
    else Rings(trig, r, center, v1, v2, n - 1) + CircumferencePoints(trig, RingRadius(r, n - 1), center, v1, v2)
  }

  /** What `circle` appends: a disc as 20 concentric rings. */
  function CirclePoints(trig: Trig, r: real, center: Vec3, v1: Vec3, v2: Vec3): seq<Vec3> {
    Rings(trig, r, center, v1, v2, 20)
  }

  /** The first n side rings of a cylinder, from the base upwards. */
  function Tube(trig: Trig, r: real, origin: Vec3, top: Vec3, v1: Vec3, v2: Vec3, n: nat): (ps: seq<Vec3>)
    ensures |ps| == 360 * n
  {
    if n == 0 then []
    else Tube(trig, r, origin, top, v1, v2, n - 1)
         + CircumferencePoints(trig, r, SideCentre(origin, top, n - 1), v1, v2)
  }

  /** The centre of the s-th side ring: s/20 of the way up the axis. */
  function SideCentre(origin: Vec3, top: Vec3, s: nat): Vec3 {
    Lerp(origin, top, s as real / 20.0)
  }

  /** What `cylinder` appends: the base disc, 20 side rings, the top disc;
      `orthonormal` is `any_orthonormal_vector`. */
  function CylinderPoints(trig: Trig, orthonormal: Vec3 -> Vec3, r: real, origin: Vec3, axis: Vec3): seq<Vec3> {
    var top := Add(origin, axis);
    var v1 := orthonormal(axis);
    var v2 := Cross(axis, v1);
    CirclePoints(trig, r, origin, v1, v2) + Tube(trig, r, origin, top, v1, v2, 20) + CirclePoints(trig, r, top, v1, v2)
  }

  /** A buffer the generators push points into. */
  class PointBuffer {
    var points: seq<Vec3>

    constructor ()
      ensures points == []
    {
      points := [];
    }

    /** `circumference`: appends 360 points, one per degree, and leaves
        the earlier contents as they were. */
    method Circumference(trig: Trig, r: real, center: Vec3, v1: Vec3, v2: Vec3)
      modifies this
      ensures points == old(points) + CircumferencePoints(trig, r, center, v1, v2)
    {
      var t := 0;
      while t < 360
        invariant 0 <= t <= 360
        invariant points == old(points) + CircumferencePoints(trig, r, center, v1, v2)[..t]
      {
        var alpha := ToRadians(t as real);
        var p := Add(Add(center, Scale(r * trig.cos(alpha), v1)), Scale(r * trig.sin(alpha), v2));
        assert p == CircumferencePoints(trig, r, center, v1, v2)[t];
        assert CircumferencePoints(trig, r, center, v1, v2)[..t + 1]
            == CircumferencePoints(trig, r, center, v1, v2)[..t] + [p];
        points := points + [p];
        t := t + 1;
      }
    }

    /** `circle`: appends 20 rings of growing radius. */
    method Circle(trig: Trig, r: real, center: Vec3, v1: Vec3, v2: Vec3)
      modifies this
      ensures points == old(points) + CirclePoints(trig, r, center, v1, v2)
    {
      var s := 0;
      while s < 20
        invariant 0 <= s <= 20
        invariant points == old(points) + Rings(trig, r, center, v1, v2, s)
      {
        var radius := s as real * r / 20.0;
        Circumference(trig, radius, center, v1, v2);
        s := s + 1;
      }
    }

    /** `cylinder`: the base disc, the side rings, the top disc. */
    method Cylinder(trig: Trig, orthonormal: Vec3 -> Vec3, r: real, origin: Vec3, axis: Vec3)
      modifies this
      ensures points == old(points) + CylinderPoints(trig, orthonormal, r, origin, axis)
    {
      var top := Add(origin, axis);
      var v1 := orthonormal(axis);
      var v2 := Cross(axis, v1);
      Circle(trig, r, origin, v1, v2);
      ghost var base := points;
      var step := 0;
      while step < 20
        invariant 0 <= step <= 20
        invariant points == base + Tube(trig, r, origin, top, v1, v2, step)
      {
        var center := Lerp(origin, top, step as real / 20.0);
        assert center == SideCentre(origin, top, step);
        Circumference(trig, r, center, v1, v2);
        step := step + 1;
      }
      Circle(trig, r, Add(origin, axis), v1, v2);
    }
  }

  /** Every circumference point lies at distance |r| from the centre when
      v1 and v2 are orthonormal and the cosine and sine of its angle lie on
      the unit circle. */
  lemma CircumferenceOnCircle(trig: Trig, r: real, center: Vec3, v1: Vec3, v2: Vec3, t: nat)
    requires Dot(v1, v1) == 1.0 && Dot(v2, v2) == 1.0 && Dot(v1, v2) == 0.0
    requires var alpha := ToRadians(t as real); trig.cos(alpha) * trig.cos(alpha) + trig.sin(alpha) * trig.sin(alpha) == 1.0
    ensures var d := Sub(CircumferencePoint(trig, r, center, v1, v2, t), center); Dot(d, d) == r * r
  {
    var alpha := ToRadians(t as real);
    var a := r * trig.cos(alpha);
    var b := r * trig.sin(alpha);
    var d := Sub(CircumferencePoint(trig, r, center, v1, v2, t), center);
    assert d == Add(Scale(a, v1), Scale(b, v2));
    DotOfCombination(a, b, v1, v2);
    assert Dot(d, d) == a * a + b * b;
    assert a * a + b * b == r * r * (trig.cos(alpha) * trig.cos(alpha) + trig.sin(alpha) * trig.sin(alpha));
  }

  lemma DotOfCombination(a: real, b: real, v1: Vec3, v2: Vec3)
    ensures var d := Add(Scale(a, v1), Scale(b, v2));
            Dot(d, d) == a * a * Dot(v1, v1) + 2.0 * a * b * Dot(v1, v2) + b * b * Dot(v2, v2)
  {
  }

  /** The s-th ring of a disc occupies the s-th block of 360 points. */
  lemma {:induction false} RingsLayout(trig: Trig, r: real, center: Vec3, v1: Vec3, v2: Vec3, n: nat, s: nat, t: nat)
    requires s < n && t < 360
    ensures Rings(trig, r, center, v1, v2, n)[360 * s + t] == CircumferencePoint(trig, RingRadius(r, s), center, v1, v2, t)
  {
    if s < n - 1 {
      RingsLayout(trig, r, center, v1, v2, n - 1, s, t);
    }
  }

  /** `circle` appends 7200 points; its first ring has radius 0, so it is
      360 copies of the centre, and its widest ring has radius 19r/20, so
      the circle of radius r itself is never drawn. */
  lemma CircleLayout(trig: Trig, r: real, center: Vec3, v1: Vec3, v2: Vec3)
    ensures |CirclePoints(trig, r, center, v1, v2)| == 7200
    ensures forall t :: 0 <= t < 360 ==> CirclePoints(trig, r, center, v1, v2)[t] == center
    ensures forall s, t :: 0 <= s < 20 && 0 <= t < 360 ==>
              CirclePoints(trig, r, center, v1, v2)[360 * s + t]
              == CircumferencePoint(trig, RingRadius(r, s), center, v1, v2, t)
    ensures forall s :: 0 <= s < 20 && r != 0.0 ==> RingRadius(r, s) != r
  {
    forall s, t | 0 <= s < 20 && 0 <= t < 360
      ensures CirclePoints(trig, r, center, v1, v2)[360 * s + t]
              == CircumferencePoint(trig, RingRadius(r, s), center, v1, v2, t)
    {
      RingsLayout(trig, r, center, v1, v2, 20, s, t);
    }
    forall s | 0 <= s < 20 && r != 0.0
      ensures RingRadius(r, s) != r
    {
      NonZeroProduct(s as real - 20.0, r);
      assert RingRadius(r, s) - r == (s as real - 20.0) * r / 20.0;
    }
    forall t | 0 <= t < 360
      ensures CirclePoints(trig, r, center, v1, v2)[t] == center
    {
      RingsLayout(trig, r, center, v1, v2, 20, 0, t);
    }
  }

  /** The s-th side ring of a cylinder is centred at the point s/20 of the
      way from the base to the top. */
  lemma {:induction false} TubeLayout(trig: Trig, r: real, origin: Vec3, top: Vec3, v1: Vec3, v2: Vec3, n: nat, s: nat, t: nat)
    requires s < n && t < 360
    ensures Tube(trig, r, origin, top, v1, v2, n)[360 * s + t]
            == CircumferencePoint(trig, r, SideCentre(origin, top, s), v1, v2, t)
  {
    if s < n - 1 {
      TubeLayout(trig, r, origin, top, v1, v2, n - 1, s, t);
    }
  }

  /** `cylinder` appends 7200 + 20 * 360 + 7200 points: the base disc,
      then the side rings, the first of them around the base centre, then
      the top disc. */
  lemma CylinderLayout(trig: Trig, orthonormal: Vec3 -> Vec3, r: real, origin: Vec3, axis: Vec3)
    ensures var ps := CylinderPoints(trig, orthonormal, r, origin, axis);
            var v1 := orthonormal(axis);
            var v2 := Cross(axis, v1);
            && |ps| == 21600
            && ps[..7200] == CirclePoints(trig, r, origin, v1, v2)
            && ps[14400..] == CirclePoints(trig, r, Add(origin, axis), v1, v2)
            && (forall s, t :: 0 <= s < 20 && 0 <= t < 360 ==>
                  ps[7200 + 360 * s + t] == CircumferencePoint(trig, r, SideCentre(origin, Add(origin, axis), s), v1, v2, t))
  {
    var ps := CylinderPoints(trig, orthonormal, r, origin, axis);
    var v1 := orthonormal(axis);
    var v2 := Cross(axis, v1);
    var top := Add(origin, axis);
    var tube := Tube(trig, r, origin, top, v1, v2, 20);
    assert ps == CirclePoints(trig, r, origin, v1, v2) + tube + CirclePoints(trig, r, top, v1, v2);
    forall s, t | 0 <= s < 20 && 0 <= t < 360
      ensures ps[7200 + 360 * s + t] == CircumferencePoint(trig, r, SideCentre(origin, top, s), v1, v2, t)
    {
      TubeLayout(trig, r, origin, top, v1, v2, 20, s, t);
      assert ps[7200 + 360 * s + t] == tube[360 * s + t];
    }
  }

  /** `segment`: 20 points evenly spaced from p1 towards p2: the first is
      p1, and p2 itself is left out unless it equals p1. */
  function Segment(p1: Vec3, p2: Vec3): (ps: seq<Vec3>)
    ensures |ps| == 20
    ensures ps[0] == p1
    ensures forall t :: 0 <= t < 20 ==> ps[t] == Lerp(p1, p2, t as real / 20.0)
    ensures p1 != p2 ==> p2 !in ps
  {
    var ps := seq(20, t requires 0 <= t < 20 => Lerp(p1, p2, t as real / 20.0));
    forall t | 0 <= t < 20
      ensures ps[t] != p2 || p1 == p2
    {
      if ps[t] == p2 {
        LerpReachesEndOnlyAtOne(p1, p2, t as real / 20.0);
      }
    }
    ps
  }

  /** Short of the parameter 1, interpolation reaches the far end only when
      the two ends coincide. */
  lemma LerpReachesEndOnlyAtOne(a: Vec3, b: Vec3, s: real)
    requires s != 1.0
    requires Lerp(a, b, s) == b
    ensures a == b
  {
    assert a.x + s * (b.x - a.x) == b.x && a.y + s * (b.y - a.y) == b.y && a.z + s * (b.z - a.z) == b.z;
    FactorZero(b.x - a.x, 1.0 - s);
    FactorZero(b.y - a.y, 1.0 - s);
    FactorZero(b.z - a.z, 1.0 - s);
  }

  lemma FactorZero(x: real, y: real)
    requires x * y == 0.0 && y != 0.0
    ensures x == 0.0
  {
  }

  lemma NonZeroProduct(x: real, y: real)
    requires x != 0.0 && y != 0.0
    ensures x * y != 0.0
  {
  }
}
