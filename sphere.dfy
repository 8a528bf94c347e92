/**
 * `Sphere::hit` of sphere.hh: solve |origin + t d - center|^2 = radius^2 for
 * t, try the nearer root and then the farther one, accept the first that the
 * interval strictly surrounds, and fill the record with t, the point
 * `light.at(t)` and the face normal of `(point - center) / radius`.
 */
module Spheres {
  import opened Wrappers
  import opened Vectors
  import opened Rays
  import opened Intervals
  import opened Hittables

  datatype Sphere = Sphere(center: Vec3, radius: real)

  /** `a`, `b` and `c` of the quadratic a t^2 + b t + c for a ray. */
  function Coefficients(s: Sphere, light: Ray): (abc: (real, real, real))
    ensures abc.0 >= 0.0
  {
    Length2NonNegative(light.direction);
    var oc := Sub(light.origin, s.center);
    (DotOf(light.direction, light.direction),
     2.0 * DotOf(oc, light.direction),
     DotOf(oc, oc) - s.radius * s.radius)
  }

  /** `delta = b * b - 4 * a * c`. */
  function Discriminant(abc: (real, real, real)): real
  {
    abc.1 * abc.1 - 4.0 * abc.0 * abc.2
  }

  /** `(-b - sqrt(delta)) / (2a)`. */
  function NearRoot(abc: (real, real, real), sqrt: real -> real): real
    requires abc.0 != 0.0
  {
    (-abc.1 - sqrt(Discriminant(abc))) / (2.0 * abc.0)
  }

  /** `(-b + sqrt(delta)) / (2a)`. */
  function FarRoot(abc: (real, real, real), sqrt: real -> real): real
    requires abc.0 != 0.0
  {
    (-abc.1 + sqrt(Discriminant(abc))) / (2.0 * abc.0)
  }

  /**
   * The ray parameter `hit` accepts, if any. A ray with a zero direction has
   * a = b = 0 and delta = 0, so both roots are 0/0, a NaN that no interval
   * surrounds: such a ray hits nothing.
   */
  function Root(s: Sphere, light: Ray, range: Interval, sqrt: real -> real): (r: Option<real>)
    ensures r.Some? ==> range.Surrounds(r.value)
  {
    var abc := Coefficients(s, light);
    if Discriminant(abc) < 0.0 || abc.0 == 0.0 then None
    else if range.Surrounds(NearRoot(abc, sqrt)) then Some(NearRoot(abc, sqrt))
    else if range.Surrounds(FarRoot(abc, sqrt)) then Some(FarRoot(abc, sqrt))
    else None
  }

  /** The record a hit at parameter t leaves. */
  function HitAt(s: Sphere, light: Ray, t: real): (h: Hit)
    requires s.radius != 0.0
    ensures h.t == t && h.point == light.At(t)
    ensures DotOf(h.normal, light.direction) <= 0.0
  {
    var p := light.At(t);
    var face := FaceNormal(light.direction, Div(Sub(p, s.center), s.radius));
    FaceNormalOpposesRay(light.direction, Div(Sub(p, s.center), s.radius));
    Hit(p, face.1, t, face.0)
  }

  /** What `hit` reports: the record of the accepted root, or nothing. */
  function SphereHit(s: Sphere, light: Ray, range: Interval, sqrt: real -> real): (h: Option<Hit>)
    requires s.radius != 0.0
    ensures h.Some? <==> Root(s, light, range, sqrt).Some?
    ensures h.Some? ==> h.value == HitAt(s, light, Root(s, light, range, sqrt).value)
  {
    match Root(s, light, range, sqrt)
    case None => None
    case Some(t) => Some(HitAt(s, light, t))
  }

  /** `Sphere::hit(light, ray_range, rec)`: on a miss the record is left as it was. */
  method HitSphere(s: Sphere, light: Ray, range: Interval, rec: HitRecord, sqrt: real -> real) returns (hit: bool)
    requires s.radius != 0.0
    modifies rec
    ensures hit <==> SphereHit(s, light, range, sqrt).Some?
    ensures hit ==> rec.Value() == SphereHit(s, light, range, sqrt).value
    ensures !hit ==> rec.Value() == old(rec.Value())
  {
    var abc := Coefficients(s, light);
    var a, b := abc.0, abc.1;
    var delta := Discriminant(abc);
    if delta < 0.0 {
      return false;
    }
    if a == 0.0 {
      // both roots are 0/0
      return false;
    }
    var t := NearRoot(abc, sqrt);
    if !range.Surrounds(t) {
      t := FarRoot(abc, sqrt);
      if !range.Surrounds(t) {
        return false;
      }
    }
    assert Root(s, light, range, sqrt) == Some(t);
    rec.t := t;
    rec.point := light.At(t);
    rec.SetFaceNormal(light, Div(Sub(rec.point, s.center), s.radius));
    return true;
  }

  // ---------------------------------------------------------------------
  // Properties
  // ---------------------------------------------------------------------

  /** The nearer root is taken whenever the interval surrounds it. */
  lemma NearRootFirst(s: Sphere, light: Ray, range: Interval, sqrt: real -> real)
    requires var abc := Coefficients(s, light);
             Discriminant(abc) >= 0.0 && abc.0 != 0.0 && range.Surrounds(NearRoot(abc, sqrt))
    ensures Root(s, light, range, sqrt) == Some(NearRoot(Coefficients(s, light), sqrt))
  {
  }

  lemma DivMonotone(x: real, y: real, d: real)
    requires x <= y && d > 0.0
    ensures x / d <= y / d
  {
    assert y / d - x / d == (y - x) / d;
  }

  /** With a non-negative square root, the nearer root is never beyond the farther one. */
  lemma NearBeforeFar(abc: (real, real, real), sqrt: real -> real)
    requires RootsNonNegative(sqrt) && abc.0 > 0.0 && Discriminant(abc) >= 0.0
    ensures NearRoot(abc, sqrt) <= FarRoot(abc, sqrt)
  {
    DivMonotone(-abc.1 - sqrt(Discriminant(abc)), -abc.1 + sqrt(Discriminant(abc)), 2.0 * abc.0);
  }

  /**
   * Lowering the upper bound of the interval to u keeps the root the sphere
   * gives if that root is below u, and otherwise loses the hit: the sphere
   * then has no root in the lower interval at all.
   */
  lemma RootBelow(s: Sphere, light: Ray, lo: ExtReal, hi: ExtReal, u: real, sqrt: real -> real)
    requires RootsNonNegative(sqrt) && AtMost(Finite(u), hi)
    ensures var r := Root(s, light, Interval(lo, hi), sqrt);
            Root(s, light, Interval(lo, Finite(u)), sqrt) == if r.Some? && r.value < u then r else None
  {
    var abc := Coefficients(s, light);
    if Discriminant(abc) >= 0.0 && abc.0 != 0.0 {
      NearBeforeFar(abc, sqrt);
    }
  }

  /** A hit's normal never points along the ray. */
  lemma HitNormalOpposesRay(s: Sphere, light: Ray, range: Interval, sqrt: real -> real)
    requires s.radius != 0.0 && SphereHit(s, light, range, sqrt).Some?
    ensures var h := SphereHit(s, light, range, sqrt).value;
            DotOf(h.normal, light.direction) <= 0.0 && range.Surrounds(h.t) && h.point == light.At(h.t)
  {
  }

  /**
   * A ray from the origin along -z meets the sphere of radius 0.5 about
   * (0, 0, -1) at t = 0.5, on its front face, with normal (0, 0, 1).
   */
  lemma Example(sqrt: real -> real)
    requires IsSqrt(sqrt)
    ensures var s := Sphere(Vec(0.0, 0.0, -1.0), 0.5);
            var light := Ray(Vec(0.0, 0.0, 0.0), Vec(0.0, 0.0, -1.0));
            SphereHit(s, light, Interval(Finite(0.0), PosInf), sqrt)
              == Some(Hit(Vec(0.0, 0.0, -0.5), Vec(0.0, 0.0, 1.0), 0.5, true))
  {
    var s := Sphere(Vec(0.0, 0.0, -1.0), 0.5);
    var light := Ray(Vec(0.0, 0.0, 0.0), Vec(0.0, 0.0, -1.0));
    var oc := Sub(light.origin, s.center);
    assert oc == Vec(0.0, 0.0, 1.0);
    Dot3(light.direction, light.direction);
    Dot3(oc, light.direction);
    Dot3(oc, oc);
    var abc := Coefficients(s, light);
    assert abc == (1.0, -2.0, 0.75);
    assert Discriminant(abc) == 1.0;
    UnitRoot(sqrt);
    assert NearRoot(abc, sqrt) == 0.5;
    var p := light.At(0.5);
    assert p == Vec(0.0, 0.0, -0.5);
    var outward := Div(Sub(p, s.center), s.radius);
    assert outward == Vec(0.0, 0.0, 1.0);
    Dot3(light.direction, outward);
  }

  /**
   * A ray from the origin along +y passes beside the same sphere: the
   * discriminant is negative and nothing is hit, whatever the square root.
   */
  lemma MissExample(sqrt: real -> real)
    ensures var s := Sphere(Vec(0.0, 0.0, -1.0), 0.5);
            var light := Ray(Vec(0.0, 0.0, 0.0), Vec(0.0, 1.0, 0.0));
            SphereHit(s, light, Interval(Finite(0.0), PosInf), sqrt) == None
  {
    var s := Sphere(Vec(0.0, 0.0, -1.0), 0.5);
    var light := Ray(Vec(0.0, 0.0, 0.0), Vec(0.0, 1.0, 0.0));
    var oc := Sub(light.origin, s.center);
    assert oc == Vec(0.0, 0.0, 1.0);
    Dot3(light.direction, light.direction);
    Dot3(oc, light.direction);
    Dot3(oc, oc);
    assert Coefficients(s, light) == (1.0, 0.0, 0.75);
  }

  lemma UnitRoot(sqrt: real -> real)
    requires IsSqrt(sqrt)
    ensures sqrt(1.0) == 1.0
  {
    var r := sqrt(1.0);
    assert (r - 1.0) * (r + 1.0) == r * r - 1.0 == 0.0;
    ZeroFactor(r - 1.0, r + 1.0);
  }

  lemma ZeroFactor(x: real, y: real)
    requires x * y == 0.0 && y > 0.0
    ensures x == 0.0
  {
    assert x == (x * y) / y;
  }
}
