/**
 * The materials of material.hh. Each `scatter` reads the incoming ray and the
 * hit record, writes the attenuation colour and returns the scattered ray.
 * The random draws (`random_unit_vector()`, `random_in_unit_sphere()` and
 * `random_real()`) are parameters.
 */
module Materials {
  import opened Vectors
  import opened Rays
  import opened Hittables
  import opened Colors

  // ---------------------------------------------------------------------
  // Lambertian
  // ---------------------------------------------------------------------

  /**
   * The direction a Lambertian surface scatters to: the normal plus the drawn
   * unit vector, or the normal alone when that sum is `near_zero`.
   */
  function LambertianDirection(normal: Vec3, draw: Vec3): (d: Vec3)
    ensures !IsNearZero(Add(normal, draw)) ==> d == Add(normal, draw)
    ensures IsNearZero(Add(normal, draw)) ==> d == normal
  {
    var sum := Add(normal, draw);
    if IsNearZero(sum) then normal else sum
  }

  /** A unit vector is not `near_zero`: its squared length would be at most 3e-16. */
  lemma UnitNotNearZero(n: Vec3)
    requires Length2Of(n) == 1.0
    ensures !IsNearZero(n)
  {
    Dot3(n, n);
    if IsNearZero(n) {
      SquareBelow(n[0]);
      SquareBelow(n[1]);
      SquareBelow(n[2]);
      assert false;
    }
  }

  lemma SquareBelow(x: real)
    requires Abs(x) <= NearZeroTolerance
    ensures x * x <= NearZeroTolerance * NearZeroTolerance
  {
    var a := Abs(x);
    assert x * x == a * a;
    assert a * a <= a * NearZeroTolerance;
  }

  /** With a unit normal, the Lambertian direction is never degenerate. */
  lemma LambertianNotNearZero(normal: Vec3, draw: Vec3)
    requires Length2Of(normal) == 1.0
    ensures !IsNearZero(LambertianDirection(normal, draw))
  {
    UnitNotNearZero(normal);
  }

  class Lambertian {
    /** `albedo_`. */
    const albedo: Color

    ghost predicate Valid()
      reads this, albedo
    {
      albedo.Valid()
    }

    /** `Lambertian(a)`: the albedo is a copy of `a`. */
    constructor (a: Color)
      requires a.Valid()
      ensures Valid() && fresh(albedo) && fresh(albedo.c)
      ensures albedo.native == a.native && albedo.c[..] == a.c[..]
    {
      albedo := new Color.Copy(a);
    }

    /** `scatter`: from the hit point along `LambertianDirection`; the attenuation is the albedo. */
    method Scatter(light: Ray, rec: HitRecord, attenuation: Color, draw: Vec3) returns (ok: bool, scattered: Ray)
      requires Valid() && attenuation.Valid() && attenuation.native == albedo.native
      modifies attenuation.c
      ensures ok
      ensures scattered == MakeRay(rec.point, LambertianDirection(rec.normal, draw))
      ensures attenuation.Value() == old(albedo.Value())
    {
      var direction := Add(rec.normal, draw);
      if IsNearZero(direction) {
        direction := rec.normal;
      }
      scattered := MakeRay(rec.point, direction);
      attenuation.Assign(albedo);
      ok := true;
    }
  }

  // ---------------------------------------------------------------------
  // Metal
  // ---------------------------------------------------------------------

  /** `f < 1 ? f : 1`: the fuzz the constructor stores, never above 1. */
  function MetalFuzz(f: real): (r: real)
    ensures r <= 1.0 && r <= f
    ensures r == f <==> f <= 1.0
  {
    if f < 1.0 then f else 1.0
  }

  /** The direction a metal scatters to: the unit incoming direction mirrored, plus `fuzz` times the drawn vector. */
  function MetalDirection(direction: Vec3, normal: Vec3, fuzz: real, draw: Vec3, sqrt: real -> real): (d: Vec3)
    requires Length(direction, sqrt) != 0.0
  {
    Add(Reflect(Normalized(direction, sqrt), normal), Scale(draw, fuzz))
  }

  /**
   * Without fuzz a metal is a mirror: about a unit normal the scattered
   * direction has length 1 and the opposite normal component.
   */
  lemma MetalMirror(direction: Vec3, normal: Vec3, draw: Vec3, sqrt: real -> real)
    requires IsSqrt(sqrt) && Length(direction, sqrt) != 0.0 && Length2Of(normal) == 1.0
    ensures var d := MetalDirection(direction, normal, 0.0, draw, sqrt);
            var unit := Normalized(direction, sqrt);
            Length2Of(d) == 1.0 && DotOf(d, normal) == -DotOf(unit, normal)
  {
    var unit := Normalized(direction, sqrt);
    var r := Reflect(unit, normal);
    AddZeroScale(r, draw);
    NormalizedIsUnit(direction, sqrt);
    ReflectKeepsLength(unit, normal);
    ReflectNormalComponent(unit, normal);
  }

  lemma AddZeroScale(v: Vec3, w: Vec3)
    ensures Add(v, Scale(w, 0.0)) == v
  {
    assert Add(v, Scale(w, 0.0))[0] == v[0];
  }

  class Metal {
    /** `albedo_`. */
    const albedo: Color
    /** `fuzz_`. */
    const fuzz: real

    ghost predicate Valid()
      reads this, albedo
    {
      albedo.Valid()
    }

    /** `Metal(a, f)`: the albedo is a copy of `a` and the fuzz is `f` capped at 1. */
    constructor (a: Color, f: real)
      requires a.Valid()
      ensures Valid() && fresh(albedo) && fresh(albedo.c)
      ensures albedo.native == a.native && albedo.c[..] == a.c[..]
      ensures fuzz == MetalFuzz(f)
    {
      albedo := new Color.Copy(a);
      fuzz := if f < 1.0 then f else 1.0;
    }

    /** `Metal(a)`: the default argument `f = 0`, a perfect mirror. */
    constructor Mirror(a: Color)
      requires a.Valid()
      ensures Valid() && fresh(albedo) && fresh(albedo.c)
      ensures albedo.native == a.native && albedo.c[..] == a.c[..]
      ensures fuzz == MetalFuzz(0.0) == 0.0
    {
      albedo := new Color.Copy(a);
      fuzz := 0.0;
    }

    /** `scatter`: from the hit point along `MetalDirection`; the attenuation is the albedo. */
    method Scatter(light: Ray, rec: HitRecord, attenuation: Color, draw: Vec3, sqrt: real -> real) returns (ok: bool, scattered: Ray)
      requires Valid() && attenuation.Valid() && attenuation.native == albedo.native
      requires Length(light.direction, sqrt) != 0.0
      modifies attenuation.c
      ensures ok
      ensures scattered == MakeRay(rec.point, MetalDirection(light.direction, rec.normal, fuzz, draw, sqrt))
      ensures attenuation.Value() == old(albedo.Value())
    {
      var reflected := Reflect(Normalized(light.direction, sqrt), rec.normal);
      scattered := MakeRay(rec.point, Add(reflected, Scale(draw, fuzz)));
      attenuation.Assign(albedo);
      ok := true;
    }
  }

  // ---------------------------------------------------------------------
  // Dielectric
  // ---------------------------------------------------------------------

  /** `x` raised to the power `n` (`std::pow` with a whole exponent). */
  function Pow(x: real, n: nat): real
  {
    if n == 0 then 1.0 else x * Pow(x, n - 1)
  }

  /** `reflectance(cosine, ref_idx)`: Schlick's approximation `r0 + (1 - r0)(1 - cosine)^5`. */
  function Reflectance(cosine: real, refIdx: real): real
    requires refIdx != -1.0
  {
    var r0 := (1.0 - refIdx) / (1.0 + refIdx);
    var r0 := r0 * r0;
    r0 + (1.0 - r0) * Pow(1.0 - cosine, 5)
  }

  /** `r0` of `reflectance`: the reflectance at normal incidence. */
  function NormalReflectance(refIdx: real): real
    requires refIdx != -1.0
  {
    ((1.0 - refIdx) / (1.0 + refIdx)) * ((1.0 - refIdx) / (1.0 + refIdx))
  }

  /** At normal incidence (cosine 1) the reflectance is `r0`; at grazing incidence (cosine 0) it is 1. */
  lemma ReflectanceEnds(refIdx: real)
    requires refIdx != -1.0
    ensures Reflectance(1.0, refIdx) == NormalReflectance(refIdx)
    ensures Reflectance(0.0, refIdx) == 1.0
  {
    assert Pow(0.0, 5) == 0.0 * Pow(0.0, 4);
    assert Pow(1.0, 1) == 1.0;
    assert Pow(1.0, 2) == 1.0;
    assert Pow(1.0, 3) == 1.0;
    assert Pow(1.0, 4) == 1.0;
    assert Pow(1.0, 5) == 1.0;
  }

  lemma MulAtMostOne(x: real, p: real)
    requires 0.0 <= x <= 1.0 && 0.0 <= p
    ensures 0.0 <= x * p <= p
  {
    assert p - x * p == (1.0 - x) * p;
  }

  /** A power of a value in [0, 1] stays in [0, 1]. */
  lemma {:induction false} PowUnit(x: real, n: nat)
    requires 0.0 <= x <= 1.0
    ensures 0.0 <= Pow(x, n) <= 1.0
  {
    if n > 0 {
      PowUnit(x, n - 1);
      MulAtMostOne(x, Pow(x, n - 1));
    }
  }

  /** For a positive index, `(1 - idx) / (1 + idx)` lies in [-1, 1]. */
  lemma RatioBounds(refIdx: real)
    requires refIdx > 0.0
    ensures -1.0 <= (1.0 - refIdx) / (1.0 + refIdx) <= 1.0
  {
    var d := 1.0 + refIdx;
    var t := (1.0 - refIdx) / d;
    assert t * d == 1.0 - refIdx;
    assert (1.0 - t) * d == 2.0 * refIdx;
    assert (1.0 + t) * d == 2.0;
    PositiveFactor(1.0 - t, d);
    PositiveFactor(1.0 + t, d);
  }

  lemma SquareAtMostOne(t: real)
    requires -1.0 <= t <= 1.0
    ensures 0.0 <= t * t <= 1.0
  {
    if t >= 0.0 {
      MulAtMostOne(t, t);
    } else {
      MulAtMostOne(-t, -t);
    }
  }

  /**
   * For a positive index and a cosine in [0, 1], the reflectance lies
   * between its value at normal incidence and 1: it is a probability.
   */
  lemma ReflectanceBounds(cosine: real, refIdx: real)
    requires refIdx > 0.0 && 0.0 <= cosine <= 1.0
    ensures 0.0 <= NormalReflectance(refIdx) <= Reflectance(cosine, refIdx) <= 1.0
  {
    var r0 := NormalReflectance(refIdx);
    RatioBounds(refIdx);
    SquareAtMostOne((1.0 - refIdx) / (1.0 + refIdx));
    PowUnit(1.0 - cosine, 5);
    MulAtMostOne(Pow(1.0 - cosine, 5), 1.0 - r0);
    assert (1.0 - r0) * Pow(1.0 - cosine, 5) == Pow(1.0 - cosine, 5) * (1.0 - r0);
  }

  /** `refraction_ratio`: `1 / ir` entering through the front face, `ir` leaving. */
  function RefractionRatio(frontFace: bool, ir: real): (ratio: real)
    requires ir != 0.0
    ensures ratio != 0.0
  {
    if frontFace then 1.0 / ir else ir
  }

  /** The two ratios are reciprocal: leaving undoes entering. */
  lemma RatiosReciprocal(ir: real)
    requires ir != 0.0
    ensures RefractionRatio(true, ir) * RefractionRatio(false, ir) == 1.0
  {
  }

  /**
   * `cannot_refract`: `refraction_ratio * sin_theta > 1` with
   * `sin_theta = sqrt(1 - cos_theta^2)`. A negative radicand makes
   * `std::sqrt` return NaN, and a comparison with NaN is false.
   */
  predicate CannotRefract(ratio: real, cosTheta: real, sqrt: real -> real)
  {
    1.0 - cosTheta * cosTheta >= 0.0 && ratio * sqrt(1.0 - cosTheta * cosTheta) > 1.0
  }

  /**
   * The direction a dielectric scatters to: the mirror image of the unit
   * incoming direction when refraction is impossible or the draw falls below
   * the reflectance, the refracted direction otherwise.
   */
  function DielectricDirection(direction: Vec3, normal: Vec3, frontFace: bool, ir: real, draw: real, sqrt: real -> real): (d: Vec3)
    requires Length(direction, sqrt) != 0.0 && ir != 0.0 && ir != -1.0
  {
    var ratio := RefractionRatio(frontFace, ir);
    var unit := Normalized(direction, sqrt);
    var cosTheta := CosTheta(unit, normal);
    if CannotRefract(ratio, cosTheta, sqrt) || Reflectance(cosTheta, ratio) > draw then
      Reflect(unit, normal)
    else
      Refract(unit, normal, ratio, sqrt)
  }

  /**
   * Which side of the surface the dielectric sends the ray: a reflection
   * flips the normal component of the unit direction and a refraction (for a
   * positive index) keeps the ray on the far side; past the critical angle it
   * always reflects.
   */
  lemma DielectricSides(direction: Vec3, normal: Vec3, frontFace: bool, ir: real, draw: real, sqrt: real -> real)
    requires RootsNonNegative(sqrt) && Length(direction, sqrt) != 0.0 && ir > 0.0 && Length2Of(normal) == 1.0
    ensures var ratio := RefractionRatio(frontFace, ir);
            var unit := Normalized(direction, sqrt);
            var d := DielectricDirection(direction, normal, frontFace, ir, draw, sqrt);
            (CannotRefract(ratio, CosTheta(unit, normal), sqrt) ==> d == Reflect(unit, normal)) &&
            (d == Reflect(unit, normal) ==> DotOf(d, normal) == -DotOf(unit, normal)) &&
            (d != Reflect(unit, normal) ==> DotOf(d, normal) <= 0.0)
  {
    var ratio := RefractionRatio(frontFace, ir);
    var unit := Normalized(direction, sqrt);
    ReflectNormalComponent(unit, normal);
    RefractCrossesSurface(unit, normal, ratio, sqrt);
  }

  /** `Color(1.0, 1.0, 1.0)`: each argument converted to a byte, alpha 0. */
  function DielectricAttenuation(): (x: Word)
    ensures ChannelOf(x, R) == 1 && ChannelOf(x, G) == 1 && ChannelOf(x, B) == 1 && ChannelOf(x, A) == 0
  {
    PackChannels(1, 1, 1, 0);
    Pack(RealToByte(1.0), RealToByte(1.0), RealToByte(1.0), 0)
  }

  class Dielectric {
    /** `ir_`: the index of refraction. */
    const ir: real

    /** `Dielectric(index_of_refraction)`. */
    constructor (indexOfRefraction: real)
      ensures ir == indexOfRefraction
    {
      ir := indexOfRefraction;
    }

    /**
     * `scatter`: the attenuation is `Color(1.0, 1.0, 1.0)`, which converts each
     * argument to a byte and leaves alpha 0; the ray leaves the hit point along
     * `DielectricDirection`.
     */
    method Scatter(light: Ray, rec: HitRecord, attenuation: Color, draw: real, sqrt: real -> real) returns (ok: bool, scattered: Ray)
      requires attenuation.Valid() && ir != 0.0 && ir != -1.0
      requires Length(light.direction, sqrt) != 0.0
      modifies attenuation.c
      ensures ok
      ensures attenuation.Value() == DielectricAttenuation()
      ensures scattered == MakeRay(rec.point, DielectricDirection(light.direction, rec.normal, rec.frontFace, ir, draw, sqrt))
    {
      attenuation.SetValue(DielectricAttenuation());
      var ratio := RefractionRatio(rec.frontFace, ir);
      var unit := Normalized(light.direction, sqrt);
      var cosTheta := CosTheta(unit, rec.normal);
      var cannotRefract := CannotRefract(ratio, cosTheta, sqrt);
      var direction: Vec3;
      if cannotRefract || Reflectance(cosTheta, ratio) > draw {
        direction := Reflect(unit, rec.normal);
      } else {
        direction := Refract(unit, rec.normal, ratio, sqrt);
      }
      scattered := MakeRay(rec.point, direction);
      ok := true;
    }
  }
}
