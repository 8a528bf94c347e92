/**
 * The real-valued vector of inc/vector.hh: `Vector<Dimension>`, a std::array of
 * `real` with component-wise arithmetic, dot and cross products, reflection,
 * refraction and the tolerance tests `near_zero` and `almost_equal`.
 *
 * Values are sequences of reals whose length is the dimension.  The compound
 * assignments (`+=`, `-=`, ...) and the accumulating loops (`length2`, `dot`,
 * `==`, ...) work on a `Vector` object that owns its array, as the source does.
 * The free operators copy their left operand and apply the compound assignment.
 */
module Vectors {
  import opened Wrappers

  /** A three-dimensional vector: Vec3 and Point3 of inc/vector.hh. */
  type Vec3 = v: seq<real> | |v| == 3 witness [0.0, 0.0, 0.0]

  /** `make_vector(x, y, z)`. */
  function Vec(x: real, y: real, z: real): (v: Vec3)
  {
    [x, y, z]
  }

  function Abs(x: real): (r: real)
    ensures r >= 0.0 && (r == x || r == -x)
  {
    if x < 0.0 then -x else x
  }

  /**
   * `std::sqrt`, which the model does not compute: any function that maps a
   * non-negative argument to its non-negative square root.
   */
  ghost predicate IsSqrt(sqrt: real -> real)
  {
    RootsNonNegative(sqrt) && forall x :: 0.0 <= x ==> sqrt(x) * sqrt(x) == x
  }

  /** The half of `IsSqrt` that says a square root is never negative. */
  ghost predicate RootsNonNegative(sqrt: real -> real)
  {
    forall x :: 0.0 <= x ==> 0.0 <= sqrt(x)
  }

  // ---------------------------------------------------------------------
  // Component-wise arithmetic (the free operators and the unary minus)
  // ---------------------------------------------------------------------

  function Neg(v: seq<real>): (r: seq<real>)
    ensures |r| == |v| && forall i :: 0 <= i < |v| ==> r[i] == -v[i]
  {
    seq(|v|, i requires 0 <= i < |v| => -v[i])
  }

  function Add(v: seq<real>, w: seq<real>): (r: seq<real>)
    requires |v| == |w|
    ensures |r| == |v| && forall i :: 0 <= i < |v| ==> r[i] == v[i] + w[i]
  {
    seq(|v|, i requires 0 <= i < |v| => v[i] + w[i])
  }

  function Sub(v: seq<real>, w: seq<real>): (r: seq<real>)
    requires |v| == |w|
    ensures |r| == |v| && forall i :: 0 <= i < |v| ==> r[i] == v[i] - w[i]
  {
    seq(|v|, i requires 0 <= i < |v| => v[i] - w[i])
  }

  /** The component-wise product `v1 * v2`. */
  function Mul(v: seq<real>, w: seq<real>): (r: seq<real>)
    requires |v| == |w|
    ensures |r| == |v| && forall i :: 0 <= i < |v| ==> r[i] == v[i] * w[i]
  {
    seq(|v|, i requires 0 <= i < |v| => v[i] * w[i])
  }

  /** `v * t`, and also `t * v`, which the source defines as `v * t`. */
  function Scale(v: seq<real>, t: real): (r: seq<real>)
    ensures |r| == |v| && forall i :: 0 <= i < |v| ==> r[i] == v[i] * t
  {
    seq(|v|, i requires 0 <= i < |v| => v[i] * t)
  }

  /** `v / t`; a zero divisor gives infinities or NaN in the source, which reals do not have. */
  function Div(v: seq<real>, t: real): (r: seq<real>)
    requires t != 0.0
    ensures |r| == |v| && forall i :: 0 <= i < |v| ==> r[i] == v[i] / t
  {
    seq(|v|, i requires 0 <= i < |v| => v[i] / t)
  }

  /** The sum of the first k products `v[i] * w[i]`: what the loop of `dot` holds after k rounds. */
  function PartialDot(v: seq<real>, w: seq<real>, k: nat): real
    requires |v| == |w| && k <= |v|
  {
    if k == 0 then 0.0 else PartialDot(v, w, k - 1) + v[k - 1] * w[k - 1]
  }

  /** The dot product, summed from the first component to the last as `dot` does. */
  function DotOf(v: seq<real>, w: seq<real>): real
    requires |v| == |w|
  {
    PartialDot(v, w, |v|)
  }

  /** `length2()`: the sum of the squared components. */
  function Length2Of(v: seq<real>): real
  {
    DotOf(v, v)
  }

  /** `cross(v)` of two three-component vectors. */
  function Cross(v: Vec3, w: Vec3): (r: Vec3)
  {
    [v[1] * w[2] - v[2] * w[1],
     v[2] * w[0] - v[0] * w[2],
     v[0] * w[1] - v[1] * w[0]]
  }

  /** `reflect(n)`: `v - 2 * dot(v, n) * n`. */
  function Reflect(v: seq<real>, n: seq<real>): (r: seq<real>)
    requires |v| == |n|
    ensures |r| == |v|
  {
    Sub(v, Scale(n, 2.0 * DotOf(v, n)))
  }

  /** `length()`. */
  function Length(v: seq<real>, sqrt: real -> real): real
  {
    sqrt(Length2Of(v))
  }

  /** `normalized()` and `unit()`: the vector divided by its length. */
  function Normalized(v: seq<real>, sqrt: real -> real): (r: seq<real>)
    requires Length(v, sqrt) != 0.0
    ensures |r| == |v|
  {
    Div(v, Length(v, sqrt))
  }

  /** `std::min(-dot(v, n), 1.0)`: the cosine of the angle of incidence, capped at 1. */
  function CosTheta(v: seq<real>, n: seq<real>): (c: real)
    requires |v| == |n|
    ensures c <= 1.0
  {
    if -DotOf(v, n) < 1.0 then -DotOf(v, n) else 1.0
  }

  /** `r_out_perp` of `refract`: `etai_over_etat * (v + cos_theta * n)`. */
  function RefractPerpendicular(v: seq<real>, n: seq<real>, etaiOverEtat: real): (r: seq<real>)
    requires |v| == |n|
    ensures |r| == |v|
  {
    Scale(Add(v, Scale(n, CosTheta(v, n))), etaiOverEtat)
  }

  /** `r_out_parallel` of `refract`: `-sqrt(|1 - length2(r_out_perp)|) * n`. */
  function RefractParallel(perpendicular: seq<real>, n: seq<real>, sqrt: real -> real): (r: seq<real>)
    ensures |r| == |n|
    ensures Parallel(r, n)
  {
    var r := Scale(n, -sqrt(Abs(1.0 - Length2Of(perpendicular))));
    ScaleParallel(n, -sqrt(Abs(1.0 - Length2Of(perpendicular))));
    r
  }

  /** v lies along w: every 2 x 2 minor of the pair vanishes. */
  predicate Parallel(v: seq<real>, w: seq<real>)
    requires |v| == |w|
  {
    forall i, j :: 0 <= i < |v| && 0 <= j < |v| ==> v[i] * w[j] == v[j] * w[i]
  }

  /** A multiple of a vector lies along it. */
  lemma ScaleParallel(n: seq<real>, k: real)
    ensures Parallel(Scale(n, k), n)
  {
    forall i, j | 0 <= i < |n| && 0 <= j < |n|
      ensures Scale(n, k)[i] * n[j] == Scale(n, k)[j] * n[i]
    {
      calc {
        Scale(n, k)[i] * n[j];
        k * (n[i] * n[j]);
        Scale(n, k)[j] * n[i];
      }
    }
  }

  /** `refract(n, etai_over_etat)`: Snell's law split into a part along the surface and a part along the normal. */
  function Refract(v: seq<real>, n: seq<real>, etaiOverEtat: real, sqrt: real -> real): (r: seq<real>)
    requires |v| == |n|
    ensures |r| == |v|
  {
    var perpendicular := RefractPerpendicular(v, n, etaiOverEtat);
    Add(perpendicular, RefractParallel(perpendicular, n, sqrt))
  }

  /** The tolerance `s = 1e-8` of `near_zero`. */
  const NearZeroTolerance: real := 0.00000001

  predicate IsNearZero(v: seq<real>)
  {
    forall i :: 0 <= i < |v| ==> Abs(v[i]) <= NearZeroTolerance
  }

  /** `std::abs(x - y)`. */
  function Distance(x: real, y: real): real
  {
    Abs(x - y)
  }

  predicate IsAlmostEqual(v: seq<real>, w: seq<real>, epsilon: real)
    requires |v| == |w|
  {
    forall i :: 0 <= i < |v| ==> Distance(v[i], w[i]) <= epsilon
  }

  // ---------------------------------------------------------------------
  // Algebra of the dot product
  // ---------------------------------------------------------------------

  lemma {:induction false} PartialDotAddLeft(u: seq<real>, v: seq<real>, w: seq<real>, k: nat)
    requires |u| == |v| == |w| && k <= |u|
    ensures PartialDot(Add(u, v), w, k) == PartialDot(u, w, k) + PartialDot(v, w, k)
  {
    if k > 0 {
      PartialDotAddLeft(u, v, w, k - 1);
    }
  }

  lemma DotAddLeft(u: seq<real>, v: seq<real>, w: seq<real>)
    requires |u| == |v| == |w|
    ensures DotOf(Add(u, v), w) == DotOf(u, w) + DotOf(v, w)
  {
    PartialDotAddLeft(u, v, w, |u|);
  }

  lemma {:induction false} PartialDotSubLeft(u: seq<real>, v: seq<real>, w: seq<real>, k: nat)
    requires |u| == |v| == |w| && k <= |u|
    ensures PartialDot(Sub(u, v), w, k) == PartialDot(u, w, k) - PartialDot(v, w, k)
  {
    if k > 0 {
      PartialDotSubLeft(u, v, w, k - 1);
    }
  }

  lemma DotSubLeft(u: seq<real>, v: seq<real>, w: seq<real>)
    requires |u| == |v| == |w|
    ensures DotOf(Sub(u, v), w) == DotOf(u, w) - DotOf(v, w)
  {
    PartialDotSubLeft(u, v, w, |u|);
  }

  lemma {:induction false} PartialDotScaleLeft(v: seq<real>, t: real, w: seq<real>, k: nat)
    requires |v| == |w| && k <= |v|
    ensures PartialDot(Scale(v, t), w, k) == t * PartialDot(v, w, k)
  {
    if k > 0 {
      PartialDotScaleLeft(v, t, w, k - 1);
    }
  }

  lemma DotScaleLeft(v: seq<real>, t: real, w: seq<real>)
    requires |v| == |w|
    ensures DotOf(Scale(v, t), w) == t * DotOf(v, w)
  {
    PartialDotScaleLeft(v, t, w, |v|);
  }

  lemma {:induction false} PartialDotNegLeft(v: seq<real>, w: seq<real>, k: nat)
    requires |v| == |w| && k <= |v|
    ensures PartialDot(Neg(v), w, k) == -PartialDot(v, w, k)
  {
    if k > 0 {
      PartialDotNegLeft(v, w, k - 1);
    }
  }

  lemma DotNegLeft(v: seq<real>, w: seq<real>)
    requires |v| == |w|
    ensures DotOf(Neg(v), w) == -DotOf(v, w)
  {
    PartialDotNegLeft(v, w, |v|);
  }

  lemma {:induction false} PartialDotSymmetric(v: seq<real>, w: seq<real>, k: nat)
    requires |v| == |w| && k <= |v|
    ensures PartialDot(v, w, k) == PartialDot(w, v, k)
  {
    if k > 0 {
      PartialDotSymmetric(v, w, k - 1);
    }
  }

  lemma DotSymmetric(v: seq<real>, w: seq<real>)
    requires |v| == |w|
    ensures DotOf(v, w) == DotOf(w, v)
  {
    PartialDotSymmetric(v, w, |v|);
  }

  lemma {:induction false} PartialSquaresNonNegative(v: seq<real>, k: nat)
    requires k <= |v|
    ensures PartialDot(v, v, k) >= 0.0
  {
    if k > 0 {
      PartialSquaresNonNegative(v, k - 1);
    }
  }

  /** `length2()` is never negative. */
  lemma Length2NonNegative(v: seq<real>)
    ensures Length2Of(v) >= 0.0
  {
    PartialSquaresNonNegative(v, |v|);
  }

  /** The dot product of two 3-vectors written out. */
  lemma Dot3(v: Vec3, w: Vec3)
    ensures DotOf(v, w) == v[0] * w[0] + v[1] * w[1] + v[2] * w[2]
  {
    assert PartialDot(v, w, 1) == v[0] * w[0];
    assert PartialDot(v, w, 2) == PartialDot(v, w, 1) + v[1] * w[1];
    assert PartialDot(v, w, 3) == PartialDot(v, w, 2) + v[2] * w[2];
  }

  lemma Length2Scale(v: seq<real>, t: real)
    ensures Length2Of(Scale(v, t)) == t * t * Length2Of(v)
  {
    DotScaleLeft(v, t, Scale(v, t));
    DotSymmetric(v, Scale(v, t));
    DotScaleLeft(v, t, v);
  }

  lemma DivIsScale(v: seq<real>, t: real)
    requires t != 0.0
    ensures Div(v, t) == Scale(v, 1.0 / t)
  {
    var a, b := Div(v, t), Scale(v, 1.0 / t);
    forall i | 0 <= i < |v| ensures a[i] == b[i] {
      assert a[i] == v[i] / t;
      assert b[i] == v[i] * (1.0 / t);
    }
  }

  // ---------------------------------------------------------------------
  // Properties promised by the header
  // ---------------------------------------------------------------------

  /** `(a + b) - b == a`: the free `-` undoes the free `+`. */
  lemma AddThenSub(a: seq<real>, b: seq<real>)
    requires |a| == |b|
    ensures Sub(Add(a, b), b) == a
  {
  }

  /** `-(-v) == v`. */
  lemma NegInvolutive(v: seq<real>)
    ensures Neg(Neg(v)) == v
  {
  }

  /** The cross product is orthogonal to both of its operands. */
  lemma CrossOrthogonal(v: Vec3, w: Vec3)
    ensures DotOf(Cross(v, w), v) == 0.0 && DotOf(Cross(v, w), w) == 0.0
  {
    Dot3(Cross(v, w), v);
    Dot3(Cross(v, w), w);
  }

  /** Scaling a unit vector by c gives a vector whose component along it is c. */
  lemma DotScaleUnit(n: seq<real>, c: real)
    requires Length2Of(n) == 1.0
    ensures DotOf(Scale(n, c), n) == c
  {
    DotScaleLeft(n, c, n);
    var d := DotOf(n, n);
    assert d == 1.0;
    assert c * d == c;
  }

  /** The component of a reflected vector along any w: `r.w = v.w - k (n.w)` with `k = 2 (v.n)`. */
  lemma ReflectDot(v: seq<real>, n: seq<real>, w: seq<real>, k: real)
    requires |v| == |n| == |w| && k == 2.0 * DotOf(v, n)
    ensures DotOf(Reflect(v, n), w) == DotOf(v, w) - k * DotOf(n, w)
  {
    DotSubLeft(v, Scale(n, k), w);
    DotScaleLeft(n, k, w);
  }

  /** Reflection about a unit normal flips the sign of the normal component. */
  lemma ReflectNormalComponent(v: seq<real>, n: seq<real>)
    requires |v| == |n| && Length2Of(n) == 1.0
    ensures DotOf(Reflect(v, n), n) == -DotOf(v, n)
  {
    var k := 2.0 * DotOf(v, n);
    ReflectDot(v, n, n, k);
    UnitFactor(DotOf(v, n), k, DotOf(n, n));
  }

  lemma UnitFactor(a: real, k: real, d: real)
    requires d == 1.0 && k == 2.0 * a
    ensures a - k * d == -a
  {
  }

  /** Reflection about a unit normal keeps the length of the vector. */
  lemma ReflectKeepsLength(v: seq<real>, n: seq<real>)
    requires |v| == |n| && Length2Of(n) == 1.0
    ensures Length2Of(Reflect(v, n)) == Length2Of(v)
  {
    var r := Reflect(v, n);
    var k := 2.0 * DotOf(v, n);
    ReflectDot(v, n, r, k);
    ReflectDot(v, n, v, k);
    ReflectNormalComponent(v, n);
    DotSymmetric(n, r);
    DotSymmetric(v, r);
    DotSymmetric(n, v);
    assert DotOf(n, r) == -DotOf(n, v);
    MulNegRight(k, DotOf(n, r), DotOf(n, v));
    assert DotOf(r, r) == DotOf(v, r) - k * DotOf(n, r);
    assert DotOf(r, v) == DotOf(v, v) - k * DotOf(n, v);
  }

  lemma MulNegRight(x: real, y: real, z: real)
    requires y == -z
    ensures x * y == -(x * z)
  {
  }

  /** Reflecting twice about the same unit normal gives the vector back. */
  lemma ReflectTwice(v: seq<real>, n: seq<real>)
    requires |v| == |n| && Length2Of(n) == 1.0
    ensures Reflect(Reflect(v, n), n) == v
  {
    var k := 2.0 * DotOf(v, n);
    var r := Reflect(v, n);
    var k' := 2.0 * DotOf(r, n);
    ReflectNormalComponent(v, n);
    SubScaleCancel(v, n, k, k');
  }

  /** Moving by `-k n` and then by `-k' n` with `k' = -k` returns to the start. */
  lemma SubScaleCancel(v: seq<real>, n: seq<real>, k: real, k': real)
    requires |v| == |n| && k' == -k
    ensures Sub(Sub(v, Scale(n, k)), Scale(n, k')) == v
  {
    var r := Sub(v, Scale(n, k));
    var rr := Sub(r, Scale(n, k'));
    forall i | 0 <= i < |v| ensures rr[i] == v[i] {
      MulNegRight(n[i], k', k);
    }
  }

  /** A normalised vector has length 1. */
  lemma NormalizedIsUnit(v: seq<real>, sqrt: real -> real)
    requires IsSqrt(sqrt) && Length(v, sqrt) != 0.0
    ensures Length2Of(Normalized(v, sqrt)) == 1.0
  {
    var s := Length(v, sqrt);
    Length2NonNegative(v);
    DivIsScale(v, s);
    Length2Scale(v, 1.0 / s);
    assert s * s == Length2Of(v);
    assert (1.0 / s) * (1.0 / s) * (s * s) == 1.0;
  }

  /** The component of `r_out_perp` along a unit normal. */
  lemma RefractPerpendicularDot(v: seq<real>, n: seq<real>, eta: real)
    requires |v| == |n| && Length2Of(n) == 1.0
    ensures DotOf(RefractPerpendicular(v, n, eta), n) == eta * DotOf(v, n) + eta * CosTheta(v, n)
  {
    ShiftScaleDot(v, n, CosTheta(v, n), eta);
  }

  /** `eta * (v + c n)` has component `eta * (v.n + c)` along a unit normal n. */
  lemma ShiftScaleDot(v: seq<real>, n: seq<real>, c: real, eta: real)
    requires |v| == |n| && Length2Of(n) == 1.0
    ensures DotOf(Scale(Add(v, Scale(n, c)), eta), n) == eta * DotOf(v, n) + eta * c
  {
    DotAddLeft(v, Scale(n, c), n);
    DotScaleUnit(n, c);
    DotScaleLeft(Add(v, Scale(n, c)), eta, n);
    MulDistributes(eta, DotOf(Add(v, Scale(n, c)), n), DotOf(v, n), c);
  }

  lemma MulDistributes(x: real, y: real, a: real, b: real)
    requires y == a + b
    ensures x * y == x * a + x * b
  {
  }

  /** The component of `r_out_parallel` along a unit normal. */
  lemma RefractParallelDot(perpendicular: seq<real>, n: seq<real>, sqrt: real -> real)
    requires Length2Of(n) == 1.0
    ensures DotOf(RefractParallel(perpendicular, n, sqrt), n) == -sqrt(Abs(1.0 - Length2Of(perpendicular)))
  {
    DotScaleUnit(n, -sqrt(Abs(1.0 - Length2Of(perpendicular))));
  }

  /** The component of the refracted ray along a unit normal, written out. */
  lemma RefractNormalComponent(v: seq<real>, n: seq<real>, eta: real, sqrt: real -> real)
    requires |v| == |n| && Length2Of(n) == 1.0
    ensures DotOf(Refract(v, n, eta, sqrt), n)
            == eta * DotOf(v, n) + eta * CosTheta(v, n) - sqrt(Abs(1.0 - Length2Of(RefractPerpendicular(v, n, eta))))
  {
    var perpendicular := RefractPerpendicular(v, n, eta);
    var parallel := RefractParallel(perpendicular, n, sqrt);
    RefractPerpendicularDot(v, n, eta);
    RefractParallelDot(perpendicular, n, sqrt);
    DotAddLeft(perpendicular, parallel, n);
  }

  /** The refracted ray goes through the surface: its component along a unit normal is never positive. */
  lemma RefractCrossesSurface(v: seq<real>, n: seq<real>, eta: real, sqrt: real -> real)
    requires RootsNonNegative(sqrt) && |v| == |n| && Length2Of(n) == 1.0 && eta >= 0.0
    ensures DotOf(Refract(v, n, eta, sqrt), n) <= 0.0
  {
    RefractNormalComponent(v, n, eta, sqrt);
    assert sqrt(Abs(1.0 - Length2Of(RefractPerpendicular(v, n, eta)))) >= 0.0;
    MulNonPositive(eta, DotOf(v, n), CosTheta(v, n));
  }

  lemma MulNonPositive(x: real, a: real, b: real)
    requires x >= 0.0 && a + b <= 0.0
    ensures x * a + x * b <= 0.0
  {
    assert x * a + x * b == x * (a + b);
  }

  /** A product with a positive factor is positive only if the other factor is. */
  lemma PositiveFactor(x: real, d: real)
    requires x * d > 0.0 && d > 0.0
    ensures x > 0.0
  {
    assert x == (x * d) / d;
  }

  /** The zero vector of any dimension is `near_zero()`. */
  lemma NearZeroZero(d: nat)
    ensures IsNearZero(seq(d, i => 0.0))
  {
  }

  /** `almost_equal` is reflexive for a non-negative tolerance. */
  lemma AlmostEqualReflexive(v: seq<real>, epsilon: real)
    requires epsilon >= 0.0
    ensures IsAlmostEqual(v, v, epsilon)
  {
    forall i | 0 <= i < |v| ensures Distance(v[i], v[i]) <= epsilon {
      assert v[i] - v[i] == 0.0;
    }
  }

  /** `random_unit_vector_on_hemisphere(normal)` given the unit vector it drew. */
  function OnHemisphere(drawn: Vec3, normal: Vec3): (r: Vec3)
    ensures DotOf(r, normal) >= 0.0
    ensures r == drawn || r == Neg(drawn)
    ensures Length2Of(r) == Length2Of(drawn)
  {
    DotNegLeft(drawn, normal);
    DotNegLeft(drawn, Neg(drawn));
    DotSymmetric(drawn, Neg(drawn));
    DotNegLeft(drawn, drawn);
    if DotOf(drawn, normal) > 0.0 then drawn else Neg(drawn)
  }

  // ---------------------------------------------------------------------
  // Rejection sampling, with the random draws passed in
  // ---------------------------------------------------------------------

  /**
   * `random_in_unit_sphere()`: the first candidate of length2 at most 1.  The
   * source draws candidates until one is accepted; here the candidates it would
   * draw are given, and None means that none of them was accepted.
   */
  method RandomInUnitSphere(candidates: seq<Vec3>) returns (v: Option<Vec3>)
    ensures v.Some? <==> exists k :: 0 <= k < |candidates| && Length2Of(candidates[k]) <= 1.0
    ensures v.Some? ==> Length2Of(v.value) <= 1.0
    ensures v.Some? ==> exists k :: 0 <= k < |candidates| && candidates[k] == v.value &&
                          forall j :: 0 <= j < k ==> Length2Of(candidates[j]) > 1.0
  {
    var i := 0;
    while i < |candidates|
      invariant 0 <= i <= |candidates|
      invariant forall j :: 0 <= j < i ==> Length2Of(candidates[j]) > 1.0
    {
      var length2 := Length2Of(candidates[i]);
      if length2 <= 1.0 {
        return Some(candidates[i]);
      }
      i := i + 1;
    }
    return None;
  }

  /**
   * `random_in_unit_disk()`: candidates `(x, y, 0)` with x and y drawn from
   * [-1, 1); the first one of length2 at most 1 is returned.
   */
  method RandomInUnitDisk(candidates: seq<(real, real)>) returns (v: Option<Vec3>)
    ensures v.Some? <==> exists k :: 0 <= k < |candidates| && Length2Of(Vec(candidates[k].0, candidates[k].1, 0.0)) <= 1.0
    ensures v.Some? ==> Length2Of(v.value) <= 1.0 && v.value[2] == 0.0
    ensures v.Some? ==> exists k :: 0 <= k < |candidates| && v.value == Vec(candidates[k].0, candidates[k].1, 0.0) &&
                          forall j :: 0 <= j < k ==> Length2Of(Vec(candidates[j].0, candidates[j].1, 0.0)) > 1.0
  {
    var i := 0;
    while i < |candidates|
      invariant 0 <= i <= |candidates|
      invariant forall j :: 0 <= j < i ==> Length2Of(Vec(candidates[j].0, candidates[j].1, 0.0)) > 1.0
    {
      var candidate := Vec(candidates[i].0, candidates[i].1, 0.0);
      if Length2Of(candidate) <= 1.0 {
        return Some(candidate);
      }
      i := i + 1;
    }
    return None;
  }

  // ---------------------------------------------------------------------
  // The object: a fixed-size array of components updated in place
  // ---------------------------------------------------------------------

  class Vector {
    const e: array<real>

    /** `make_vector(args...)` and the copy constructor. */
    constructor (s: seq<real>)
      ensures fresh(e) && e[..] == s
    {
      e := new real[|s|](i requires 0 <= i < |s| => s[i]);
    }

    /** `operator+=`; `v` may be this vector itself. */
    method AddAssign(v: Vector)
      requires v.e.Length == e.Length
      modifies e
      ensures e[..] == Add(old(e[..]), old(v.e[..]))
    {
      var i := 0;
      while i < e.Length
        invariant 0 <= i <= e.Length
        invariant forall k :: 0 <= k < i ==> e[k] == old(e[k]) + old(v.e[k])
        invariant forall k :: i <= k < e.Length ==> e[k] == old(e[k]) && v.e[k] == old(v.e[k])
      {
        e[i] := e[i] + v.e[i];
        i := i + 1;
      }
    }

    /** `operator-=`. */
    method SubAssign(v: Vector)
      requires v.e.Length == e.Length
      modifies e
      ensures e[..] == Sub(old(e[..]), old(v.e[..]))
    {
      var i := 0;
      while i < e.Length
        invariant 0 <= i <= e.Length
        invariant forall k :: 0 <= k < i ==> e[k] == old(e[k]) - old(v.e[k])
        invariant forall k :: i <= k < e.Length ==> e[k] == old(e[k]) && v.e[k] == old(v.e[k])
      {
        e[i] := e[i] - v.e[i];
        i := i + 1;
      }
    }

    /** `operator*=(const Vector&)`: component-wise product. */
    method MulAssign(v: Vector)
      requires v.e.Length == e.Length
      modifies e
      ensures e[..] == Mul(old(e[..]), old(v.e[..]))
    {
      var i := 0;
      while i < e.Length
        invariant 0 <= i <= e.Length
        invariant forall k :: 0 <= k < i ==> e[k] == old(e[k]) * old(v.e[k])
        invariant forall k :: i <= k < e.Length ==> e[k] == old(e[k]) && v.e[k] == old(v.e[k])
      {
        e[i] := e[i] * v.e[i];
        i := i + 1;
      }
      ghost var expected := Mul(old(e[..]), old(v.e[..]));
      forall k | 0 <= k < e.Length ensures e[..][k] == expected[k] {
        assert e[k] == old(e[k]) * old(v.e[k]);
      }
    }

    /** `operator*=(real)`. */
    method ScaleAssign(t: real)
      modifies e
      ensures e[..] == Scale(old(e[..]), t)
    {
      var i := 0;
      while i < e.Length
        invariant 0 <= i <= e.Length
        invariant forall k :: 0 <= k < i ==> e[k] == old(e[k]) * t
        invariant forall k :: i <= k < e.Length ==> e[k] == old(e[k])
      {
        e[i] := e[i] * t;
        i := i + 1;
      }
      ghost var expected := Scale(old(e[..]), t);
      forall k | 0 <= k < e.Length ensures e[..][k] == expected[k] {
        assert e[k] == old(e[k]) * t;
      }
    }

    /** `operator/=(real)`. */
    method DivAssign(t: real)
      requires t != 0.0
      modifies e
      ensures e[..] == Div(old(e[..]), t)
    {
      var i := 0;
      while i < e.Length
        invariant 0 <= i <= e.Length
        invariant forall k :: 0 <= k < i ==> e[k] == old(e[k]) / t
        invariant forall k :: i <= k < e.Length ==> e[k] == old(e[k])
      {
        e[i] := e[i] / t;
        i := i + 1;
      }
    }

    /** `normalize()`: divides in place by `length()`, the root of `length2()`. */
    method Normalize(sqrt: real -> real)
      requires Length(e[..], sqrt) != 0.0
      modifies e
      ensures e[..] == Normalized(old(e[..]), sqrt)
    {
      var length2 := Length2();
      DivAssign(sqrt(length2));
    }

    /** The unary `operator-`: a new vector holding the negated components. */
    method Negated() returns (neg: seq<real>)
      ensures neg == Neg(e[..])
    {
      var a := new real[e.Length];
      var i := 0;
      while i < e.Length
        invariant 0 <= i <= e.Length
        invariant forall k :: 0 <= k < i ==> a[k] == -e[k]
      {
        a[i] := -e[i];
        i := i + 1;
      }
      neg := a[..];
    }

    /** `dot(v)`: the products of the components summed in a loop. */
    method Dot(v: Vector) returns (sum: real)
      requires v.e.Length == e.Length
      ensures sum == DotOf(e[..], v.e[..])
    {
      sum := 0.0;
      var i := 0;
      while i < e.Length
        invariant 0 <= i <= e.Length
        invariant sum == PartialDot(e[..], v.e[..], i)
      {
        sum := sum + e[i] * v.e[i];
        i := i + 1;
      }
    }

    /** `length2()` and `length_squared()`: the squares of the components summed in a loop. */
    method Length2() returns (sum: real)
      ensures sum == Length2Of(e[..]) && sum >= 0.0
    {
      sum := 0.0;
      var i := 0;
      while i < e.Length
        invariant 0 <= i <= e.Length
        invariant sum == PartialDot(e[..], e[..], i)
      {
        sum := sum + e[i] * e[i];
        i := i + 1;
      }
      Length2NonNegative(e[..]);
    }

    /** `operator==`: exact comparison of every component, stopping at the first difference. */
    method Equals(v: Vector) returns (b: bool)
      requires v.e.Length == e.Length
      ensures b <==> e[..] == v.e[..]
    {
      var i := 0;
      while i < e.Length
        invariant 0 <= i <= e.Length
        invariant forall k :: 0 <= k < i ==> e[k] == v.e[k]
      {
        if e[i] != v.e[i] {
          assert e[..][i] != v.e[..][i];
          return false;
        }
        i := i + 1;
      }
      return true;
    }

    /** `operator!=`: the negation of `==`. */
    method NotEquals(v: Vector) returns (b: bool)
      requires v.e.Length == e.Length
      ensures b <==> exists k :: 0 <= k < e.Length && e[k] != v.e[k]
    {
      var same := Equals(v);
      b := !same;
      if b {
        var k :| 0 <= k < e.Length && e[..][k] != v.e[..][k];
      }
    }

    /** `almost_equal(v, epsilon)`: every component differs by at most epsilon. */
    method AlmostEqual(v: Vector, epsilon: real) returns (b: bool)
      requires v.e.Length == e.Length
      ensures b <==> IsAlmostEqual(e[..], v.e[..], epsilon)
    {
      var i := 0;
      while i < e.Length
        invariant 0 <= i <= e.Length
        invariant forall k :: 0 <= k < i ==> Distance(e[k], v.e[k]) <= epsilon
      {
        if Distance(e[i], v.e[i]) > epsilon {
          assert Distance(e[..][i], v.e[..][i]) > epsilon;
          return false;
        }
        i := i + 1;
      }
      return true;
    }

    /** `near_zero()`: every component lies within 1e-8 of zero. */
    method NearZero() returns (b: bool)
      ensures b <==> IsNearZero(e[..])
    {
      var i := 0;
      while i < e.Length
        invariant 0 <= i <= e.Length
        invariant forall k :: 0 <= k < i ==> Abs(e[k]) <= NearZeroTolerance
      {
        if Abs(e[i]) > NearZeroTolerance {
          assert Abs(e[..][i]) > NearZeroTolerance;
          return false;
        }
        i := i + 1;
      }
      return true;
    }
  }

  // ---------------------------------------------------------------------
  // Free operators: copy the left operand, then apply the compound assignment
  // ---------------------------------------------------------------------

  /** `operator+(v1, v2)`; both operands are left unchanged. */
  method Plus(v1: seq<real>, v2: seq<real>) returns (sum: seq<real>)
    requires |v1| == |v2|
    ensures sum == Add(v1, v2)
  {
    var s := new Vector(v1);
    var t := new Vector(v2);
    s.AddAssign(t);
    sum := s.e[..];
  }

  /** `operator-(v1, v2)`. */
  method Minus(v1: seq<real>, v2: seq<real>) returns (diff: seq<real>)
    requires |v1| == |v2|
    ensures diff == Sub(v1, v2)
  {
    var d := new Vector(v1);
    var t := new Vector(v2);
    d.SubAssign(t);
    diff := d.e[..];
  }

  /** `operator*(v, t)` and `operator*(t, v)`. */
  method Times(v: seq<real>, t: real) returns (prod: seq<real>)
    ensures prod == Scale(v, t)
  {
    var p := new Vector(v);
    p.ScaleAssign(t);
    prod := p.e[..];
  }

  /** `operator/(v, t)`. */
  method Quotient(v: seq<real>, t: real) returns (quot: seq<real>)
    requires t != 0.0
    ensures quot == Div(v, t)
  {
    var q := new Vector(v);
    q.DivAssign(t);
    quot := q.e[..];
  }

  /** `operator*(v1, v2)`: component-wise product. */
  method Product(v1: seq<real>, v2: seq<real>) returns (prod: seq<real>)
    requires |v1| == |v2|
    ensures prod == Mul(v1, v2)
  {
    var p := new Vector(v1);
    var t := new Vector(v2);
    p.MulAssign(t);
    prod := p.e[..];
  }
}
