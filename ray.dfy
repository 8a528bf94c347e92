/**
 * `Ray` of ray.hh: an origin and a direction, fixed at construction, and the
 * point `at(t) = origin + t * direction` (also spelled `operator()(t)`).
 */
module Rays {
  import opened Vectors

  datatype Ray = Ray(origin: Vec3, direction: Vec3)
  {
    /** `at(t)` and `operator()(t)`: the point reached after t units of the direction. */
    function At(t: real): (p: Vec3)
      ensures forall i :: 0 <= i < 3 ==> p[i] == origin[i] + t * direction[i]
    {
      Add(origin, Scale(direction, t))
    }
  }

  /** The constructor `Ray(origin, direction)`, with `origin()` and `direction()` reading the fields back. */
  function MakeRay(origin: Vec3, direction: Vec3): (r: Ray)
    ensures r.origin == origin && r.direction == direction
  {
    Ray(origin, direction)
  }

  /** The ray starts at its origin. */
  lemma AtZero(r: Ray)
    ensures r.At(0.0) == r.origin
  {
    assert r.At(0.0)[0] == r.origin[0];
  }

  /** Moving along a ray is additive: going s and then t is going s + t. */
  lemma AtAdditive(r: Ray, s: real, t: real)
    ensures r.At(s + t) == Add(r.At(s), Scale(r.direction, t))
  {
    forall i | 0 <= i < 3
      ensures r.At(s + t)[i] == Add(r.At(s), Scale(r.direction, t))[i]
    {
      MulDistributes(r.direction[i], s + t, s, t);
      assert (s + t) * r.direction[i] == r.direction[i] * (s + t);
    }
  }

  /** The direction is the displacement of one unit of t. */
  lemma AtDifference(r: Ray, t: real)
    ensures Sub(r.At(t + 1.0), r.At(t)) == r.direction
  {
    AtAdditive(r, t, 1.0);
  }
}
