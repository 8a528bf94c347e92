/**
 * `HitRecord` of hittable.hh: the point, surface normal, ray parameter and
 * side of the surface of one ray-object intersection. `set_face_normal`
 * decides from the outward normal which side the ray came from and stores
 * the normal turned against the ray.
 */
module Hittables {
  import opened Vectors
  import opened Rays

  /** The value of a hit record's fields, as a closest-hit search hands it on. */
  datatype Hit = Hit(point: Vec3, normal: Vec3, t: real, frontFace: bool)

  /** The `(front_face, normal)` pair `set_face_normal` stores for a ray direction and an outward normal. */
  function FaceNormal(direction: Vec3, outward: Vec3): (r: (bool, Vec3))
    ensures r.0 <==> DotOf(direction, outward) < 0.0
    ensures r.1 == if r.0 then outward else Neg(outward)
  {
    var frontFace := DotOf(direction, outward) < 0.0;
    (frontFace, if frontFace then outward else Neg(outward))
  }

  /** The stored normal never points along the ray. */
  lemma FaceNormalOpposesRay(direction: Vec3, outward: Vec3)
    ensures DotOf(FaceNormal(direction, outward).1, direction) <= 0.0
  {
    DotSymmetric(outward, direction);
    DotNegLeft(outward, direction);
  }

  /**
   * Flipping the outward normal of a surface the ray does not graze keeps
   * the stored normal and reports the other side.
   */
  lemma FaceNormalFlip(direction: Vec3, outward: Vec3)
    requires DotOf(direction, outward) != 0.0
    ensures FaceNormal(direction, Neg(outward)).1 == FaceNormal(direction, outward).1
    ensures FaceNormal(direction, Neg(outward)).0 == !FaceNormal(direction, outward).0
  {
    DotSymmetric(direction, outward);
    DotSymmetric(direction, Neg(outward));
    DotNegLeft(outward, direction);
    NegInvolutive(outward);
  }

  class HitRecord {
    var point: Vec3
    var normal: Vec3
    var t: real
    var frontFace: bool

    /** A record whose fields have not been written: their values are unknown. */
    constructor ()
    {
    }

    /** The fields as a value. */
    function Value(): (h: Hit)
      reads this
      ensures h.point == point && h.normal == normal && h.t == t && h.frontFace == frontFace
    {
      Hit(point, normal, t, frontFace)
    }

    /** `set_face_normal(light, outward_normal)`: `front_face` and `normal` change, nothing else. */
    method SetFaceNormal(light: Ray, outward: Vec3)
      modifies this
      ensures (frontFace, normal) == FaceNormal(light.direction, outward)
      ensures point == old(point) && t == old(t)
    {
      frontFace := DotOf(light.direction, outward) < 0.0;
      normal := if frontFace then outward else Neg(outward);
    }

    /** The copy assignment `rec = other`. */
    method Assign(h: Hit)
      modifies this
      ensures Value() == h
    {
      point, normal, t, frontFace := h.point, h.normal, h.t, h.frontFace;
    }
  }
}
