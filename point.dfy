/**
 * `Point3<T>` and `Point2<T>` of point.hh, at T = int: a point IS a
 * `Vector<T, 3>` (resp. `Vector<T, 2>`) whose components are also reachable
 * by name. The base-class object is the field `v`, so every vector
 * operation of IntVectors applies to `p.v`; the named accessors read and
 * write `v.e[0]`, `v.e[1]`, `v.e[2]` in place and touch nothing else.
 */
module Points {
  import IntVectors

  class Point3 {
    const v: IntVectors.Vector

    ghost predicate Valid()
      reads this, v
    {
      v.e.Length == 3
    }

    /** `Point3()`: the origin. */
    constructor Origin()
      ensures Valid() && fresh(v) && fresh(v.e) && v.e[..] == [0, 0, 0]
    {
      v := new IntVectors.Vector([0, 0, 0]);
    }

    /** `Point3(x, y, z)`. */
    constructor (x: int, y: int, z: int)
      ensures Valid() && fresh(v) && fresh(v.e)
      ensures X() == x && Y() == y && Z() == z
    {
      v := new IntVectors.Vector([x, y, z]);
    }

    /** `Point3(const Vector<T, 3>&)` and the copy constructor: the components are copied. */
    constructor FromVector(w: IntVectors.Vector)
      requires w.e.Length == 3
      ensures Valid() && fresh(v) && fresh(v.e) && v.e[..] == w.e[..]
    {
      v := new IntVectors.Vector(w.e[..]);
    }

    function X(): (x: int)
      requires Valid()
      reads this, v, v.e
      ensures x == v.e[..][0]
    {
      v.e[0]
    }

    function Y(): (y: int)
      requires Valid()
      reads this, v, v.e
      ensures y == v.e[..][1]
    {
      v.e[1]
    }

    function Z(): (z: int)
      requires Valid()
      reads this, v, v.e
      ensures z == v.e[..][2]
    {
      v.e[2]
    }

    /** Assignment through the reference `x()` returns. */
    method SetX(x: int)
      requires Valid()
      modifies v.e
      ensures Valid() && X() == x && Y() == old(Y()) && Z() == old(Z())
    {
      v.e[0] := x;
    }

    method SetY(y: int)
      requires Valid()
      modifies v.e
      ensures Valid() && X() == old(X()) && Y() == y && Z() == old(Z())
    {
      v.e[1] := y;
    }

    method SetZ(z: int)
      requires Valid()
      modifies v.e
      ensures Valid() && X() == old(X()) && Y() == old(Y()) && Z() == z
    {
      v.e[2] := z;
    }
  }

  class Point2 {
    const v: IntVectors.Vector

    ghost predicate Valid()
      reads this, v
    {
      v.e.Length == 2
    }

    /** `Point2()`: the origin. */
    constructor Origin()
      ensures Valid() && fresh(v) && fresh(v.e) && v.e[..] == [0, 0]
    {
      v := new IntVectors.Vector([0, 0]);
    }

    /** `Point2(x, y)`. */
    constructor (x: int, y: int)
      ensures Valid() && fresh(v) && fresh(v.e)
      ensures X() == x && Y() == y
    {
      v := new IntVectors.Vector([x, y]);
    }

    /** `Point2(const Vector<T, 2>&)` and the copy constructor. */
    constructor FromVector(w: IntVectors.Vector)
      requires w.e.Length == 2
      ensures Valid() && fresh(v) && fresh(v.e) && v.e[..] == w.e[..]
    {
      v := new IntVectors.Vector(w.e[..]);
    }

    function X(): (x: int)
      requires Valid()
      reads this, v, v.e
      ensures x == v.e[..][0]
    {
      v.e[0]
    }

    function Y(): (y: int)
      requires Valid()
      reads this, v, v.e
      ensures y == v.e[..][1]
    {
      v.e[1]
    }

    method SetX(x: int)
      requires Valid()
      modifies v.e
      ensures Valid() && X() == x && Y() == old(Y())
    {
      v.e[0] := x;
    }

    method SetY(y: int)
      requires Valid()
      modifies v.e
      ensures Valid() && X() == old(X()) && Y() == y
    {
      v.e[1] := y;
    }
  }

  /** `p += d` on a point, inherited from the vector base class: each named component moves by d. */
  method Translate(p: Point3, d: IntVectors.Vector)
    requires p.Valid() && d.e.Length == 3
    modifies p.v.e
    ensures p.Valid()
    ensures p.X() == old(p.X() + d.e[0]) && p.Y() == old(p.Y() + d.e[1]) && p.Z() == old(p.Z() + d.e[2])
  {
    p.v.AddAssign(d);
  }
}
