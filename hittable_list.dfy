/**
 * `HittableList` of hittable_list.hh: an ordered list of objects (spheres
 * here) queried one after the other with an upper bound that shrinks to the
 * parameter of the last hit, so that the record handed back is the closest
 * hit along the ray.
 */
module HittableLists {
  import opened Wrappers
  import opened Vectors
  import opened Rays
  import opened Intervals
  import opened Hittables
  import opened Spheres

  /** Every member can compute its normal: no sphere has radius zero. */
  predicate ValidObjects(objects: seq<Sphere>)
  {
    forall i :: 0 <= i < |objects| ==> objects[i].radius != 0.0
  }

  /** `closest_so_far`: the parameter of the last hit, or the interval's own upper end before any hit. */
  function Closest(range: Interval, last: Option<Hit>): ExtReal
  {
    if last.Some? then Finite(last.value.t) else range.max
  }

  /**
   * The record `rec` holds after the loop has visited the first k members
   * (None while `hit_anything` is false): member k - 1 is queried over
   * `(range.min, closest_so_far)` and, if it reports a hit, its record
   * replaces the previous one.
   */
  function Scan(objects: seq<Sphere>, light: Ray, range: Interval, sqrt: real -> real, k: nat): Option<Hit>
    requires ValidObjects(objects) && k <= |objects|
  {
    if k == 0 then None
    else
      var last := Scan(objects, light, range, sqrt, k - 1);
      var h := SphereHit(objects[k - 1], light, Interval(range.min, Closest(range, last)), sqrt);
      if h.Some? then h else last
  }

  /** What `hit` reports for the whole list. */
  function ListHit(objects: seq<Sphere>, light: Ray, range: Interval, sqrt: real -> real): Option<Hit>
    requires ValidObjects(objects)
  {
    Scan(objects, light, range, sqrt, |objects|)
  }

  class HittableList {
    var objects: seq<Sphere>

    predicate Valid()
      reads this
    {
      ValidObjects(objects)
    }

    /** The default constructor: no objects. */
    constructor ()
      ensures objects == []
    {
      objects := [];
    }

    /** `HittableList(object)`: a list holding one object. */
    constructor Single(item: Sphere)
      ensures objects == [item]
    {
      objects := [item];
    }

    /** `clear()`. */
    method Clear()
      modifies this
      ensures objects == []
    {
      objects := [];
    }

    /** `add(object)`: appended at the end, earlier members kept in order. */
    method Add(item: Sphere)
      modifies this
      ensures objects == old(objects) + [item]
    {
      objects := objects + [item];
    }

    /**
     * `hit(light, ray_range, rec)`: true exactly when some member reported a
     * hit; `rec` is then the record of the last member that did, and is left
     * untouched otherwise.
     */
    method Hit(light: Ray, range: Interval, rec: HitRecord, sqrt: real -> real) returns (hitAnything: bool)
      requires Valid()
      modifies rec
      ensures hitAnything <==> ListHit(objects, light, range, sqrt).Some?
      ensures hitAnything ==> rec.Value() == ListHit(objects, light, range, sqrt).value
      ensures !hitAnything ==> rec.Value() == old(rec.Value())
    {
      // The loop needs only the contract of `SphereHit`, not how the roots are found.
      hide SphereHit, Root, HitAt;
      var tempRec := new HitRecord();
      hitAnything := false;
      var closest := range.max;
      var i := 0;
      while i < |objects|
        invariant 0 <= i <= |objects|
        invariant hitAnything == Scan(objects, light, range, sqrt, i).Some?
        invariant rec.Value() == if hitAnything then Scan(objects, light, range, sqrt, i).value else old(rec.Value())
        invariant closest == Closest(range, Scan(objects, light, range, sqrt, i))
      {
        var h := HitSphere(objects[i], light, MakeInterval(range.min, closest), tempRec, sqrt);
        if h {
          hitAnything := true;
          closest := Finite(tempRec.t);
          rec.Assign(tempRec.Value());
        }
        i := i + 1;
      }
    }
  }

  // ---------------------------------------------------------------------
  // Properties
  // ---------------------------------------------------------------------

  /**
   * The upper bound of the queries never increases and never leaves the
   * interval, and every accepted parameter lies strictly inside `ray_range`.
   */
  lemma {:induction false} ScanBounded(objects: seq<Sphere>, light: Ray, range: Interval, sqrt: real -> real, k: nat)
    requires ValidObjects(objects) && k <= |objects|
    ensures AtMost(Closest(range, Scan(objects, light, range, sqrt, k)), range.max)
    ensures Scan(objects, light, range, sqrt, k).Some? ==> range.Surrounds(Scan(objects, light, range, sqrt, k).value.t)
  {
    if k > 0 {
      ScanBounded(objects, light, range, sqrt, k - 1);
      var last := Scan(objects, light, range, sqrt, k - 1);
      var query := Interval(range.min, Closest(range, last));
      var h := SphereHit(objects[k - 1], light, query, sqrt);
      if h.Some? {
        HitNormalOpposesRay(objects[k - 1], light, query, sqrt);
        assert query.Surrounds(h.value.t);
      }
    }
  }

  /** Each member that reports a hit lowers the upper bound strictly. */
  lemma ClosestDecreases(objects: seq<Sphere>, light: Ray, range: Interval, sqrt: real -> real, k: nat)
    requires ValidObjects(objects) && 0 < k <= |objects|
    ensures var last := Scan(objects, light, range, sqrt, k - 1);
            var next := Scan(objects, light, range, sqrt, k);
            next == last || (next.Some? && Less(Finite(next.value.t), Closest(range, last)))
  {
    var last := Scan(objects, light, range, sqrt, k - 1);
    var query := Interval(range.min, Closest(range, last));
    var h := SphereHit(objects[k - 1], light, query, sqrt);
    if h.Some? {
      HitNormalOpposesRay(objects[k - 1], light, query, sqrt);
    }
  }

  /**
   * The closest hit: with a square root that is never negative, the list
   * hits exactly when some member hits over the whole of `ray_range`, and the
   * record is that of a member whose own root is the smallest of all.  Ties
   * go to the earliest such member: a later member is queried over an
   * interval open at the current closest parameter.
   */
  lemma {:induction false} ScanClosest(objects: seq<Sphere>, light: Ray, range: Interval, sqrt: real -> real, k: nat)
    requires RootsNonNegative(sqrt)
    requires ValidObjects(objects) && k <= |objects|
    ensures Scan(objects, light, range, sqrt, k).Some? <==>
            exists i :: 0 <= i < k && Root(objects[i], light, range, sqrt).Some?
    ensures Scan(objects, light, range, sqrt, k).Some? ==>
            forall i :: 0 <= i < k && Root(objects[i], light, range, sqrt).Some? ==>
              Scan(objects, light, range, sqrt, k).value.t <= Root(objects[i], light, range, sqrt).value
    ensures Scan(objects, light, range, sqrt, k).Some? ==>
            exists i :: 0 <= i < k && Root(objects[i], light, range, sqrt) == Some(Scan(objects, light, range, sqrt, k).value.t) &&
              Scan(objects, light, range, sqrt, k).value == HitAt(objects[i], light, Scan(objects, light, range, sqrt, k).value.t) &&
              forall j :: 0 <= j < i ==> Root(objects[j], light, range, sqrt) != Some(Scan(objects, light, range, sqrt, k).value.t)
  {
    hide SphereHit, Root, HitAt;
    if k > 0 {
      ScanClosest(objects, light, range, sqrt, k - 1);
      ScanBounded(objects, light, range, sqrt, k - 1);
      var s := objects[k - 1];
      var last := Scan(objects, light, range, sqrt, k - 1);
      var full := Root(s, light, range, sqrt);
      if last.Some? {
        RootBelow(s, light, range.min, range.max, last.value.t, sqrt);
        assert Interval(range.min, Closest(range, last)) == Interval(range.min, Finite(last.value.t));
      } else {
        assert Interval(range.min, Closest(range, last)) == range;
      }
    }
  }

  /**
   * The whole-list form of the closest-hit property: the record is that of
   * the first member whose root over `ray_range` is the smallest.
   */
  lemma ListHitClosest(objects: seq<Sphere>, light: Ray, range: Interval, sqrt: real -> real)
    requires RootsNonNegative(sqrt) && ValidObjects(objects)
    ensures ListHit(objects, light, range, sqrt).Some? <==>
            exists i :: 0 <= i < |objects| && Root(objects[i], light, range, sqrt).Some?
    ensures ListHit(objects, light, range, sqrt).Some? ==>
            range.Surrounds(ListHit(objects, light, range, sqrt).value.t) &&
            forall i :: 0 <= i < |objects| && Root(objects[i], light, range, sqrt).Some? ==>
              ListHit(objects, light, range, sqrt).value.t <= Root(objects[i], light, range, sqrt).value
    ensures ListHit(objects, light, range, sqrt).Some? ==>
            exists i :: 0 <= i < |objects| && Root(objects[i], light, range, sqrt) == Some(ListHit(objects, light, range, sqrt).value.t) &&
              ListHit(objects, light, range, sqrt).value == HitAt(objects[i], light, ListHit(objects, light, range, sqrt).value.t) &&
              forall j :: 0 <= j < i ==> Root(objects[j], light, range, sqrt) != Some(ListHit(objects, light, range, sqrt).value.t)
  {
    ScanClosest(objects, light, range, sqrt, |objects|);
    ScanBounded(objects, light, range, sqrt, |objects|);
  }

  /** An empty list hits nothing; a one-object list hits as its object does. */
  lemma ListHitSmall(s: Sphere, light: Ray, range: Interval, sqrt: real -> real)
    requires s.radius != 0.0
    ensures ListHit([], light, range, sqrt) == None
    ensures ListHit([s], light, range, sqrt) == SphereHit(s, light, range, sqrt)
  {
    assert Scan([s], light, range, sqrt, 0) == None;
  }
}
