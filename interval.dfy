/**
 * `Interval` of interval.hh: a pair of `real` endpoints, which may be the
 * infinities, with inclusive (`contains`) and strict (`surrounds`)
 * membership, emptiness and `std::clamp`. The values tested against an
 * interval are finite reals; the endpoints are extended reals.
 */
module Intervals {

  /** A `double` that is finite or one of the two infinities (NaN is not modelled). */
  datatype ExtReal = NegInf | Finite(value: real) | PosInf

  /** `a < b` on extended reals. */
  predicate Less(a: ExtReal, b: ExtReal)
  {
    match a
    case NegInf => b != NegInf
    case Finite(x) => b == PosInf || (b.Finite? && x < b.value)
    case PosInf => false
  }

  /** `a <= b` on extended reals, defined on its own. */
  predicate AtMost(a: ExtReal, b: ExtReal)
  {
    a == NegInf || b == PosInf || (a.Finite? && b.Finite? && a.value <= b.value)
  }

  /** The order is total: `a < b` fails exactly when `b <= a`. */
  lemma NotLessIsAtMost(a: ExtReal, b: ExtReal)
    ensures !Less(a, b) <==> AtMost(b, a)
  {
  }

  datatype Interval = Interval(min: ExtReal, max: ExtReal)
  {
    /** `contains(value)`: not below `min` and not above `max`. */
    predicate Contains(x: real)
    {
      !(Less(Finite(x), min) || Less(max, Finite(x)))
    }

    /** `surrounds(value)`: strictly between the endpoints. */
    predicate Surrounds(x: real)
    {
      Less(min, Finite(x)) && Less(Finite(x), max)
    }

    /** `is_empty()`. */
    predicate IsEmpty()
    {
      Less(max, min)
    }

    /**
     * `clamp(value)`, which is `std::clamp(value, min, max)`: `min` when the
     * value is below it, else `max` when the value is above it, else the value.
     * `std::clamp` requires `min` not to exceed `max`.
     */
    function Clamp(x: real): (r: ExtReal)
      requires !IsEmpty()
      ensures AtMost(min, r) && AtMost(r, max)
      ensures Contains(x) <==> r == Finite(x)
    {
      if Less(Finite(x), min) then min
      else if Less(max, Finite(x)) then max
      else Finite(x)
    }
  }

  /** `make_interval(min, max)`. */
  function MakeInterval(min: ExtReal, max: ExtReal): (i: Interval)
    ensures i.min == min && i.max == max
  {
    Interval(min, max)
  }

  /** `make_interval(value)`: the interval holding one value. */
  function MakePoint(value: real): (i: Interval)
    ensures i.Contains(value) && !i.IsEmpty()
    ensures forall x :: !i.Surrounds(x)
    ensures forall x :: i.Contains(x) <==> x == value
  {
    MakeInterval(Finite(value), Finite(value))
  }

  /** `EmptyInterval`: from +infinity down to -infinity. */
  const Empty: Interval := MakeInterval(PosInf, NegInf)

  /** `UniverseInterval`: from -infinity up to +infinity. */
  const Universe: Interval := MakeInterval(NegInf, PosInf)

  /** `contains` is the inclusive test min <= x <= max. */
  lemma ContainsBetween(i: Interval, x: real)
    ensures i.Contains(x) <==> AtMost(i.min, Finite(x)) && AtMost(Finite(x), i.max)
  {
    NotLessIsAtMost(Finite(x), i.min);
    NotLessIsAtMost(i.max, Finite(x));
  }

  /** Strict membership implies inclusive membership. */
  lemma SurroundsContains(i: Interval, x: real)
    requires i.Surrounds(x)
    ensures i.Contains(x)
  {
  }

  /** An empty interval contains nothing. */
  lemma EmptyContainsNothing(i: Interval, x: real)
    requires i.IsEmpty()
    ensures !i.Contains(x)
  {
  }

  /**
   * `is_empty` holds exactly when the interval contains no finite value,
   * unless both endpoints are the same infinity: [+inf, +inf] is not empty
   * yet holds no finite value.
   */
  lemma EmptyIffNoMember(i: Interval)
    requires i.min != PosInf && i.max != NegInf
    ensures i.IsEmpty() <==> forall x :: !i.Contains(x)
  {
    if !i.IsEmpty() {
      var x := Witness(i);
      assert i.Contains(x);
    }
  }

  /** A finite value in a non-empty interval. */
  function Witness(i: Interval): (x: real)
    requires !i.IsEmpty() && i.min != PosInf && i.max != NegInf
    ensures i.Contains(x)
  {
    match (i.min, i.max)
    case (Finite(a), _) => a
    case (_, Finite(b)) => b
    case (_, _) => 0.0
  }

  /** `EmptyInterval` is empty, `UniverseInterval` holds every finite value, strictly. */
  lemma EmptyAndUniverse(x: real)
    ensures Empty.IsEmpty() && !Empty.Contains(x)
    ensures !Universe.IsEmpty() && Universe.Contains(x) && Universe.Surrounds(x)
  {
  }

  /** Clamping is idempotent: a clamped finite value clamps to itself. */
  lemma ClampIdempotent(i: Interval, x: real)
    requires !i.IsEmpty()
    ensures i.Clamp(x).Finite? ==> i.Clamp(i.Clamp(x).value) == i.Clamp(x)
  {
    var r := i.Clamp(x);
    if r.Finite? {
      ContainsBetween(i, r.value);
    }
  }
}
