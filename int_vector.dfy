/**
 * The element-generic vector of vector.hh, `Vector<T, D>`, at the element
 * type its tests use, `int`: a zero-initialised array `e` of D components,
 * compound assignments that update it in place, `length_squared`, `dot`,
 * `cross`, `length`/`normalize`, and the free operators, which either fill a
 * zero-initialised result in a loop or copy the left operand and apply a
 * compound assignment.
 *
 * Integer division is C++'s: the quotient is truncated toward zero, which
 * differs from Dafny's Euclidean `/` when an operand is negative.
 */
module IntVectors {

  // ---------------------------------------------------------------------
  // C++ integer arithmetic
  // ---------------------------------------------------------------------

  function IntAbs(x: int): (r: nat)
    ensures r == x || r == -x
  {
    if x < 0 then -x else x
  }

  /** C++ `a / b` on `int`: the magnitude is |a| / |b| rounded down, the sign that of a * b. */
  function TruncDiv(a: int, b: int): (q: int)
    requires b != 0
    ensures 0 <= a && 0 < b ==> q == a / b
    ensures IntAbs(q) <= IntAbs(a)
  {
    var m := IntAbs(a) / IntAbs(b);
    DivNoLarger(IntAbs(a), IntAbs(b));
    if (a < 0) == (b < 0) then m else -m
  }

  lemma MulAtLeast(y: int, d: int)
    requires y >= 1 && d >= 1
    ensures y * d >= y
  {
    assert y * d == y + y * (d - 1);
  }

  lemma DivNoLarger(x: nat, y: nat)
    requires y > 0
    ensures 0 <= x / y <= x
  {
    var q, r := x / y, x % y;
    assert x == y * q + r && 0 <= r < y;
    if q > 0 {
      MulAtLeast(q, y);
      assert y * q == q * y;
    }
  }

  /** Dividing a multiple of t by t gives the factor back exactly. */
  lemma TruncDivOfMultiple(a: int, t: int)
    requires t != 0
    ensures TruncDiv(a * t, t) == a
  {
    AbsOfProduct(a, t);
    MultipleDiv(IntAbs(a), IntAbs(t));
  }

  lemma MultipleDiv(x: nat, y: nat)
    requires y > 0
    ensures (x * y) / y == x
  {
    var q, r := (x * y) / y, (x * y) % y;
    assert x * y == y * q + r && 0 <= r < y;
    assert y * (x - q) == r;
    if x - q >= 1 {
      MulAtLeast(y, x - q);
    }
  }

  lemma AbsOfProduct(a: int, t: int)
    ensures IntAbs(a * t) == IntAbs(a) * IntAbs(t)
    ensures a * t < 0 <==> (a < 0 && t > 0) || (a > 0 && t < 0)
  {
    if a < 0 && t < 0 {
      assert a * t == (-a) * (-t);
    } else if a < 0 {
      assert a * t == -((-a) * t);
    } else if t < 0 {
      assert a * t == -(a * (-t));
    }
  }

  /** Truncation toward zero is symmetric in the sign of the dividend, unlike Euclidean division. */
  lemma TruncDivOddNegative()
    ensures TruncDiv(-1, 2) == 0 && -1 / 2 == -1
    ensures TruncDiv(-3, 2) == -1 && TruncDiv(3, -2) == -1
  {
  }

  // ---------------------------------------------------------------------
  // Vector values
  // ---------------------------------------------------------------------

  function Zero(d: nat): (r: seq<int>)
    ensures |r| == d && forall i :: 0 <= i < d ==> r[i] == 0
  {
    seq(d, i => 0)
  }

  function Add(v: seq<int>, w: seq<int>): (r: seq<int>)
    requires |v| == |w|
    ensures |r| == |v| && forall i :: 0 <= i < |v| ==> r[i] == v[i] + w[i]
  {
    seq(|v|, i requires 0 <= i < |v| => v[i] + w[i])
  }

  function Sub(v: seq<int>, w: seq<int>): (r: seq<int>)
    requires |v| == |w|
    ensures |r| == |v| && forall i :: 0 <= i < |v| ==> r[i] == v[i] - w[i]
  {
    seq(|v|, i requires 0 <= i < |v| => v[i] - w[i])
  }

  /** The component-wise product. */
  function Mul(v: seq<int>, w: seq<int>): (r: seq<int>)
    requires |v| == |w|
    ensures |r| == |v| && forall i :: 0 <= i < |v| ==> r[i] == v[i] * w[i]
  {
    seq(|v|, i requires 0 <= i < |v| => v[i] * w[i])
  }

  function Scale(v: seq<int>, t: int): (r: seq<int>)
    ensures |r| == |v| && forall i :: 0 <= i < |v| ==> r[i] == v[i] * t
  {
    seq(|v|, i requires 0 <= i < |v| => v[i] * t)
  }

  /** Every component divided by t with C++ truncation. */
  function Quot(v: seq<int>, t: int): (r: seq<int>)
    requires t != 0
    ensures |r| == |v| && forall i :: 0 <= i < |v| ==> r[i] == TruncDiv(v[i], t)
  {
    seq(|v|, i requires 0 <= i < |v| => TruncDiv(v[i], t))
  }

  /** The sum of the first k products `v[i] * w[i]`: what the loop of `dot` holds after k rounds. */
  function PartialDot(v: seq<int>, w: seq<int>, k: nat): int
    requires |v| == |w| && k <= |v|
  {
    if k == 0 then 0 else PartialDot(v, w, k - 1) + v[k - 1] * w[k - 1]
  }

  function DotOf(v: seq<int>, w: seq<int>): int
    requires |v| == |w|
  {
    PartialDot(v, w, |v|)
  }

  function LengthSquaredOf(v: seq<int>): int
  {
    DotOf(v, v)
  }

  function Cross(v: seq<int>, w: seq<int>): (r: seq<int>)
    requires |v| == |w| == 3
    ensures |r| == 3
  {
    [v[1] * w[2] - v[2] * w[1],
     v[2] * w[0] - v[0] * w[2],
     v[0] * w[1] - v[1] * w[0]]
  }

  /**
   * `sqrt` applied to an `int` and converted back to `int`: the conversion
   * truncates, so for a non-negative argument the result is the largest
   * integer whose square does not exceed it.
   */
  ghost predicate IsIntSqrt(root: int -> int)
  {
    forall n :: 0 <= n ==> 0 <= root(n) && root(n) * root(n) <= n < (root(n) + 1) * (root(n) + 1)
  }

  // ---------------------------------------------------------------------
  // Properties
  // ---------------------------------------------------------------------

  lemma {:induction false} PartialSquaresNonNegative(v: seq<int>, k: nat)
    requires k <= |v|
    ensures PartialDot(v, v, k) >= 0
  {
    if k > 0 {
      PartialSquaresNonNegative(v, k - 1);
    }
  }

  /** `length_squared()` is never negative. */
  lemma LengthSquaredNonNegative(v: seq<int>)
    ensures LengthSquaredOf(v) >= 0
  {
    PartialSquaresNonNegative(v, |v|);
  }

  lemma {:induction false} PartialDotSymmetric(v: seq<int>, w: seq<int>, k: nat)
    requires |v| == |w| && k <= |v|
    ensures PartialDot(v, w, k) == PartialDot(w, v, k)
  {
    if k > 0 {
      PartialDotSymmetric(v, w, k - 1);
    }
  }

  lemma DotSymmetric(v: seq<int>, w: seq<int>)
    requires |v| == |w|
    ensures DotOf(v, w) == DotOf(w, v)
  {
    PartialDotSymmetric(v, w, |v|);
  }

  lemma Dot3(v: seq<int>, w: seq<int>)
    requires |v| == |w| == 3
    ensures DotOf(v, w) == v[0] * w[0] + v[1] * w[1] + v[2] * w[2]
  {
    assert PartialDot(v, w, 1) == v[0] * w[0];
    assert PartialDot(v, w, 2) == PartialDot(v, w, 1) + v[1] * w[1];
  }

  /** The cross product is orthogonal to both operands. */
  lemma CrossOrthogonal(v: seq<int>, w: seq<int>)
    requires |v| == |w| == 3
    ensures DotOf(Cross(v, w), v) == 0 && DotOf(Cross(v, w), w) == 0
  {
    Dot3(Cross(v, w), v);
    Dot3(Cross(v, w), w);
  }

  /** `v1 += v2; v1 -= v2` leaves v1 as it was. */
  lemma AddThenSub(a: seq<int>, b: seq<int>)
    requires |a| == |b|
    ensures Sub(Add(a, b), b) == a
  {
  }

  /** `v *= t; v /= t` leaves v as it was whenever t is not zero. */
  lemma ScaleThenQuot(v: seq<int>, t: int)
    requires t != 0
    ensures Quot(Scale(v, t), t) == v
  {
    forall i | 0 <= i < |v| ensures Quot(Scale(v, t), t)[i] == v[i] {
      TruncDivOfMultiple(v[i], t);
    }
  }

  /** The arithmetic of the unit tests, with (1, 2, 3) and (4, 5, 6), (3, 4, 0) and (5, 12, 13). */
  lemma TestExamples()
    ensures Add([1, 2, 3], [4, 5, 6]) == [5, 7, 9]
    ensures Sub([1, 2, 3], [4, 5, 6]) == [-3, -3, -3]
    ensures Scale([1, 2, 3], 2) == [2, 4, 6]
    ensures Quot([1, 2, 3], 2) == [0, 1, 1]
    ensures Quot([2, 4, 6], 2) == [1, 2, 3]
    ensures DotOf([3, 4, 0], [5, 12, 13]) == 63
    ensures Cross([3, 4, 0], [5, 12, 13]) == [52, -39, 16]
    ensures LengthSquaredOf([3, 4, 0]) == 25
  {
    Dot3([3, 4, 0], [5, 12, 13]);
    Dot3([3, 4, 0], [3, 4, 0]);
  }

  /** `length()` of an integer vector is the truncated root of `length_squared()`. */
  lemma LengthBounds(v: seq<int>, root: int -> int)
    requires IsIntSqrt(root)
    ensures var l := root(LengthSquaredOf(v));
            0 <= l && l * l <= LengthSquaredOf(v) < (l + 1) * (l + 1)
  {
    LengthSquaredNonNegative(v);
  }

  // ---------------------------------------------------------------------
  // The object: `T e[D]{}` updated in place
  // ---------------------------------------------------------------------

  class Vector {
    const e: array<int>

    /** `Vector()`: the brace-initialised array holds zeros. */
    constructor Default(d: nat)
      ensures fresh(e) && e[..] == Zero(d)
    {
      e := new int[d](i => 0);
    }

    /** `Vector(args...)` (through `initializeElements`, first argument first) and the copy constructor. */
    constructor (s: seq<int>)
      ensures fresh(e) && e[..] == s
    {
      e := new int[|s|](i requires 0 <= i < |s| => s[i]);
    }

    /** `operator[]` read through the const overload. */
    function At(i: nat): (x: int)
      requires i < e.Length
      reads e
      ensures x == e[..][i]
    {
      e[i]
    }

    /** `operator[]` written through the returned reference. */
    method Set(i: nat, x: int)
      requires i < e.Length
      modifies e
      ensures e[..] == old(e[..])[i := x]
    {
      e[i] := x;
    }

    /** `size()`. */
    function Size(): (d: nat)
      ensures d == e.Length
    {
      e.Length
    }

    /** `operator+=`; `v` may be this vector itself. */
    method AddAssign(v: Vector)
      requires v.e.Length == e.Length
      modifies e
      ensures e[..] == Add(old(e[..]), old(v.e[..]))
    {
      var i := 0;
      while i < e.Length
        invariant 0 <= i <= e.Length
        invariant forall k :: 0 <= k < i ==> e[k] == old(e[k]) + old(v.e[k])
        invariant forall k :: i <= k < e.Length ==> e[k] == old(e[k]) && v.e[k] == old(v.e[k])
      {
        e[i] := e[i] + v.e[i];
        i := i + 1;
      }
    }

    /** `operator-=`. */
    method SubAssign(v: Vector)
      requires v.e.Length == e.Length
      modifies e
      ensures e[..] == Sub(old(e[..]), old(v.e[..]))
    {
      var i := 0;
      while i < e.Length
        invariant 0 <= i <= e.Length
        invariant forall k :: 0 <= k < i ==> e[k] == old(e[k]) - old(v.e[k])
        invariant forall k :: i <= k < e.Length ==> e[k] == old(e[k]) && v.e[k] == old(v.e[k])
      {
        e[i] := e[i] - v.e[i];
        i := i + 1;
      }
    }

    /** `operator*=(const Vector&)`: component-wise product. */
    method MulAssign(v: Vector)
      requires v.e.Length == e.Length
      modifies e
      ensures e[..] == Mul(old(e[..]), old(v.e[..]))
    {
      var i := 0;
      while i < e.Length
        invariant 0 <= i <= e.Length
        invariant forall k :: 0 <= k < i ==> e[k] == old(e[k]) * old(v.e[k])
        invariant forall k :: i <= k < e.Length ==> e[k] == old(e[k]) && v.e[k] == old(v.e[k])
      {
        e[i] := e[i] * v.e[i];
        i := i + 1;
      }
    }

    /** `operator*=(const T&)`. */
    method ScaleAssign(t: int)
      modifies e
      ensures e[..] == Scale(old(e[..]), t)
    {
      var i := 0;
      while i < e.Length
        invariant 0 <= i <= e.Length
        invariant forall k :: 0 <= k < i ==> e[k] == old(e[k]) * t
        invariant forall k :: i <= k < e.Length ==> e[k] == old(e[k])
      {
        e[i] := e[i] * t;
        i := i + 1;
      }
    }

    /** `operator/=(const T&)`; a zero divisor is undefined behaviour in C++. */
    method DivAssign(t: int)
      requires t != 0
      modifies e
      ensures e[..] == Quot(old(e[..]), t)
    {
      var i := 0;
      while i < e.Length
        invariant 0 <= i <= e.Length
        invariant forall k :: 0 <= k < i ==> e[k] == TruncDiv(old(e[k]), t)
        invariant forall k :: i <= k < e.Length ==> e[k] == old(e[k])
      {
        e[i] := TruncDiv(e[i], t);
        i := i + 1;
      }
    }

    /** `length_squared()`: the squares summed in a loop. */
    method LengthSquared() returns (sum: int)
      ensures sum == LengthSquaredOf(e[..]) && sum >= 0
    {
      sum := 0;
      var i := 0;
      while i < e.Length
        invariant 0 <= i <= e.Length
        invariant sum == PartialDot(e[..], e[..], i)
      {
        sum := sum + e[i] * e[i];
        i := i + 1;
      }
      LengthSquaredNonNegative(e[..]);
    }

    /** `dot(v)`. */
    method Dot(v: Vector) returns (sum: int)
      requires v.e.Length == e.Length
      ensures sum == DotOf(e[..], v.e[..])
    {
      sum := 0;
      var i := 0;
      while i < e.Length
        invariant 0 <= i <= e.Length
        invariant sum == PartialDot(e[..], v.e[..], i)
      {
        sum := sum + e[i] * v.e[i];
        i := i + 1;
      }
    }

    /** `cross(v)`, defined for three components only. */
    method CrossWith(v: Vector) returns (c: Vector)
      requires e.Length == v.e.Length == 3
      ensures fresh(c.e) && c.e[..] == Cross(e[..], v.e[..])
    {
      c := new Vector([e[1] * v.e[2] - e[2] * v.e[1],
                       e[2] * v.e[0] - e[0] * v.e[2],
                       e[0] * v.e[1] - e[1] * v.e[0]]);
    }

    /** `length()`: the root of `length_squared()`, truncated to `int`. */
    method Length(root: int -> int) returns (l: int)
      ensures l == root(LengthSquaredOf(e[..]))
    {
      var s := LengthSquared();
      l := root(s);
    }

    /** `normalize()`: divides in place by `length()`, which must not be zero. */
    method Normalize(root: int -> int)
      requires root(LengthSquaredOf(e[..])) != 0
      modifies e
      ensures e[..] == Quot(old(e[..]), root(LengthSquaredOf(old(e[..]))))
    {
      var l := Length(root);
      DivAssign(l);
    }

    /** `normalized()`: a copy divided by `length()`; this vector is left as it is. */
    method Normalized(root: int -> int) returns (unit: Vector)
      requires root(LengthSquaredOf(e[..])) != 0
      ensures fresh(unit.e) && unit.e[..] == Quot(e[..], root(LengthSquaredOf(e[..])))
    {
      var l := Length(root);
      unit := new Vector(e[..]);
      unit.DivAssign(l);
    }
  }

  // ---------------------------------------------------------------------
  // Free operators
  // ---------------------------------------------------------------------

  /** `operator+(v1, v2)`: a zero vector filled component by component. */
  method Plus(v1: Vector, v2: Vector) returns (sum: Vector)
    requires v1.e.Length == v2.e.Length
    ensures fresh(sum.e) && sum.e[..] == Add(v1.e[..], v2.e[..])
  {
    sum := new Vector.Default(v1.e.Length);
    var i := 0;
    while i < v1.e.Length
      invariant 0 <= i <= v1.e.Length
      invariant forall k :: 0 <= k < i ==> sum.e[k] == v1.e[k] + v2.e[k]
    {
      sum.e[i] := v1.e[i] + v2.e[i];
      i := i + 1;
    }
  }

  /** `operator-(v1, v2)`. */
  method Minus(v1: Vector, v2: Vector) returns (diff: Vector)
    requires v1.e.Length == v2.e.Length
    ensures fresh(diff.e) && diff.e[..] == Sub(v1.e[..], v2.e[..])
  {
    diff := new Vector.Default(v1.e.Length);
    var i := 0;
    while i < v1.e.Length
      invariant 0 <= i <= v1.e.Length
      invariant forall k :: 0 <= k < i ==> diff.e[k] == v1.e[k] - v2.e[k]
    {
      diff.e[i] := v1.e[i] - v2.e[i];
      i := i + 1;
    }
  }

  /** `operator*(v1, v2)`: component-wise product. */
  method Product(v1: Vector, v2: Vector) returns (prod: Vector)
    requires v1.e.Length == v2.e.Length
    ensures fresh(prod.e) && prod.e[..] == Mul(v1.e[..], v2.e[..])
  {
    prod := new Vector.Default(v1.e.Length);
    var i := 0;
    while i < v1.e.Length
      invariant 0 <= i <= v1.e.Length
      invariant forall k :: 0 <= k < i ==> prod.e[k] == v1.e[k] * v2.e[k]
    {
      prod.e[i] := v1.e[i] * v2.e[i];
      i := i + 1;
    }
  }

  /** `operator*(v, t)`: copy, then `*=`. */
  method Times(v: Vector, t: int) returns (prod: Vector)
    ensures fresh(prod.e) && prod.e[..] == Scale(v.e[..], t)
  {
    prod := new Vector(v.e[..]);
    prod.ScaleAssign(t);
  }

  /** `operator/(v, t)`: copy, then `/=`. */
  method Divided(v: Vector, t: int) returns (quot: Vector)
    requires t != 0
    ensures fresh(quot.e) && quot.e[..] == Quot(v.e[..], t)
  {
    quot := new Vector(v.e[..]);
    quot.DivAssign(t);
  }

  /** `operator==`: stops at the first component that differs. */
  method Equal(v1: Vector, v2: Vector) returns (b: bool)
    requires v1.e.Length == v2.e.Length
    ensures b <==> v1.e[..] == v2.e[..]
  {
    var i := 0;
    while i < v1.e.Length
      invariant 0 <= i <= v1.e.Length
      invariant forall k :: 0 <= k < i ==> v1.e[k] == v2.e[k]
    {
      if v1.e[i] != v2.e[i] {
        assert v1.e[..][i] != v2.e[..][i];
        return false;
      }
      i := i + 1;
    }
    return true;
  }

  /** `operator!=`. */
  method NotEqual(v1: Vector, v2: Vector) returns (b: bool)
    requires v1.e.Length == v2.e.Length
    ensures b <==> v1.e[..] != v2.e[..]
  {
    var same := Equal(v1, v2);
    b := !same;
  }
}
