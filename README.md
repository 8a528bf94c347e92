# A verified model of the geometric and colour core of a CPU ray tracer

This project models the core of `ohtoai/raytracing`, a small C++ ray tracer, in Dafny.
It covers:

- the two vector types: the `real`-valued `Vector<Dimension>` of `inc/vector.hh` and the element-generic `Vector<T, D>` of `vector.hh`, at `T = int`;
- the `Point3`/`Point2` wrappers;
- the packed RGBA `Color` and its byte layout on either byte order;
- the `Interval` with its strict and inclusive membership;
- the `Ray`;
- the hit protocol: `HitRecord::set_face_normal`, `Sphere::hit` and the closest-hit search of `HittableList::hit`;
- the three material `scatter` policies;
- the viewport set-up and the pixel loop of `Camera`.

`double` is modelled by `real`. `std::sqrt` is a function parameter `sqrt` that is only assumed, where a proof needs it, to give the non-negative square root of a non-negative argument. Random draws are parameters too.

Where the source changes state in place, the model does the same:

- the vector classes own an `array` and update it in loops;
- a `Color` owns its four bytes of storage;
- `HitRecord`, `HittableList` and `Camera` are classes whose methods assign their fields.

Each such method is proved against a specification function, and the properties the code promises are proved about those functions.

Files, one module each:

- `wrappers.dfy`: `Option`.
- `vector.dfy`: inc/vector.hh.
- `int_vector.dfy`: vector.hh.
- `point.dfy`: inc/point.hh.
- `color.dfy`: inc/color.hh.
- `interval.dfy`: inc/interval.hh.
- `ray.dfy`: inc/ray.hh.
- `hittable.dfy`: inc/hittable.hh.
- `sphere.dfy`: inc/sphere.hh.
- `hittable_list.dfy`: inc/hittable_list.hh.
- `material.dfy`: inc/material.hh.
- `camera.dfy`: inc/camera.hh.

Modelling choices that follow the code:

- **Interval endpoints.** They are extended reals (`NegInf`, `Finite`, `PosInf`), because `EmptyInterval`, `UniverseInterval` and the camera's query `(0, +infinity)` use infinities.
- **Integer division.** It truncates toward zero, as C++ `/` does on `int`. Dafny's own `/` is Euclidean.
- **Colour layout.** A `Color` is four bytes in memory order. On a little-endian machine the union's struct is `r, g, b, a`; on a big-endian machine it is `a, b, g, r`. On both, red is bits 0-7 of the packed `uint32_t` and alpha is bits 24-31.
- **Dielectric attenuation.** `Color(1.0, 1.0, 1.0)` converts each argument to a byte. The attenuation is therefore the packed value `0x010101`, not white.
- **Zero-length ray direction.** For a sphere, a = 0, so both roots are 0/0, a NaN that no interval surrounds. Such a ray hits nothing.
- **`render`'s sink.** The sink receives the colour `ray_color` computes. The model returns, in the sink's order, the pixel, its ray and the world's answer to the query `ray_color` makes.

## Model

| member | source | states |
|---|---|---|
| Vectors.Neg | inc/vector.hh:63-68 | unary minus negates every component and keeps the dimension |
| Vectors.Add | inc/vector.hh:212-216 | `v1 + v2` is the component-wise sum |
| Vectors.Sub | inc/vector.hh:218-222 | `v1 - v2` is the component-wise difference |
| Vectors.Mul | inc/vector.hh:241-245 | `v1 * v2` is the component-wise product |
| Vectors.Scale | inc/vector.hh:224-233 | `v * t` and `t * v` multiply every component by t |
| Vectors.ScaleParallel | inc/vector.hh:224-233 | a multiple of a vector lies along it |
| Vectors.Div | inc/vector.hh:235-239 | `v / t` divides every component by a non-zero t |
| Vectors.DotOf | inc/vector.hh:124-129 | definition of `dot` as the loop's running sum; meaning given by Dot3, DotSymmetric and the DotAddLeft family |
| Vectors.Length2Of | inc/vector.hh:70-79 | definition of `length2()`/`length_squared()`; meaning given by Length2NonNegative and Length2Scale |
| Vectors.Length | inc/vector.hh:81-83 | definition of `length()` as `sqrt(length2())`; meaning given by NormalizedIsUnit |
| Vectors.Cross | inc/vector.hh:142-148 | definition of `cross`; meaning given by CrossOrthogonal |
| Vectors.IsNearZero | inc/vector.hh:112-118 | definition of `near_zero` with tolerance 1e-8; meaning given by NearZeroZero, UnitNotNearZero and Vector.NearZero |
| Vectors.IsAlmostEqual | inc/vector.hh:104-110 | definition of `almost_equal`; meaning given by AlmostEqualReflexive and Vector.AlmostEqual |
| Vectors.Reflect | inc/vector.hh:131-133 | a reflection keeps the dimension of the vector |
| Vectors.CosTheta | inc/vector.hh:136 | the capped cosine `min(-v.n, 1)` is never above 1 |
| Vectors.Normalized | inc/vector.hh:89-95 | `normalized()`/`unit()` keep the dimension |
| Vectors.RefractPerpendicular | inc/vector.hh:137 | `r_out_perp` keeps the dimension |
| Vectors.RefractParallel | inc/vector.hh:138 | `r_out_parallel` has the dimension of the normal and lies along it (`Parallel`: every 2 x 2 minor of the pair vanishes) |
| Vectors.Refract | inc/vector.hh:135-140 | `refract` keeps the dimension |
| Vectors.DotAddLeft | inc/vector.hh:124-129 | the dot product distributes over a sum in its left operand |
| Vectors.DotSubLeft | inc/vector.hh:124-129 | the dot product distributes over a difference in its left operand |
| Vectors.DotScaleLeft | inc/vector.hh:124-129 | scaling the left operand scales the dot product |
| Vectors.DotNegLeft | inc/vector.hh:124-129 | negating the left operand negates the dot product |
| Vectors.DotSymmetric | inc/vector.hh:124-129 | the dot product is symmetric |
| Vectors.Length2NonNegative | inc/vector.hh:70-75 | `length2()` is never negative |
| Vectors.Dot3 | inc/vector.hh:124-129 | the loop's sum for three components is `v0 w0 + v1 w1 + v2 w2` |
| Vectors.Length2Scale | inc/vector.hh:70-75 | scaling by t multiplies `length2()` by t squared |
| Vectors.DivIsScale | inc/vector.hh:235-239 | dividing by t is scaling by 1/t |
| Vectors.AddThenSub | inc/vector.hh:212-222 | `(a + b) - b == a` |
| Vectors.NegInvolutive | inc/vector.hh:63-68 | `-(-v) == v` |
| Vectors.CrossOrthogonal | inc/vector.hh:142-148 | the cross product is orthogonal to both operands |
| Vectors.DotScaleUnit | inc/vector.hh:124-129 | along a unit vector n, `c n` has component c |
| Vectors.ReflectDot | inc/vector.hh:131-133 | the reflected vector's component along any w is `v.w - 2(v.n)(n.w)` |
| Vectors.ReflectNormalComponent | inc/vector.hh:131-133 | about a unit normal, `reflect(v, n).n == -(v.n)` |
| Vectors.ReflectKeepsLength | inc/vector.hh:131-133 | about a unit normal, reflection keeps `length2()` |
| Vectors.ReflectTwice | inc/vector.hh:131-133 | reflecting twice about a unit normal gives the vector back |
| Vectors.SubScaleCancel | inc/vector.hh:131-133 | moving by `-k n` and then by `k n` returns to the start |
| Vectors.NormalizedIsUnit | inc/vector.hh:81-95 | with a true square root, a normalised non-zero vector has `length2() == 1` |
| Vectors.RefractPerpendicularDot | inc/vector.hh:136-137 | the component of `r_out_perp` along a unit normal is `eta(v.n) + eta cos_theta` |
| Vectors.ShiftScaleDot | inc/vector.hh:137 | `eta (v + c n)` has component `eta (v.n) + eta c` along a unit normal |
| Vectors.RefractParallelDot | inc/vector.hh:138 | the component of `r_out_parallel` along a unit normal is `-sqrt(abs(1 - length2(r_out_perp)))` |
| Vectors.RefractNormalComponent | inc/vector.hh:135-140 | the refracted ray's component along a unit normal, written out |
| Vectors.RefractCrossesSurface | inc/vector.hh:135-140 | for a non-negative ratio, the refracted ray never points out of the surface |
| Vectors.NearZeroZero | inc/vector.hh:112-118 | the zero vector of any dimension is `near_zero` |
| Vectors.AlmostEqualReflexive | inc/vector.hh:104-110 | `almost_equal(v, v, eps)` holds for every eps >= 0 |
| Vectors.OnHemisphere | inc/vector.hh:204-210 | the result is the drawn vector or its negation, has the same length, and has a non-negative dot with the normal |
| Vectors.RandomInUnitSphere | inc/vector.hh:184-190 | the first drawn candidate with `length2() <= 1` is returned, and one is returned iff some candidate qualifies |
| Vectors.RandomInUnitDisk | inc/vector.hh:192-198 | the first candidate `(x, y, 0)` with `length2() <= 1` is returned, so its z is 0 and its length at most 1 |
| Vectors.Vector.constructor | inc/vector.hh:21-31 | the components are the arguments (or a copy of another vector's) |
| Vectors.Vector.AddAssign | inc/vector.hh:33-37 | `+=` adds component-wise in place, also when the argument is the vector itself |
| Vectors.Vector.SubAssign | inc/vector.hh:39-43 | `-=` subtracts component-wise in place |
| Vectors.Vector.MulAssign | inc/vector.hh:45-49 | `*=` by a vector multiplies component-wise in place |
| Vectors.Vector.ScaleAssign | inc/vector.hh:51-55 | `*=` by a scalar scales every component in place |
| Vectors.Vector.DivAssign | inc/vector.hh:57-61 | `/=` divides every component in place |
| Vectors.Vector.Normalize | inc/vector.hh:81-87 | `normalize()` leaves the vector divided by its length |
| Vectors.Vector.Negated | inc/vector.hh:63-68 | unary minus returns the negated components and leaves the vector alone |
| Vectors.Vector.Dot | inc/vector.hh:124-129 | `dot` returns the sum of the component products |
| Vectors.Vector.Length2 | inc/vector.hh:70-79 | `length2()` and `length_squared()` return `dot(v, v)`, which is never negative |
| Vectors.Vector.Equals | inc/vector.hh:97-102 | `==` holds iff every component is equal |
| Vectors.Vector.NotEquals | inc/vector.hh:120-122 | `!=` holds iff some component differs |
| Vectors.Vector.AlmostEqual | inc/vector.hh:104-110 | `almost_equal` holds iff every component differs by at most eps |
| Vectors.Vector.NearZero | inc/vector.hh:112-118 | `near_zero` holds iff every component has absolute value at most 1e-8 |
| Vectors.Plus | inc/vector.hh:212-216 | copy-then-`+=` yields the component-wise sum and leaves both operands unchanged |
| Vectors.Minus | inc/vector.hh:218-222 | copy-then-`-=` yields the component-wise difference |
| Vectors.Times | inc/vector.hh:224-233 | copy-then-`*=` yields the scaled vector |
| Vectors.Quotient | inc/vector.hh:235-239 | copy-then-`/=` yields the divided vector |
| Vectors.Product | inc/vector.hh:241-245 | copy-then-`*=` yields the component-wise product |
| IntVectors.TruncDiv | vector.hh:51-55 | C++ `/` on `int` agrees with floor division on non-negative operands and never grows the magnitude |
| IntVectors.TruncDivOfMultiple | vector.hh:51-55 | `(a * t) / t == a` for t != 0 under truncation |
| IntVectors.AbsOfProduct | vector.hh:45-55 | helper of the proofs: the magnitude and the sign of a product |
| IntVectors.TruncDivOddNegative | vector.hh:51-55 | truncation differs from Euclidean division: -1 / 2 is 0, not -1 |
| IntVectors.Zero | vector.hh:93 | the brace-initialised storage holds D zeros |
| IntVectors.Add | vector.hh:116-122 | `v1 + v2` is the component-wise sum |
| IntVectors.Sub | vector.hh:124-130 | `v1 - v2` is the component-wise difference |
| IntVectors.Mul | vector.hh:144-150 | `v1 * v2` is the component-wise product |
| IntVectors.Scale | vector.hh:132-136 | `v * t` multiplies every component |
| IntVectors.Quot | vector.hh:138-142 | `v / t` divides every component with truncation |
| IntVectors.LengthSquaredOf | vector.hh:57-62 | definition of `length_squared()`; meaning given by LengthSquaredNonNegative and LengthBounds |
| IntVectors.Cross | vector.hh:83-88 | the cross product has three components |
| IntVectors.LengthSquaredNonNegative | vector.hh:57-62 | `length_squared()` is never negative |
| IntVectors.DotSymmetric | vector.hh:76-81 | the dot product is symmetric |
| IntVectors.Dot3 | vector.hh:76-81 | the loop's sum for three components, written out |
| IntVectors.CrossOrthogonal | vector.hh:83-88 | the cross product is orthogonal to both operands |
| IntVectors.AddThenSub | vector.hh:27-37 | `v += w; v -= w` restores v |
| IntVectors.ScaleThenQuot | vector.hh:45-55 | `v *= t; v /= t` restores v for t != 0 |
| IntVectors.TestExamples | test/ohtoai.vector.test.cc:9-48 | (1,2,3)+(4,5,6) = (5,7,9); difference (-3,-3,-3); (1,2,3)*2 = (2,4,6); (1,2,3)/2 = (0,1,1); (3,4,0).(5,12,13) = 63; cross (52,-39,16); length_squared 25 |
| IntVectors.LengthBounds | vector.hh:64-66 | `length()` is the largest integer whose square does not exceed `length_squared()` |
| IntVectors.Vector.Default | vector.hh:14 | a default vector has all components zero |
| IntVectors.Vector.constructor | vector.hh:16-20 | `Vector(args...)` stores the arguments in order; the copy constructor copies |
| IntVectors.Vector.At | vector.hh:25 | `operator[]` reads component i |
| IntVectors.Vector.Set | vector.hh:24 | writing through `operator[]` changes component i only |
| IntVectors.Vector.Size | vector.hh:90 | `size()` is D |
| IntVectors.Vector.AddAssign | vector.hh:27-31 | `+=` in place |
| IntVectors.Vector.SubAssign | vector.hh:33-37 | `-=` in place |
| IntVectors.Vector.MulAssign | vector.hh:39-43 | `*=` by a vector in place |
| IntVectors.Vector.ScaleAssign | vector.hh:45-49 | `*=` by a scalar in place |
| IntVectors.Vector.DivAssign | vector.hh:51-55 | `/=` in place, truncating toward zero |
| IntVectors.Vector.LengthSquared | vector.hh:57-62 | returns `dot(v, v)`, never negative |
| IntVectors.Vector.Dot | vector.hh:76-81 | returns the sum of the component products |
| IntVectors.Vector.CrossWith | vector.hh:83-88 | returns a fresh vector holding the cross product |
| IntVectors.Vector.Length | vector.hh:64-66 | returns the integer root of `length_squared()` |
| IntVectors.Vector.Normalize | vector.hh:68-70 | `normalize()` divides in place by `length()` |
| IntVectors.Vector.Normalized | vector.hh:72-74 | `normalized()` returns a divided copy |
| IntVectors.Plus | vector.hh:116-122 | fills a zero vector with the component-wise sum |
| IntVectors.Minus | vector.hh:124-130 | fills a zero vector with the component-wise difference |
| IntVectors.Product | vector.hh:144-150 | fills a zero vector with the component-wise product |
| IntVectors.Times | vector.hh:132-136 | copy-then-`*=` |
| IntVectors.Divided | vector.hh:138-142 | copy-then-`/=` |
| IntVectors.Equal | vector.hh:152-158 | `==` holds iff every component is equal |
| IntVectors.NotEqual | vector.hh:160-163 | `!=` is the negation of `==` |
| Points.Point3.Origin | inc/point.hh:14 | `Point3()` is (0, 0, 0) |
| Points.Point3.constructor | inc/point.hh:15 | `x()`, `y()`, `z()` return the constructor's arguments |
| Points.Point3.FromVector | inc/point.hh:16-17 | building from a vector or copying a point keeps all three components |
| Points.Point3.X | inc/point.hh:18-21 | `x()` reads component 0 |
| Points.Point3.Y | inc/point.hh:19-22 | `y()` reads component 1 |
| Points.Point3.Z | inc/point.hh:20-23 | `z()` reads component 2 |
| Points.Point3.SetX | inc/point.hh:18 | writing through `x()` changes component 0 only |
| Points.Point3.SetY | inc/point.hh:19 | writing through `y()` changes component 1 only |
| Points.Point3.SetZ | inc/point.hh:20 | writing through `z()` changes component 2 only |
| Points.Point2.Origin | inc/point.hh:29 | `Point2()` is (0, 0) |
| Points.Point2.constructor | inc/point.hh:30 | `x()` and `y()` return the constructor's arguments |
| Points.Point2.FromVector | inc/point.hh:31-32 | building from a vector or copying a point keeps both components |
| Points.Point2.X | inc/point.hh:33-35 | `x()` reads component 0 |
| Points.Point2.Y | inc/point.hh:34-36 | `y()` reads component 1 |
| Points.Point2.SetX | inc/point.hh:33 | writing through `x()` changes component 0 only |
| Points.Point2.SetY | inc/point.hh:34 | writing through `y()` changes component 1 only |
| Points.Translate | inc/point.hh:12 | `+=` inherited from the vector moves each named component |
| Colors.LowHigh | inc/color.hh:21 | a number is its low byte plus 256 times the rest |
| Colors.LowHighUnique | inc/color.hh:21 | that decomposition is unique |
| Colors.ChannelOf | inc/color.hh:42-45 | definition of the byte a channel occupies in the packed value; meaning given by PackChannels and ChannelsPack |
| Colors.Pack | inc/color.hh:21 | `r \| g << 8 \| b << 16 \| a << 24` is `r + 2^8 g + 2^16 b + 2^24 a` |
| Colors.PackChannels | inc/color.hh:21-45 | every channel read from a packed value returns the byte packed into it |
| Colors.ChannelsPack | inc/color.hh:18-37 | every `uint32_t` is the packing of its own four channels |
| Colors.StorageOf | inc/color.hh:78-96 | a word occupies four bytes of memory |
| Colors.LoadWord | inc/color.hh:35-37 | definition of reading four stored bytes as a word; meaning given by LoadStorage and StorageOfLoad |
| Colors.LoadStorage | inc/color.hh:18-37 | storing a word and reading it back gives the word, on either byte order |
| Colors.StorageOfLoad | inc/color.hh:78-96 | reading four bytes as a word and storing it gives the bytes |
| Colors.FieldOffset | inc/color.hh:78-96 | each struct field lies within the four bytes |
| Colors.FieldIsChannel | inc/color.hh:78-96 | on both byte orders, the struct field `r`/`g`/`b`/`a` aliases bits 0-7/8-15/16-23/24-31 |
| Colors.WithChannel | inc/color.hh:46-49 | definition of a word with one channel replaced; meaning given by WithChannelChannels and SetChannelStorage |
| Colors.WithChannelChannels | inc/color.hh:46-49 | replacing one channel sets it and keeps the other three |
| Colors.SetChannelStorage | inc/color.hh:46-49 | overwriting one struct field stores the word with that channel replaced |
| Colors.IntToByte | inc/color.hh:22-32 | `static_cast<uint8_t>` of an `int` keeps it modulo 256 |
| Colors.RealToByte | inc/color.hh:22-32 | `static_cast<uint8_t>` of a real truncates toward zero |
| Colors.NamedValue | inc/color.hh:59-76 | definition of the sixteen enumerator values; meaning given by NamedChannels |
| Colors.NamedChannels | inc/color.hh:59-76 | every named colour has, under this layout, the red/green/blue intensity its name says, and alpha 0 |
| Colors.Color.Value | inc/color.hh:35-37 | `operator uint32_t` reads the union's storage as a word |
| Colors.Color.Get | inc/color.hh:42-45 | `red()`, `green()`, `blue()`, `alpha()` return bytes 0, 1, 2, 3 of the packed value |
| Colors.Color.Default | inc/color.hh:16 | a default colour has four bytes of unknown value |
| Colors.Color.FromWord | inc/color.hh:18-20 | `Color(u)` read back as `uint32_t` is u |
| Colors.Color.constructor | inc/color.hh:21 | `Color(r, g, b, a)` holds the packed channels |
| Colors.Color.Copy | inc/color.hh:17 | the copy holds the same bytes |
| Colors.Color.Assign | inc/color.hh:33 | copy assignment copies the value, self-assignment included |
| Colors.Color.SetValue | inc/color.hh:38-40 | writing through `operator uint32_t&` sets the value |
| Colors.Color.Set | inc/color.hh:46-49 | writing one channel changes that byte of the packed value and no other channel |
| Colors.Rgb | inc/color.hh:51-53 | `rgb(r, g, b)` has the given channels and alpha 0 |
| Colors.Rgba | inc/color.hh:55-57 | `rgba(r, g, b, a)` has the given channels |
| Colors.FromIntVector3 | inc/color.hh:22-26 | a 3-vector of ints: each component cast to a byte, alpha 0 |
| Colors.FromIntVector4 | inc/color.hh:27-32 | a 4-vector of ints also fills alpha |
| Colors.FromRealVector3 | inc/color.hh:22-26 | a 3-vector of reals: each component truncated to a byte, alpha 0 |
| Colors.FromRealVector4 | inc/color.hh:27-32 | a 4-vector of reals also fills alpha |
| Colors.ChannelExample | test/ohtoai.color.test.cc:4-12 | 0x11223344 has red 0x44, green 0x33, blue 0x22 and alpha 0x11 |
| Colors.ChannelWritesExample | test/ohtoai.color.test.cc:14-27 | writing 0x55, 0x66, 0x77, 0x88 into the four channels gives 0x88776655 |
| Colors.PackExamples | test/ohtoai.color.test.cc:35-97 | `rgb`, `rgba` and the vector colours of the tests pack to 0x00332211, 0x44332211, 0x00030201 and 0x0E0D0C0B |
| Intervals.Less | inc/interval.hh:26-30 | definition of `<` on extended reals; meaning given by NotLessIsAtMost |
| Intervals.AtMost | inc/interval.hh:26 | definition of `<=` on extended reals; meaning given by NotLessIsAtMost |
| Intervals.Interval.Contains | inc/interval.hh:25-27 | definition of `contains`: x is neither below `min` nor above `max`; meaning given by ContainsBetween and EmptyIffNoMember |
| Intervals.Interval.Surrounds | inc/interval.hh:29-31 | definition of `surrounds`; meaning given by SurroundsContains and MakePoint |
| Intervals.Interval.IsEmpty | inc/interval.hh:33-35 | definition of `is_empty` as `min > max`; meaning given by EmptyContainsNothing and EmptyIffNoMember |
| Intervals.NotLessIsAtMost | inc/interval.hh:26 | `!(a < b)` iff `b <= a` on extended reals |
| Intervals.Interval.Clamp | inc/interval.hh:37-39 | for a non-empty interval the result lies in [min, max], and it is x exactly when the interval contains x |
| Intervals.MakeInterval | inc/interval.hh:46-48 | `min()` and `max()` return the arguments |
| Intervals.MakePoint | inc/interval.hh:50-52 | `make_interval(v)` contains exactly v, is not empty, and surrounds nothing |
| Intervals.ContainsBetween | inc/interval.hh:25-27 | `contains(x)` iff min <= x <= max |
| Intervals.SurroundsContains | inc/interval.hh:25-31 | `surrounds` implies `contains` |
| Intervals.EmptyContainsNothing | inc/interval.hh:25-35 | an empty interval contains no value |
| Intervals.EmptyIffNoMember | inc/interval.hh:25-35 | `is_empty()` iff no finite value is contained, unless both ends are the same infinity |
| Intervals.Witness | inc/interval.hh:25-35 | a non-empty interval that is not [+inf, +inf] or [-inf, -inf] contains a finite value |
| Intervals.EmptyAndUniverse | inc/interval.hh:54-56 | `EmptyInterval` is empty; `UniverseInterval` contains and surrounds every finite value |
| Intervals.ClampIdempotent | inc/interval.hh:37-39 | clamping a clamped value changes nothing |
| Rays.Ray.At | inc/ray.hh:22-28 | `at(t)` and `operator()(t)` are `origin + t direction`, component by component |
| Rays.MakeRay | inc/ray.hh:20-27 | `origin()` and `direction()` return the constructor's arguments |
| Rays.AtZero | inc/ray.hh:28 | `at(0) == origin()` |
| Rays.AtAdditive | inc/ray.hh:28 | `at(s + t) == at(s) + t direction` |
| Rays.AtDifference | inc/ray.hh:28 | one unit of t moves by the direction |
| Hittables.FaceNormal | inc/hittable.hh:20-22 | `front_face` iff `direction.outward < 0`; the normal is `outward` on the front face and `-outward` otherwise |
| Hittables.FaceNormalOpposesRay | inc/hittable.hh:20-22 | the stored normal always has `normal.direction <= 0` |
| Hittables.FaceNormalFlip | inc/hittable.hh:20-22 | if `direction.outward != 0`, flipping `outward` keeps the normal and flips `front_face` |
| Hittables.HitRecord.Value | inc/hittable.hh:26-29 | the record's four fields as a value |
| Hittables.HitRecord.SetFaceNormal | inc/hittable.hh:20-23 | sets `front_face` and `normal` as above and leaves `point` and `t` unchanged |
| Hittables.HitRecord.Assign | inc/hittable_list.hh:28 | `rec = temp_rec` copies all four fields |
| Spheres.Coefficients | inc/sphere.hh:17-20 | the quadratic's leading coefficient `d.d` is never negative |
| Spheres.Discriminant | inc/sphere.hh:21 | definition of `delta`; meaning given by Root, Example and MissExample |
| Spheres.NearRoot | inc/sphere.hh:25 | definition of the nearer root; meaning given by NearRootFirst and NearBeforeFar |
| Spheres.FarRoot | inc/sphere.hh:27 | definition of the farther root; meaning given by NearBeforeFar and RootBelow |
| Spheres.Root | inc/sphere.hh:21-30 | an accepted root is strictly inside `ray_range` |
| Spheres.HitAt | inc/sphere.hh:32-34 | the record at t has `rec.t == t`, `rec.point == light.at(t)` and a normal that opposes the ray |
| Spheres.SphereHit | inc/sphere.hh:21-35 | a hit exists iff a root is accepted, and its record is that root's |
| Spheres.HitSphere | inc/sphere.hh:16-37 | `hit` returns true iff a root is accepted; it then fills `rec` from that root and otherwise leaves `rec` untouched (negative discriminant, no root in range) |
| Spheres.NearRootFirst | inc/sphere.hh:25-27 | `(-b - sqrt(delta)) / 2a` is chosen whenever the interval surrounds it |
| Spheres.DivMonotone | inc/sphere.hh:25-27 | helper of the proofs: dividing by a positive 2a keeps the order of the numerators |
| Spheres.NearBeforeFar | inc/sphere.hh:25-27 | with a non-negative root, the near root is never beyond the far one |
| Spheres.RootBelow | inc/sphere.hh:21-30 | lowering the upper end to u keeps the root if it is below u and otherwise leaves no root |
| Spheres.HitNormalOpposesRay | inc/sphere.hh:26-34 | on success, `ray_range.surrounds(rec.t)`, `rec.point == light.at(rec.t)` and `rec.normal.direction <= 0` |
| Spheres.Example | inc/sphere.hh:16-37 | a ray from the origin along -z hits the sphere of radius 0.5 at (0,0,-1) at t = 0.5, on the front face, with normal (0,0,1) |
| Spheres.MissExample | inc/sphere.hh:21-24 | a ray along +y from the origin has a negative discriminant and misses the sphere of radius 0.5 about (0,0,-1) |
| Spheres.UnitRoot | inc/sphere.hh:25 | helper of the proofs: the square root of 1 is 1 |
| HittableLists.Closest | inc/hittable_list.hh:22-27 | definition of `closest_so_far` after a prefix; meaning given by ScanBounded and ClosestDecreases |
| HittableLists.Scan | inc/hittable_list.hh:24-30 | definition of the record after k iterations; meaning given by ScanBounded and ScanClosest, and tied to the loop by HittableList.Hit |
| HittableLists.ListHit | inc/hittable_list.hh:19-33 | definition of the whole list's answer; meaning given by ListHitClosest and ListHitSmall |
| HittableLists.HittableList.constructor | inc/hittable_list.hh:13 | a new list is empty |
| HittableLists.HittableList.Single | inc/hittable_list.hh:14 | `HittableList(object)` holds that object only |
| HittableLists.HittableList.Clear | inc/hittable_list.hh:16 | `clear()` leaves the list empty |
| HittableLists.HittableList.Add | inc/hittable_list.hh:17 | `add` appends at the end and keeps earlier members in order |
| HittableLists.HittableList.Hit | inc/hittable_list.hh:19-33 | returns true iff some member reported a hit during the shrinking-bound loop; `rec` is then the last reported record and is otherwise untouched |
| HittableLists.ScanBounded | inc/hittable_list.hh:22-29 | `closest_so_far` never exceeds `ray_range.max()`, and every accepted t lies strictly inside `ray_range` |
| HittableLists.ClosestDecreases | inc/hittable_list.hh:22-29 | each member that reports a hit strictly lowers `closest_so_far` |
| HittableLists.ScanClosest | inc/hittable_list.hh:19-33 | the loop hits iff some member hits over the whole range; the record is `HitAt` of the first member whose own root is the smallest, so ties go to the earlier member |
| HittableLists.ListHitClosest | inc/hittable_list.hh:19-33 | the whole list reports a hit iff some member has a root over `ray_range`; the hit lies strictly inside it, its t is the smallest root, and its record is that of the first member with that root |
| HittableLists.ListHitSmall | inc/hittable_list.hh:19-33 | an empty list hits nothing, and a one-object list hits as its object does |
| Materials.LambertianDirection | inc/material.hh:24-27 | the direction is `normal + draw`, or `normal` when that sum is `near_zero` |
| Materials.UnitNotNearZero | inc/material.hh:25 | a unit vector is never `near_zero` |
| Materials.SquareBelow | inc/material.hh:25 | helper of the proofs: a component within 1e-8 of zero has a square of at most 1e-16 |
| Materials.LambertianNotNearZero | inc/material.hh:24-27 | with a unit normal, the Lambertian direction is never degenerate |
| Materials.Lambertian.constructor | inc/material.hh:21 | the albedo is a copy of the argument |
| Materials.Lambertian.Scatter | inc/material.hh:23-31 | returns true; the ray leaves `rec.point` along the Lambertian direction; the attenuation is the albedo |
| Materials.MetalFuzz | inc/material.hh:38 | the stored fuzz is f when f < 1 and 1 otherwise: never above 1 or above f |
| Materials.MetalDirection | inc/material.hh:41-42 | definition of the reflected unit direction plus fuzz times the draw; meaning given by MetalMirror and Metal.Scatter |
| Materials.MetalMirror | inc/material.hh:41-42 | without fuzz, about a unit normal, the scattered direction has length 1 and the opposite normal component |
| Materials.AddZeroScale | inc/material.hh:42 | helper of the proofs: adding `0 * s` changes nothing |
| Materials.Metal.constructor | inc/material.hh:38 | the albedo is a copy of the argument and the fuzz is capped at 1 |
| Materials.Metal.Mirror | inc/material.hh:38 | `Metal(a)`, the default argument `f = 0`: a copy of the albedo and fuzz 0 |
| Materials.Metal.Scatter | inc/material.hh:40-46 | returns true; the ray leaves `rec.point` along `reflect(unit(d), normal) + fuzz s`; the attenuation is the albedo |
| Materials.Pow | inc/material.hh:81 | definition of `std::pow` with a whole exponent; meaning given by PowUnit |
| Materials.Reflectance | inc/material.hh:77-82 | definition of Schlick's approximation; meaning given by ReflectanceEnds and ReflectanceBounds |
| Materials.NormalReflectance | inc/material.hh:79-80 | definition of `r0`; meaning given by ReflectanceEnds and ReflectanceBounds |
| Materials.ReflectanceEnds | inc/material.hh:77-82 | `reflectance(1, idx) == ((1 - idx) / (1 + idx))^2` and `reflectance(0, idx) == 1` |
| Materials.MulAtMostOne | inc/material.hh:81 | helper of the proofs: multiplying by a factor in [0, 1] does not increase a non-negative value |
| Materials.PowUnit | inc/material.hh:81 | a power of a value in [0, 1] stays in [0, 1] |
| Materials.RatioBounds | inc/material.hh:79 | for a positive index, `(1 - idx) / (1 + idx)` lies in [-1, 1] |
| Materials.SquareAtMostOne | inc/material.hh:80 | helper of the proofs: the square of a value in [-1, 1] lies in [0, 1] |
| Materials.ReflectanceBounds | inc/material.hh:77-82 | for a positive index and a cosine in [0, 1], `r0 <= reflectance <= 1`, so it is a probability |
| Materials.RefractionRatio | inc/material.hh:58 | the ratio is `1 / ir` on a front face and `ir` otherwise, never 0 |
| Materials.RatiosReciprocal | inc/material.hh:58 | the entering and leaving ratios are reciprocal |
| Materials.CannotRefract | inc/material.hh:61-64 | definition of `cannot_refract`; meaning given by DielectricSides |
| Materials.DielectricDirection | inc/material.hh:60-70 | definition of the reflect-or-refract choice; meaning given by DielectricSides and Dielectric.Scatter |
| Materials.DielectricSides | inc/material.hh:60-70 | past the critical angle the ray is reflected; a reflection flips the normal component; a refraction never leaves on the incoming side |
| Materials.DielectricAttenuation | inc/material.hh:57 | `Color(1.0, 1.0, 1.0)` has red, green and blue 1 and alpha 0 |
| Materials.Dielectric.constructor | inc/material.hh:54 | stores the index of refraction |
| Materials.Dielectric.Scatter | inc/material.hh:56-73 | returns true; the attenuation is `Color(1.0, 1.0, 1.0)`; the ray leaves `rec.point` reflected or refracted as the critical angle and Schlick's reflectance decide |
| Cameras.ImageHeight | inc/camera.hh:60 | `image_height` is `image_width / aspect_ratio` truncated when the width exceeds the ratio, else 1; it is always at least 1 |
| Cameras.QuotientAboveOne | inc/camera.hh:60 | helper of the proofs: a / b > 1 when a > b > 0 |
| Cameras.ViewportWidth | inc/camera.hh:64-65 | definition of `viewport_width`; meaning given by ViewportWidthPositive |
| Cameras.ViewportU | inc/camera.hh:69 | definition of `viewport_u`; meaning given by DeltaComponents |
| Cameras.PixelDeltaU | inc/camera.hh:73 | definition of `pixel_delta_u`; meaning given by DeltaComponents |
| Cameras.PixelDeltaV | inc/camera.hh:70-74 | definition of `pixel_delta_v`; meaning given by DeltaComponents |
| Cameras.ViewportUpperLeft | inc/camera.hh:77 | definition of `viewport_upper_left`; meaning given by Pixel100Components |
| Cameras.Pixel100 | inc/camera.hh:78 | definition of `pixel100_loc`; meaning given by Pixel100Components |
| Cameras.PixelCenter | inc/camera.hh:30-32 | definition of `pixel_center`; meaning given by PixelCenterComponents and PixelCenterInViewport |
| Cameras.PixelRay | inc/camera.hh:33-34 | definition of the ray through a pixel; meaning given by PixelRayInViewport |
| Cameras.SampleAt | inc/camera.hh:34-36 | definition of what the sink gets for one pixel; meaning given by FrameLayout |
| Cameras.Columns | inc/camera.hh:31 | definition of the inner loop's trip count; meaning given by RowsLayout |
| Cameras.Row | inc/camera.hh:31-37 | row y holds one sample per column, left to right |
| Cameras.Rows | inc/camera.hh:29-38 | definition of the samples of the first k rows; meaning given by RowsLayout |
| Cameras.Frame | inc/camera.hh:27-39 | definition of the whole frame; meaning given by FrameLayout and tied to the loops by Camera.Render |
| Cameras.Camera.constructor | inc/camera.hh:54-56 | defaults: width 640, height 360, ratio 16/9 |
| Cameras.Camera.Initialize | inc/camera.hh:59-79 | sets the image height, `camera_center = 0`, the pixel deltas and `pixel100_loc`, and keeps the width and the ratio |
| Cameras.Camera.Render | inc/camera.hh:27-39 | first `initialize` (overwriting the height), then exactly the frame: each pixel's ray and the world's answer over (0, +infinity), rows top to bottom, pixels left to right |
| Cameras.DefaultHeight | inc/camera.hh:54-60 | width 640 at ratio 16/9 gives height 360 |
| Cameras.IndexBelow | inc/camera.hh:29-31 | the index of a pixel in the first k rows is below k * width |
| Cameras.RowsLayout | inc/camera.hh:29-38 | the first k rows hold k * width samples, pixel (x, y) at `y * width + x` |
| Cameras.FrameLayout | inc/camera.hh:29-38 | the sink gets exactly one sample per pixel, pixel (x, y) at position `y * width + x` |
| Cameras.PixelRayInViewport | inc/camera.hh:32-34 | every pixel's ray starts at `camera_center` and passes strictly inside the viewport on the plane z = -1 |
| Cameras.PixelCenterInViewport | inc/camera.hh:63-78 | every pixel centre lies strictly inside the viewport |
| Cameras.ViewportWidthPositive | inc/camera.hh:65 | the viewport width is positive for a positive image size |
| Cameras.PixelCenterComponents | inc/camera.hh:32-78 | pixel (x, y)'s centre is `(-vw/2 + (x + 1/2) vw/w, 1 - (y + 1/2) 2/h, -1)` |
| Cameras.AxisSum | inc/camera.hh:32 | helper of the proofs: the components of `p + x du + y dv` for axis-aligned deltas |
| Cameras.DeltaComponents | inc/camera.hh:73-74 | `pixel_delta_u = (viewport_width / image_width, 0, 0)` and `pixel_delta_v = (0, -2 / image_height, 0)` |
| Cameras.Pixel100Components | inc/camera.hh:77-78 | `pixel100_loc = (-viewport_width / 2, 1, -1) + 1/2 (du + dv)` |
| Cameras.ShiftByHalf | inc/camera.hh:32-78 | helper of the proofs: half a step plus x steps is x + 1/2 steps |
| Cameras.ShiftDownByHalf | inc/camera.hh:32-78 | helper of the proofs: the same along the downward axis |
| Cameras.Around | inc/camera.hh:77 | helper of the proofs: a point at offset 0 < t < 2s from -s lies strictly between -s and s |
| Cameras.HalfPixelInside | inc/camera.hh:73-74 | the centre of cell i of n cells lies strictly inside the length being split |

## Left out

- inc/vector.hh `x()`, `y()`, `z()`, `w()` and `size()`: these are sequence indexing and length on the value model.
- inc/vector.hh `make_random_vector` and `random_real`: the random source is not modelled. Draws are parameters, and a rejection loop's endless retry is a finite list of candidates with `None` when none is accepted.
- inc/vector.hh `random_unit_vector`: modelled only through the unit vector it draws, which `OnHemisphere` takes as a parameter.
- vector.hh unary `operator-` (lines 108-114) is not modelled. It does not compile (missing `;`), and it would return a reference to a local.
- vector.hh `createVector` is the constructor with the element type deduced. The mixed-type operators (`std::common_type`) are modelled at `T = U = int` only.
- inc/point.hh at `T = float` and `T = double`: points are modelled at `T = int`, the type the vector tests use.
- Floating point: IEEE rounding, overflow to infinity, NaN and `std::pow` are not modelled; `real` is exact. Where the source would divide by zero or normalise a zero vector, the model requires the divisor to be non-zero, as listed below.
- Vectors.Div, Vectors.Normalized, Vectors.Vector.DivAssign, Vectors.Vector.Normalize: they require a non-zero divisor or length, because the source then produces infinities or NaN, which reals do not have.
- Materials.Metal.Scatter and Materials.Dielectric.Scatter: they require the incoming direction to have non-zero length, because it is normalised.
- Materials.Dielectric.Scatter: it requires `ir != 0` and `ir != -1`, because of `1.0 / ir_` and the `1 + ref_idx` denominator.
- Cameras.Camera.Initialize and Cameras.Camera.Render: they require `aspect_ratio > 0` and `image_width != 0`; otherwise the source computes with infinities or NaN.
- Colors.FromRealVector3 and Colors.FromRealVector4: they require components in (-1, 256), the range where the C++ float-to-`uint8_t` cast is defined.
- The default-constructed `Interval` of inc/interval.hh:13 has uninitialised endpoints and is not modelled.
- Spheres with radius 0 (the normal divides by the radius) are excluded by `ValidObjects`. A zero-length ray direction is modelled, and it hits nothing.
- `HittableList` holds spheres only: the `Hittable` base class, the virtual dispatch, nested lists and `std::shared_ptr` ownership are not modelled.
- inc/hittable.hh:40's templated `Hittable::hit(ray, min, max, rec)` is modelled through the `Interval` signature that sphere.hh and hittable_list.hh use.
- `Camera::ray_color` (inc/camera.hh:41-52) is not modelled. Its colour mixing calls `rgb(uint32)` and `mix`, which inc/color.hh does not declare. The sink receives the world's answer to `ray_color`'s query instead of a colour.
- `Camera::get_ray` (inc/camera.hh:80-82) refers to undeclared members and is not modelled.
- The commented-out check at inc/material.hh:45 is not modelled.
- `Dielectric::reflectance`'s `std::pow(x, 5)` is the exact fifth power.
- Integer overflow of `int` components is not modelled: IntVectors' integers are unbounded.
- device.hh, src/main.cc, type_base.hh and the root color.hh are not part of this model: display I/O, the interactive loop, platform macros, and a stale colour header that does not compile.
- The test assertions on `to_easyx_color`/`to_rgba`/`Colorf` name members inc/color.hh does not define. Only their packed values are checked, through `Pack`.
