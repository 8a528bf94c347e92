/**
 * `Camera` of camera.hh: `initialize` derives the image height and the
 * viewport from the image width and the aspect ratio, and `render` shoots one
 * ray per pixel, row by row, and hands each pixel to a sink. The colour
 * `ray_color` computes is not modelled: what the sink receives here is the
 * pixel, its ray and the world's answer to the query `ray_color` makes.
 */
module Cameras {
  import opened Wrappers
  import opened Vectors
  import opened Rays
  import opened Intervals
  import opened Hittables
  import opened Spheres
  import opened HittableLists

  /** What the sink sees for one pixel. */
  datatype Sample = Sample(x: int, y: int, light: Ray, hit: Option<Hit>)

  /**
   * `image_width > aspect_ratio ? static_cast<int>(image_width / aspect_ratio) : 1`:
   * the width over the ratio truncated, or 1.
   */
  function ImageHeight(width: int, aspectRatio: real): (h: int)
    requires aspectRatio > 0.0
    ensures h >= 1
    ensures width as real > aspectRatio ==> h as real <= width as real / aspectRatio < h as real + 1.0
    ensures width as real <= aspectRatio ==> h == 1
  {
    if width as real > aspectRatio then
      QuotientAboveOne(width as real, aspectRatio);
      (width as real / aspectRatio).Floor
    else 1
  }

  lemma QuotientAboveOne(a: real, b: real)
    requires a > b > 0.0
    ensures a / b > 1.0
  {
    var q := a / b;
    assert q * b == a;
    assert (q - 1.0) * b == a - b;
    PositiveFactor(q - 1.0, b);
  }

  /** `viewport_width = viewport_height * (image_width / image_height)` with a viewport height of 2. */
  function ViewportWidth(width: int, height: int): real
    requires height != 0
  {
    2.0 * (width as real / height as real)
  }

  /** `viewport_u`. */
  function ViewportU(width: int, height: int): Vec3
    requires height != 0
  {
    Vec(ViewportWidth(width, height), 0.0, 0.0)
  }

  /** `viewport_v`: downwards, since image rows grow downwards. */
  const ViewportV: Vec3 := Vec(0.0, -2.0, 0.0)

  /** `camera_center`. */
  const Origin: Vec3 := Vec(0.0, 0.0, 0.0)

  /** `pixel_delta_u = viewport_u / image_width`. */
  function PixelDeltaU(width: int, height: int): Vec3
    requires width != 0 && height != 0
  {
    Div(ViewportU(width, height), width as real)
  }

  /** `pixel_delta_v = viewport_v / image_height`. */
  function PixelDeltaV(height: int): Vec3
    requires height != 0
  {
    Div(ViewportV, height as real)
  }

  /** `camera_center - (0, 0, focal_length) - viewport_u / 2 - viewport_v / 2` with a focal length of 1. */
  function ViewportUpperLeft(width: int, height: int): Vec3
    requires height != 0
  {
    Sub(Sub(Sub(Origin, Vec(0.0, 0.0, 1.0)), Div(ViewportU(width, height), 2.0)), Div(ViewportV, 2.0))
  }

  /** `pixel100_loc`: the centre of the upper-left pixel. */
  function Pixel100(width: int, height: int): Vec3
    requires width != 0 && height != 0
  {
    Add(ViewportUpperLeft(width, height), Scale(Add(PixelDeltaU(width, height), PixelDeltaV(height)), 0.5))
  }

  /** `pixel100_loc + x * pixel_delta_u + y * pixel_delta_v`. */
  function PixelCenter(x: int, y: int, width: int, height: int): Vec3
    requires width != 0 && height != 0
  {
    Add(Add(Pixel100(width, height), Scale(PixelDeltaU(width, height), x as real)), Scale(PixelDeltaV(height), y as real))
  }

  /** The ray from the camera centre through the centre of pixel (x, y). */
  function PixelRay(x: int, y: int, width: int, height: int): Ray
    requires width != 0 && height != 0
  {
    Ray(Origin, Sub(PixelCenter(x, y, width, height), Origin))
  }

  /** The pixel, its ray and the world's answer over `(0, +infinity)`. */
  function SampleAt(x: int, y: int, width: int, height: int, objects: seq<Sphere>, sqrt: real -> real): Sample
    requires width != 0 && height != 0 && ValidObjects(objects)
  {
    var light := PixelRay(x, y, width, height);
    Sample(x, y, light, ListHit(objects, light, Interval(Finite(0.0), PosInf), sqrt))
  }

  /** The number of pixels in a row: none when the width is not positive. */
  function Columns(width: int): nat
  {
    if width > 0 then width else 0
  }

  /** Row y, left to right. */
  function Row(y: int, width: int, height: int, objects: seq<Sphere>, sqrt: real -> real): (r: seq<Sample>)
    requires width != 0 && height != 0 && ValidObjects(objects)
    ensures |r| == Columns(width)
    ensures forall x :: 0 <= x < |r| ==> r[x] == SampleAt(x, y, width, height, objects, sqrt)
  {
    seq(Columns(width), x requires 0 <= x < Columns(width) => SampleAt(x, y, width, height, objects, sqrt))
  }

  /** The first k rows, top to bottom. */
  function Rows(k: nat, width: int, height: int, objects: seq<Sphere>, sqrt: real -> real): seq<Sample>
    requires width != 0 && height != 0 && ValidObjects(objects)
  {
    if k == 0 then [] else Rows(k - 1, width, height, objects, sqrt) + Row(k - 1, width, height, objects, sqrt)
  }

  /** Everything the sink receives for a whole image, in the order it receives it. */
  function Frame(width: int, height: int, objects: seq<Sphere>, sqrt: real -> real): seq<Sample>
    requires width != 0 && height >= 1 && ValidObjects(objects)
  {
    Rows(height, width, height, objects, sqrt)
  }

  class Camera {
    var imageWidth: int
    var imageHeight: int
    var aspectRatio: real
    var cameraCenter: Vec3
    var pixelDeltaU: Vec3
    var pixelDeltaV: Vec3
    var pixel100Loc: Vec3

    /** `Camera() = default`: a 640 x 360 image of ratio 16:9; the viewport is derived later. */
    constructor ()
      ensures imageWidth == 640 && imageHeight == 360 && aspectRatio == 16.0 / 9.0
    {
      imageWidth := 640;
      imageHeight := 360;
      aspectRatio := 16.0 / 9.0;
    }

    /** `initialize()`: the image height and the viewport from the width and the ratio. */
    method Initialize()
      requires aspectRatio > 0.0 && imageWidth != 0
      modifies this
      ensures imageWidth == old(imageWidth) && aspectRatio == old(aspectRatio)
      ensures imageHeight == ImageHeight(imageWidth, aspectRatio)
      ensures cameraCenter == Origin
      ensures pixelDeltaU == PixelDeltaU(imageWidth, imageHeight) && pixelDeltaV == PixelDeltaV(imageHeight)
      ensures pixel100Loc == Pixel100(imageWidth, imageHeight)
    {
      if imageWidth as real > aspectRatio {
        QuotientAboveOne(imageWidth as real, aspectRatio);
        imageHeight := (imageWidth as real / aspectRatio).Floor;
      } else {
        imageHeight := 1;
      }
      var focalLength := 1.0;
      var viewportHeight := 2.0;
      var viewportWidth := viewportHeight * (imageWidth as real / imageHeight as real);
      cameraCenter := Vec(0.0, 0.0, 0.0);
      var viewportU := Vec(viewportWidth, 0.0, 0.0);
      var viewportV := Vec(0.0, -viewportHeight, 0.0);
      assert viewportU == ViewportU(imageWidth, imageHeight) && viewportV == ViewportV;
      pixelDeltaU := Div(viewportU, imageWidth as real);
      pixelDeltaV := Div(viewportV, imageHeight as real);
      var upperLeft := Sub(Sub(Sub(cameraCenter, Vec(0.0, 0.0, focalLength)), Div(viewportU, 2.0)), Div(viewportV, 2.0));
      assert upperLeft == ViewportUpperLeft(imageWidth, imageHeight);
      pixel100Loc := Add(upperLeft, Scale(Add(pixelDeltaU, pixelDeltaV), 0.5));
    }

    /**
     * `render(world, func)`: after `initialize`, one sample per pixel, rows
     * from the top, each row from the left. The samples are returned in the
     * order the sink would receive them.
     */
    method Render(world: HittableList, sqrt: real -> real) returns (samples: seq<Sample>)
      requires aspectRatio > 0.0 && imageWidth != 0 && world.Valid()
      modifies this
      ensures imageWidth == old(imageWidth) && aspectRatio == old(aspectRatio)
      ensures imageHeight == ImageHeight(imageWidth, aspectRatio)
      ensures samples == Frame(imageWidth, imageHeight, world.objects, sqrt)
    {
      // The loop needs only that each answer is the one `ListHit` specifies.
      hide ListHit;
      Initialize();
      label initialized:
      samples := [];
      var y := 0;
      while y < imageHeight
        invariant 0 <= y <= imageHeight
        invariant unchanged@initialized(this)
        invariant samples == Rows(y, imageWidth, imageHeight, world.objects, sqrt)
      {
        var heightVec := Scale(pixelDeltaV, y as real);
        var x := 0;
        while x < imageWidth
          invariant 0 <= x <= Columns(imageWidth)
          invariant unchanged@initialized(this)
          invariant samples == Rows(y, imageWidth, imageHeight, world.objects, sqrt)
                               + Row(y, imageWidth, imageHeight, world.objects, sqrt)[..x]
        {
          var pixelCenter := Add(Add(pixel100Loc, Scale(pixelDeltaU, x as real)), heightVec);
          var direction := Sub(pixelCenter, cameraCenter);
          var light := Ray(cameraCenter, direction);
          var record := new HitRecord();
          var hit := world.Hit(light, MakeInterval(Finite(0.0), PosInf), record, sqrt);
          var answer := if hit then Some(record.Value()) else None;
          samples := samples + [Sample(x, y, light, answer)];
          assert Row(y, imageWidth, imageHeight, world.objects, sqrt)[..x + 1]
              == Row(y, imageWidth, imageHeight, world.objects, sqrt)[..x] + [SampleAt(x, y, imageWidth, imageHeight, world.objects, sqrt)];
          x := x + 1;
        }
        y := y + 1;
      }
    }
  }

  // ---------------------------------------------------------------------
  // Properties
  // ---------------------------------------------------------------------

  /** The default 640-pixel width at 16:9 gives the default height of 360. */
  lemma DefaultHeight()
    ensures ImageHeight(640, 16.0 / 9.0) == 360
  {
    assert 640.0 / (16.0 / 9.0) == 360.0;
  }

  /** The position of pixel (x, y) of a row-major image `width` pixels wide. */
  function PixelIndex(x: int, y: int, width: nat): int
  {
    y * width + x
  }

  lemma IndexBelow(x: int, y: int, width: nat, k: nat)
    requires 0 <= x < width && 0 <= y < k
    ensures 0 <= PixelIndex(x, y, width) < k * width
  {
    assert k * width - y * width == (k - y) * width;
    assert (k - y) * width >= width by {
      assert (k - y) * width == width + (k - y - 1) * width;
    }
  }

  /**
   * The first k rows hold one sample per pixel of those rows, the sample of
   * pixel (x, y) at position `y * width + x`.
   */
  lemma {:induction false} RowsLayout(k: nat, width: int, height: int, objects: seq<Sphere>, sqrt: real -> real)
    requires width != 0 && height != 0 && ValidObjects(objects)
    ensures |Rows(k, width, height, objects, sqrt)| == k * Columns(width)
    ensures forall x, y :: 0 <= x < Columns(width) && 0 <= y < k ==>
              Rows(k, width, height, objects, sqrt)[PixelIndex(x, y, Columns(width))] == SampleAt(x, y, width, height, objects, sqrt)
  {
    hide ListHit;
    if k > 0 {
      RowsLayout(k - 1, width, height, objects, sqrt);
      var w := Columns(width);
      var before := Rows(k - 1, width, height, objects, sqrt);
      var row := Row(k - 1, width, height, objects, sqrt);
      assert k * w == (k - 1) * w + w;
      forall x, y | 0 <= x < w && 0 <= y < k
        ensures (before + row)[PixelIndex(x, y, w)] == SampleAt(x, y, width, height, objects, sqrt)
      {
        if y < k - 1 {
          IndexBelow(x, y, w, k - 1);
        } else {
          assert PixelIndex(x, y, w) == (k - 1) * w + x;
        }
      }
    }
  }

  /**
   * `render` hands the sink exactly one sample per pixel: the frame has
   * width * height entries and pixel (x, y) is entry `y * width + x`, so
   * rows come from the top and pixels within a row from the left.
   */
  lemma FrameLayout(width: int, height: int, objects: seq<Sphere>, sqrt: real -> real)
    requires width > 0 && height >= 1 && ValidObjects(objects)
    ensures |Frame(width, height, objects, sqrt)| == width * height
    ensures forall x, y :: 0 <= x < width && 0 <= y < height ==>
              Frame(width, height, objects, sqrt)[PixelIndex(x, y, width)] == SampleAt(x, y, width, height, objects, sqrt)
  {
    RowsLayout(height, width, height, objects, sqrt);
  }

  /**
   * A direction through the viewport plane z = -1, strictly inside the
   * viewport (-viewport_width / 2, viewport_width / 2) x (-1, 1).
   */
  predicate InViewport(d: Vec3, viewportWidth: real)
  {
    -viewportWidth / 2.0 < d[0] < viewportWidth / 2.0 && -1.0 < d[1] < 1.0 && d[2] == -1.0
  }

  /** Every pixel ray starts at the camera centre and passes through the viewport. */
  lemma PixelRayInViewport(x: int, y: int, width: int, height: int)
    requires 0 <= x < width && 0 <= y < height
    ensures PixelRay(x, y, width, height).origin == Origin
    ensures InViewport(PixelRay(x, y, width, height).direction, ViewportWidth(width, height))
  {
    var c := PixelCenter(x, y, width, height);
    assert PixelRay(x, y, width, height).direction == c;
    PixelCenterInViewport(x, y, width, height);
  }

  lemma PixelCenterInViewport(x: int, y: int, width: int, height: int)
    requires 0 <= x < width && 0 <= y < height
    ensures InViewport(PixelCenter(x, y, width, height), ViewportWidth(width, height))
  {
    PixelCenterComponents(x, y, width, height);
    ViewportWidthPositive(width, height);
    var c := PixelCenter(x, y, width, height);
    var vw := ViewportWidth(width, height);
    hide PixelCenter, ViewportWidth;
    HalfPixelInside(x, width, vw);
    HalfPixelInside(y, height, 2.0);
    Around(c[0], vw / 2.0, (x as real + 0.5) * (vw / width as real));
    Around(c[1], 1.0, 2.0 - (y as real + 0.5) * (2.0 / height as real));
  }

  lemma ViewportWidthPositive(width: int, height: int)
    requires width > 0 && height > 0
    ensures ViewportWidth(width, height) > 0.0
  {
    assert width as real / height as real > 0.0;
  }

  /** The centre of pixel (x, y) written out component by component. */
  lemma PixelCenterComponents(x: int, y: int, width: int, height: int)
    requires width != 0 && height != 0
    ensures var c := PixelCenter(x, y, width, height);
            var vw := ViewportWidth(width, height);
            c[0] == -vw / 2.0 + (x as real + 0.5) * (vw / width as real) &&
            c[1] == 1.0 - (y as real + 0.5) * (2.0 / height as real) &&
            c[2] == -1.0
  {
    var du := PixelDeltaU(width, height);
    var dv := PixelDeltaV(height);
    var p := Pixel100(width, height);
    var vw := ViewportWidth(width, height);
    DeltaComponents(width, height);
    Pixel100Components(width, height);
    AxisSum(p, du, dv, x as real, y as real);
    assert PixelCenter(x, y, width, height) == Add(Add(p, Scale(du, x as real)), Scale(dv, y as real));
    hide *;
    ShiftByHalf(p[0], -vw / 2.0, x as real, du[0]);
    ShiftDownByHalf(p[1], 1.0, y as real, 2.0 / height as real, dv[1]);
  }

  /** The components of `p + x du + y dv` for du along the first axis and dv along the second. */
  lemma AxisSum(p: Vec3, du: Vec3, dv: Vec3, x: real, y: real)
    requires du[1] == 0.0 && du[2] == 0.0 && dv[0] == 0.0 && dv[2] == 0.0
    ensures var c := Add(Add(p, Scale(du, x)), Scale(dv, y));
            c[0] == p[0] + du[0] * x && c[1] == p[1] + dv[1] * y && c[2] == p[2]
  {
  }

  /** `pixel_delta_u = (viewport_width / image_width, 0, 0)` and `pixel_delta_v = (0, -2 / image_height, 0)`. */
  lemma DeltaComponents(width: int, height: int)
    requires width != 0 && height != 0
    ensures var du := PixelDeltaU(width, height);
            du[0] == ViewportWidth(width, height) / width as real && du[1] == 0.0 && du[2] == 0.0
    ensures var dv := PixelDeltaV(height);
            dv[0] == 0.0 && dv[1] == -(2.0 / height as real) && dv[2] == 0.0
  {
  }

  /** The upper-left pixel centre: half a pixel right of and below the viewport's upper-left corner. */
  lemma Pixel100Components(width: int, height: int)
    requires width != 0 && height != 0
    ensures var p := Pixel100(width, height);
            p[0] == -ViewportWidth(width, height) / 2.0 + 0.5 * PixelDeltaU(width, height)[0] &&
            p[1] == 1.0 + 0.5 * PixelDeltaV(height)[1] &&
            p[2] == -1.0
  {
    DeltaComponents(width, height);
    var u := ViewportUpperLeft(width, height);
    assert u[0] == -ViewportWidth(width, height) / 2.0 && u[1] == 1.0 && u[2] == -1.0;
  }

  /** With p = a + d / 2: p + d x = a + (x + 1/2) d. */
  lemma ShiftByHalf(p: real, a: real, x: real, d: real)
    requires p == a + 0.5 * d
    ensures p + d * x == a + (x + 0.5) * d
  {
  }

  /** With p = a + e / 2 and e = -d: p + e y = a - (y + 1/2) d. */
  lemma ShiftDownByHalf(p: real, a: real, y: real, d: real, e: real)
    requires e == -d && p == a + 0.5 * e
    ensures p + e * y == a - (y + 0.5) * d
  {
  }

  /** c = -s + t with 0 < t < 2 s lies strictly between -s and s. */
  lemma Around(c: real, s: real, t: real)
    requires c == -s + t && 0.0 < t < 2.0 * s
    ensures -s < c < s
  {
  }

  /** The centre of cell i of n cells that split a length s: 0 < (i + 1/2)(s / n) < s. */
  lemma HalfPixelInside(i: int, n: int, s: real)
    requires 0 <= i < n && s > 0.0
    ensures 0.0 < (i as real + 0.5) * (s / n as real) < s
  {
    var a := i as real + 0.5;
    var b := n as real;
    var q := s / b;
    assert 0.0 < a < b;
    assert q > 0.0;
    assert b * q == s;
    assert s - a * q == (b - a) * q;
  }
}
