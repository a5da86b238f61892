/** The perspective-mask rasteriser of scripts/ff/collect_pm.py: the class
    CollectPerspectiveImage, which draws the lateral footprint of a vehicle,
    pose by pose along a trajectory, into a height x width x 3 image of
    zeros, setting every pixel it hits to 255 in all three channels. */
module CollectPm {
  import opened Sampling
  import opened Pose

  /** The 2-vector CoordinateTransformation.world3DToImage2D returns, in its
      own (column, row) order. */
  datatype Image2D = Image2D(first: real, second: real)

  /** A sub-pixel position in the image array's (row, column) order. */
  datatype Point2 = Point2(row: real, col: real)

  /** An integer index (row, column) into the image array. */
  datatype Pixel = Pixel(row: int, col: int)

  /** The numerics and camera code the rasteriser calls but that are not part
      of this model, as functions given from outside:
      cosDeg, sinDeg   np.cos / np.sin of np.deg2rad of an angle in degrees;
      rotation         rotationMatrix3D of a rotation's roll, pitch and yaw;
      toImage          world3DToImage2D with the camera's K, R and t;
      toPixel          world3DToImagePixel2D with the camera's K, R and t;
      norm             np.linalg.norm of a 2-vector;
      pow2             2 ** x, the power np.logspace(..., base=2) takes;
      wrap             basic_tools.pi2pi, on angle differences in degrees. */
  datatype Foreign = Foreign(
    cosDeg: real -> real,
    sinDeg: real -> real,
    rotation: Rotation -> Mat3,
    toImage: Vec3 -> Image2D,
    toPixel: Vec3 -> (int, int),
    norm: (real, real) -> real,
    pow2: real -> real,
    wrap: real -> real)

  /** The configuration fields the constructor reads from its param object. */
  datatype Params = Params(
    vehicleWidth: real,
    longitudinalSampleNumberNear: real,
    longitudinalSampleNumberFar: real,
    lateralStepFactor: real,
    lateralSampleNumber: nat)

  /** One (time_step, traj_pose) entry of a trajectory. */
  datatype Sample = Sample(time: real, pose: Transform)

  /** getPM on an empty trajectory: np.logspace is asked for -1 values and
      raises ValueError. */
  datatype Error = EmptyTrajectory

  datatype Result<T> = Ok(value: T) | Err(error: Error)

  /** pixel_vec[::-1, :]: swap a projected point into (row, column) order. */
  function Reversed(v: Image2D): Point2
  {
    Point2(v.second, v.first)
  }

  function ReversedPixel(v: (int, int)): Pixel
  {
    Pixel(v.1, v.0)
  }

  /** min_pixel <= p < max_pixel in both coordinates, before rounding. */
  predicate InFrame(p: Point2, height: int, width: int)
  {
    0.0 <= p.row < height as real && 0.0 <= p.col < width as real
  }

  /** The bounds check made before every write. */
  predicate InBounds(px: Pixel, height: int, width: int)
  {
    0 <= px.row < height && 0 <= px.col < width
  }

  function RoundPixel(p: Point2): Pixel
  {
    Pixel(Round(p.row), Round(p.col))
  }

  function RoundAll(pts: seq<Point2>): (pxs: seq<Pixel>)
    ensures |pxs| == |pts|
  {
    seq(|pts|, i requires 0 <= i < |pts| => RoundPixel(pts[i]))
  }

  /** length * (d / length) == d */
  lemma Rescale(length: real, d: real)
    requires length != 0.0
    ensures length * (d / length) == d
  {
  }

  /** (end - start) / length */
  function Direction(start: Point2, end: Point2, length: real): Point2
    requires length != 0.0
  {
    Point2((end.row - start.row) / length, (end.col - start.col) / length)
  }

  /** start + distance * direction */
  function Along(start: Point2, direction: Point2, distance: real): Point2
  {
    Point2(start.row + distance * direction.row, start.col + distance * direction.col)
  }

  /** The sample points of drawLineInImage: round(length / step) + 1 points
      along the segment from start to end, at the distances
      np.linspace(0, length, n) in the direction (end - start) / length. The
      first is start and, when there are at least two, the last is end. */
  function SamplePoints(start: Point2, end: Point2, length: real, step: real): (pts: seq<Point2>)
    requires length > 0.0 && step > 0.0
    ensures |pts| == Round(length / step) + 1 >= 1
    ensures pts[0] == start
    ensures |pts| >= 2 ==> pts[|pts| - 1] == end
  {
    RoundPositive(length / step);
    var n := Round(length / step) + 1;
    var distances := Linspace(0.0, length, n);
    var direction := Direction(start, end, length);
    Rescale(length, end.row - start.row);
    Rescale(length, end.col - start.col);
    seq(n, i requires 0 <= i < n => Along(start, direction, distances[i]))
  }

  /** The samples are evenly spaced: sample i lies i / (n - 1) of the way
      from start to end. */
  lemma {:induction false} SamplesEvenlySpaced(start: Point2, end: Point2, length: real, step: real, i: nat)
    requires length > 0.0 && step > 0.0
    requires |SamplePoints(start, end, length, step)| >= 2 && i < |SamplePoints(start, end, length, step)|
    ensures var n := |SamplePoints(start, end, length, step)|;
      var f := i as real / (n - 1) as real;
      SamplePoints(start, end, length, step)[i] ==
        Point2(start.row + f * (end.row - start.row), start.col + f * (end.col - start.col))
  {
    var n := |SamplePoints(start, end, length, step)|;
    var f := i as real / (n - 1) as real;
    LinspaceEvenlySpaced(0.0, length, n, i);
    var d := Linspace(0.0, length, n)[i];
    assert d == f * length;
    ScaledStep(d, f, length, end.row - start.row);
    ScaledStep(d, f, length, end.col - start.col);
  }

  /** Going distance f * length along a unit step delta / length covers f * delta. */
  lemma ScaledStep(d: real, f: real, length: real, delta: real)
    requires length > 0.0 && d == f * length
    ensures d * (delta / length) == f * delta
  {
    Rescale(length, delta);
    assert d * (delta / length) == f * (length * (delta / length));
  }

  /** The pixels a sequence of writes sets: each pixel of the sequence that
      passes the bounds check; the ones outside are skipped. */
  function Marked(pixels: seq<Pixel>, height: int, width: int): (s: set<Pixel>)
    ensures forall px :: px in s ==> InBounds(px, height, width)
  {
    if pixels == [] then {}
    else
      var last := pixels[|pixels| - 1];
      Marked(pixels[..|pixels| - 1], height, width) + if InBounds(last, height, width) then {last} else {}
  }

  /** A pixel is marked exactly when it is in bounds and some write targets it. */
  lemma {:induction false} MarkedMembers(pixels: seq<Pixel>, height: int, width: int, px: Pixel)
    ensures px in Marked(pixels, height, width) <==>
      InBounds(px, height, width) && exists i :: 0 <= i < |pixels| && pixels[i] == px
  {
    if pixels != [] {
      var n := |pixels|;
      var init := pixels[..n - 1];
      MarkedMembers(init, height, width, px);
      if InBounds(px, height, width) && exists i :: 0 <= i < n && pixels[i] == px {
        var i :| 0 <= i < n && pixels[i] == px;
        if i < n - 1 {
          assert init[i] == px;
        }
      }
      if exists i :: 0 <= i < n - 1 && init[i] == px {
        var i :| 0 <= i < n - 1 && init[i] == px;
        assert pixels[i] == px;
      }
    }
  }

  lemma PrefixStep<T>(s: seq<T>, j: nat)
    requires j < |s|
    ensures s[..j + 1] == s[..j] + [s[j]]
  {
  }

  lemma ConcatAssoc<T>(a: seq<T>, b: seq<T>, c: seq<T>)
    ensures (a + b) + c == a + (b + c)
  {
  }

  /** One more write extends the marked set by its pixel when in bounds. */
  lemma MarkedStep(pixels: seq<Pixel>, i: nat, height: int, width: int)
    requires i < |pixels|
    ensures Marked(pixels[..i + 1], height, width) ==
      Marked(pixels[..i], height, width) + if InBounds(pixels[i], height, width) then {pixels[i]} else {}
  {
    assert pixels[..i + 1][..i] == pixels[..i];
  }

  /** The image holds 255 in all three channels at the pixels of marked and
      0 everywhere else. */
  ghost predicate IsMask(image: array3<int>, marked: set<Pixel>, height: int, width: int)
    reads image
  {
    image.Length0 == height && image.Length1 == width && image.Length2 == 3 &&
    forall r, c, ch | 0 <= r < height && 0 <= c < width && 0 <= ch < 3 ::
      image[r, c, ch] == if Pixel(r, c) in marked then 255 else 0
  }

  /** copy.deepcopy of an image: a fresh array with the same shape and cells. */
  method DeepCopy(src: array3<int>) returns (dst: array3<int>)
    ensures fresh(dst)
    ensures dst.Length0 == src.Length0 && dst.Length1 == src.Length1 && dst.Length2 == src.Length2
    ensures forall r, c, ch | 0 <= r < src.Length0 && 0 <= c < src.Length1 && 0 <= ch < src.Length2 ::
      dst[r, c, ch] == src[r, c, ch]
  {
    dst := new int[src.Length0, src.Length1, src.Length2](
      (r, c, ch) requires 0 <= r < src.Length0 && 0 <= c < src.Length1 && 0 <= ch < src.Length2 reads src => src[r, c, ch]);
  }

  /** image[x, y, :] = 255 */
  method MarkPixel(image: array3<int>, x: int, y: int)
    requires 0 <= x < image.Length0 && 0 <= y < image.Length1 && image.Length2 == 3
    modifies image
    ensures forall r, c, ch | 0 <= r < image.Length0 && 0 <= c < image.Length1 && 0 <= ch < 3 ::
      image[r, c, ch] == if r == x && c == y then 255 else old(image[r, c, ch])
  {
    image[x, y, 0] := 255;
    image[x, y, 1] := 255;
    image[x, y, 2] := 255;
  }

  /** The sampling loop of drawLineInImage: for each distance of the
      linspace, round start + distance * direction and set that pixel when it
      passes the bounds check. Exactly the in-bounds rounded samples change. */
  method MarkSamples(image: array3<int>, height: nat, width: nat, start: Point2, end: Point2,
                     length: real, step: real, direction: Point2, n: nat, distanceArray: seq<real>)
    requires image.Length0 == height && image.Length1 == width && image.Length2 == 3
    requires length > 0.0 && step > 0.0 && direction == Direction(start, end, length)
    requires n == Round(length / step) + 1 && distanceArray == Linspace(0.0, length, n)
    modifies image
    ensures forall r, c, ch | 0 <= r < height && 0 <= c < width && 0 <= ch < 3 ::
      image[r, c, ch] == if Pixel(r, c) in Marked(RoundAll(SamplePoints(start, end, length, step)), height, width)
                         then 255 else old(image[r, c, ch])
  {
    ghost var pts := SamplePoints(start, end, length, step);
    ghost var pixels := RoundAll(pts);
    for i := 0 to |distanceArray|
      invariant forall r, c, ch | 0 <= r < height && 0 <= c < width && 0 <= ch < 3 ::
        image[r, c, ch] == if Pixel(r, c) in Marked(pixels[..i], height, width) then 255 else old(image[r, c, ch])
    {
      var distance := distanceArray[i];
      var pixelVec := Along(start, direction, distance);
      var xPixel, yPixel := Round(pixelVec.row), Round(pixelVec.col);
      assert pixelVec == pts[i];
      assert Pixel(xPixel, yPixel) == pixels[i];
      MarkedStep(pixels, i, height, width);
      if xPixel >= 0 && yPixel >= 0 && xPixel < height && yPixel < width {
        MarkPixel(image, xPixel, yPixel);
      }
    }
    assert pixels[..|distanceArray|] == pixels;
  }

  class CollectPerspectiveImage {
    const vehicleHalfWidth: real
    const longitudinalSampleNumberNear: real
    const longitudinalSampleNumberFar: real
    const lateralStepFactor: real
    const lateralSampleArray: seq<real>
    /** The camera and the numerics around it. */
    const ext: Foreign
    const imgWidth: nat
    const imgHeight: nat
    /** The all-zero template every mask is copied from. */
    const emptyImage: array3<int>

    /** The template has the sensor's shape and is all zero. */
    ghost predicate Valid()
      reads emptyImage
    {
      IsMask(emptyImage, {}, imgHeight, imgWidth)
    }

    /** __init__: half the vehicle width, the sampling settings, the lateral
        offsets np.linspace(-half, half, lateral_sample_number), the image
        size, and a zero height x width x 3 template. */
    constructor (param: Params, imgWidth: nat, imgHeight: nat, ext: Foreign)
      ensures vehicleHalfWidth == param.vehicleWidth / 2.0
      ensures longitudinalSampleNumberNear == param.longitudinalSampleNumberNear
      ensures longitudinalSampleNumberFar == param.longitudinalSampleNumberFar
      ensures lateralStepFactor == param.lateralStepFactor
      ensures lateralSampleArray == Linspace(-vehicleHalfWidth, vehicleHalfWidth, param.lateralSampleNumber)
      ensures this.imgWidth == imgWidth && this.imgHeight == imgHeight && this.ext == ext
      ensures fresh(emptyImage) && Valid()
    {
      vehicleHalfWidth := param.vehicleWidth / 2.0;
      longitudinalSampleNumberNear := param.longitudinalSampleNumberNear;
      longitudinalSampleNumberFar := param.longitudinalSampleNumberFar;
      lateralStepFactor := param.lateralStepFactor;
      lateralSampleArray := Linspace(-(param.vehicleWidth / 2.0), param.vehicleWidth / 2.0, param.lateralSampleNumber);
      this.ext := ext;
      this.imgWidth := imgWidth;
      this.imgHeight := imgHeight;
      emptyImage := new int[imgHeight, imgWidth, 3]((r, c, ch) => 0);
    }

    /** The world point distance along heading yaw + offset degrees from the
        pose's location: (d cos theta, d sin theta, 0) + location. */
    function LateralPoint(pose: Transform, distance: real, offset: real): (p: Vec3)
      ensures p.z == pose.location.z
    {
      var theta := pose.rotation.yaw + offset;
      Add(Vec3(distance * ext.cosDeg(theta), distance * ext.sinDeg(theta), 0.0), LocationVec(pose.location))
    }

    function ToVehicle(point: Vec3, vehicle: Transform): Vec3
    {
      WorldToVehicle(point, vehicle, ext.rotation(vehicle.rotation))
    }

    /** The projected left edge of the footprint (yaw + 90), (row, column). */
    function StartPixel(trajPose: Transform, vehicle: Transform): Point2
    {
      Reversed(ext.toImage(ToVehicle(LateralPoint(trajPose, vehicleHalfWidth, 90.0), vehicle)))
    }

    /** The projected right edge of the footprint (yaw - 90), (row, column). */
    function EndPixel(trajPose: Transform, vehicle: Transform): Point2
    {
      Reversed(ext.toImage(ToVehicle(LateralPoint(trajPose, vehicleHalfWidth, -90.0), vehicle)))
    }

    /** flag1 or flag2: at least one endpoint inside the image. */
    predicate Visible(trajPose: Transform, vehicle: Transform)
    {
      InFrame(StartPixel(trajPose, vehicle), imgHeight, imgWidth) ||
      InFrame(EndPixel(trajPose, vehicle), imgHeight, imgWidth)
    }

    function SegmentLength(trajPose: Transform, vehicle: Transform): real
    {
      var s, e := StartPixel(trajPose, vehicle), EndPixel(trajPose, vehicle);
      ext.norm(e.row - s.row, e.col - s.col)
    }

    /** drawLineInImage divides by the segment length and by the step
        factor only for a segment it does not reject. */
    predicate Drawable(trajPose: Transform, vehicle: Transform)
    {
      Visible(trajPose, vehicle) ==> SegmentLength(trajPose, vehicle) > 0.0 && lateralStepFactor > 0.0
    }

    function LineSamples(trajPose: Transform, vehicle: Transform): (pts: seq<Point2>)
      requires Visible(trajPose, vehicle) && Drawable(trajPose, vehicle)
      ensures |pts| >= 1 && pts[0] == StartPixel(trajPose, vehicle)
      ensures |pts| >= 2 ==> pts[|pts| - 1] == EndPixel(trajPose, vehicle)
    {
      SamplePoints(StartPixel(trajPose, vehicle), EndPixel(trajPose, vehicle),
                   SegmentLength(trajPose, vehicle), lateralStepFactor)
    }

    /** The pixels drawLineInImage sets for one pose: none for a rejected
        segment, otherwise the rounded samples that pass the bounds check.
        (A visible segment that is not drawable is outside drawLineInImage's
        precondition; no pixels are attributed to it.) */
    function LinePixels(trajPose: Transform, vehicle: Transform): (s: set<Pixel>)
      ensures forall px :: px in s ==> InBounds(px, imgHeight, imgWidth)
      ensures !Visible(trajPose, vehicle) ==> s == {}
    {
      if Visible(trajPose, vehicle) && Drawable(trajPose, vehicle) then Marked(RoundAll(LineSamples(trajPose, vehicle)), imgHeight, imgWidth)
      else {}
    }

    /** For a segment that is not rejected: a pixel is set exactly when it is
        in bounds and some sample rounds to it. */
    lemma LinePixelsExactly(trajPose: Transform, vehicle: Transform, px: Pixel)
      requires Visible(trajPose, vehicle) && Drawable(trajPose, vehicle)
      ensures var pts := LineSamples(trajPose, vehicle);
        px in LinePixels(trajPose, vehicle) <==>
        InBounds(px, imgHeight, imgWidth) && exists i :: 0 <= i < |pts| && RoundPixel(pts[i]) == px
    {
      var pts := LineSamples(trajPose, vehicle);
      var pxs := RoundAll(pts);
      MarkedMembers(pxs, imgHeight, imgWidth, px);
      if exists i :: 0 <= i < |pts| && RoundPixel(pts[i]) == px {
        var i :| 0 <= i < |pts| && RoundPixel(pts[i]) == px;
        assert pxs[i] == px;
      }
    }

    /** The pixels of the two endpoints are drawn when they pass the bounds
        check (the end one when the segment has at least two samples). */
    lemma LineEndpoints(trajPose: Transform, vehicle: Transform)
      requires Visible(trajPose, vehicle) && Drawable(trajPose, vehicle)
      ensures var s := RoundPixel(StartPixel(trajPose, vehicle));
        InBounds(s, imgHeight, imgWidth) ==> s in LinePixels(trajPose, vehicle)
      ensures var e := RoundPixel(EndPixel(trajPose, vehicle));
        |LineSamples(trajPose, vehicle)| >= 2 && InBounds(e, imgHeight, imgWidth) ==> e in LinePixels(trajPose, vehicle)
    {
      var pts := LineSamples(trajPose, vehicle);
      LinePixelsExactly(trajPose, vehicle, RoundPixel(StartPixel(trajPose, vehicle)));
      LinePixelsExactly(trajPose, vehicle, RoundPixel(EndPixel(trajPose, vehicle)));
      assert RoundPixel(pts[0]) == RoundPixel(StartPixel(trajPose, vehicle));
      if |pts| >= 2 {
        assert RoundPixel(pts[|pts| - 1]) == RoundPixel(EndPixel(trajPose, vehicle));
      }
    }

    /** The samples of a visible segment, from its endpoints and length. */
    lemma LineSamplesOf(trajPose: Transform, vehicle: Transform, start: Point2, end: Point2, length: real)
      requires Visible(trajPose, vehicle) && Drawable(trajPose, vehicle)
      requires start == StartPixel(trajPose, vehicle) && end == EndPixel(trajPose, vehicle)
      requires length == ext.norm(end.row - start.row, end.col - start.col)
      ensures length > 0.0 && lateralStepFactor > 0.0
      ensures LineSamples(trajPose, vehicle) == SamplePoints(start, end, length, lateralStepFactor)
    {
    }

    /** drawLineInImage: reject the segment when neither endpoint is in the
        image, otherwise set every in-bounds rounded sample to 255. No other
        cell changes. */
    method DrawLineInImage(trajPose: Transform, vehicle: Transform, image: array3<int>)
      requires image.Length0 == imgHeight && image.Length1 == imgWidth && image.Length2 == 3
      requires Drawable(trajPose, vehicle)
      modifies image
      ensures forall r, c, ch | 0 <= r < imgHeight && 0 <= c < imgWidth && 0 <= ch < 3 ::
        image[r, c, ch] == if Pixel(r, c) in LinePixels(trajPose, vehicle) then 255 else old(image[r, c, ch])
      ensures !Visible(trajPose, vehicle) ==> unchanged(image)
    {
      var startPixelVec := StartPixel(trajPose, vehicle);
      var endPixelVec := EndPixel(trajPose, vehicle);
      var flag1 := InFrame(startPixelVec, imgHeight, imgWidth);
      var flag2 := InFrame(endPixelVec, imgHeight, imgWidth);
      if !flag1 && !flag2 {
        return;
      }
      var length := ext.norm(endPixelVec.row - startPixelVec.row, endPixelVec.col - startPixelVec.col);
      LineSamplesOf(trajPose, vehicle, startPixelVec, endPixelVec, length);
      var direction := Direction(startPixelVec, endPixelVec, length);
      RoundPositive(length / lateralStepFactor);
      var lateralSampleNumber := Round(length / lateralStepFactor) + 1;
      var distanceArray := Linspace(0.0, length, lateralSampleNumber);
      MarkSamples(image, imgHeight, imgWidth, startPixelVec, endPixelVec, length, lateralStepFactor,
                  direction, lateralSampleNumber, distanceArray);
    }

    /** The pixel indices drawLineInWorld computes: one per lateral offset,
        at heading yaw - 90, projected straight to integer pixels. */
    function WorldSamples(trajPose: Transform, vehicle: Transform): (pxs: seq<Pixel>)
      ensures |pxs| == |lateralSampleArray|
    {
      seq(|lateralSampleArray|, i requires 0 <= i < |lateralSampleArray| =>
        ReversedPixel(ext.toPixel(ToVehicle(LateralPoint(trajPose, lateralSampleArray[i], -90.0), vehicle))))
    }

    /** drawLineInWorld: set every projected lateral sample that passes the
        bounds check to 255; out-of-range samples are skipped and no other
        cell changes. */
    method DrawLineInWorld(trajPose: Transform, vehicle: Transform, image: array3<int>)
      requires image.Length0 == imgHeight && image.Length1 == imgWidth && image.Length2 == 3
      modifies image
      ensures forall r, c, ch | 0 <= r < imgHeight && 0 <= c < imgWidth && 0 <= ch < 3 ::
        image[r, c, ch] == if Pixel(r, c) in Marked(WorldSamples(trajPose, vehicle), imgHeight, imgWidth)
                           then 255 else old(image[r, c, ch])
    {
      ghost var pixels := WorldSamples(trajPose, vehicle);
      for i := 0 to |lateralSampleArray|
        invariant forall r, c, ch | 0 <= r < imgHeight && 0 <= c < imgWidth && 0 <= ch < 3 ::
          image[r, c, ch] == if Pixel(r, c) in Marked(pixels[..i], imgHeight, imgWidth) then 255 else old(image[r, c, ch])
      {
        var distance := lateralSampleArray[i];
        var worldVec := LateralPoint(trajPose, distance, -90.0);
        var vehicleVec := ToVehicle(worldVec, vehicle);
        var imagePixelVec := ReversedPixel(ext.toPixel(vehicleVec));
        assert imagePixelVec == pixels[i];
        MarkedStep(pixels, i, imgHeight, imgWidth);
        if InBounds(imagePixelVec, imgHeight, imgWidth) {
          MarkPixel(image, imagePixelVec.row, imagePixelVec.col);
        }
      }
      assert pixels[..|lateralSampleArray|] == pixels;
    }

    predicate AllDrawable(poses: seq<Transform>, vehicle: Transform)
    {
      forall p | p in poses :: Drawable(p, vehicle)
    }

    /** The pixels set by drawing the poses in order, one after the other. */
    function Painted(poses: seq<Transform>, vehicle: Transform): (s: set<Pixel>)
      ensures forall px :: px in s ==> InBounds(px, imgHeight, imgWidth)
    {
      if poses == [] then {}
      else Painted(poses[..|poses| - 1], vehicle) + LinePixels(poses[|poses| - 1], vehicle)
    }

    /** Drawing one more pose adds its line to what is painted. */
    lemma PaintedAppend(drawn: seq<Transform>, pose: Transform, vehicle: Transform)
      ensures Painted(drawn + [pose], vehicle) == Painted(drawn, vehicle) + LinePixels(pose, vehicle)
    {
      assert (drawn + [pose])[..|drawn|] == drawn;
    }

    /** The mask is the union of what each draw call marks. */
    lemma {:induction false} PaintedMembers(poses: seq<Transform>, vehicle: Transform, px: Pixel)
      ensures px in Painted(poses, vehicle) <==> exists i :: 0 <= i < |poses| && px in LinePixels(poses[i], vehicle)
    {
      if poses != [] {
        var n := |poses|;
        var init := poses[..n - 1];
        PaintedMembers(init, vehicle, px);
        if exists i :: 0 <= i < n && px in LinePixels(poses[i], vehicle) {
          var i :| 0 <= i < n && px in LinePixels(poses[i], vehicle);
          if i < n - 1 {
            assert init[i] == poses[i];
          }
        }
        if exists i :: 0 <= i < n - 1 && px in LinePixels(init[i], vehicle) {
          var i :| 0 <= i < n - 1 && px in LinePixels(init[i], vehicle);
          assert poses[i] == init[i];
        }
      }
    }

    /** Every write stores 255, so neither the order of the draw calls nor
        drawing a pose twice changes the mask: poses drawn in any order, with
        any repetition, give the same pixels. */
    lemma PaintedOrderFree(poses1: seq<Transform>, poses2: seq<Transform>, vehicle: Transform)
      requires forall p :: p in poses1 <==> p in poses2
      ensures Painted(poses1, vehicle) == Painted(poses2, vehicle)
    {
      forall px | px in Painted(poses1, vehicle)
        ensures px in Painted(poses2, vehicle)
      {
        PaintedMembers(poses1, vehicle, px);
        PaintedMembers(poses2, vehicle, px);
        var i :| 0 <= i < |poses1| && px in LinePixels(poses1[i], vehicle);
        assert poses1[i] in poses2;
        var j :| 0 <= j < |poses2| && poses2[j] == poses1[i];
      }
      forall px | px in Painted(poses2, vehicle)
        ensures px in Painted(poses1, vehicle)
      {
        PaintedMembers(poses1, vehicle, px);
        PaintedMembers(poses2, vehicle, px);
        var j :| 0 <= j < |poses2| && px in LinePixels(poses2[j], vehicle);
        assert poses2[j] in poses1;
        var i :| 0 <= i < |poses1| && poses1[i] == poses2[j];
      }
    }

    /** np.logspace(near, far, count, base=2): 2 raised to each value of
        np.linspace(near, far, count). */
    function LongitudinalArray(count: nat): (a: seq<real>)
      ensures |a| == count
    {
      var exponents := Linspace(longitudinalSampleNumberNear, longitudinalSampleNumberFar, count);
      seq(count, i requires 0 <= i < count => ext.pow2(exponents[i]))
    }

    ghost predicate PowPositive()
    {
      forall x :: ext.pow2(x) > 0.0
    }

    /** Consecutive timestamps differ, so no interval T = t2 - t1 that
        getLinearPose divides by is zero. */
    predicate DistinctSteps(traj: seq<Sample>)
    {
      forall i | 0 <= i < |traj| - 1 :: traj[i].time != traj[i + 1].time
    }

    /** round(x) of every x of a positive array. */
    function Counts(a: seq<real>): (counts: seq<nat>)
      requires forall i | 0 <= i < |a| :: a[i] > 0.0
      ensures |counts| == |a|
    {
      seq(|a|, i requires 0 <= i < |a| => RoundPositive(a[i]); Round(a[i]))
    }

    /** round(longitudinal_array[i]) for every pair i: how many poses are
        interpolated between samples i and i + 1. */
    function PairCounts(traj: seq<Sample>): (counts: seq<nat>)
      requires |traj| >= 1 && PowPositive()
      ensures |counts| == |traj| - 1
    {
      Counts(LongitudinalArray(|traj| - 1))
    }

    /** getLinearPose(t, T, pose1, pose2) for every t of timeArray. */
    function Interpolate(timeArray: seq<real>, T: real, pose1: Transform, pose2: Transform): (ps: seq<Transform>)
      requires T != 0.0
      ensures |ps| == |timeArray|
    {
      seq(|timeArray|, j requires 0 <= j < |timeArray| => LinearPose(timeArray[j], T, pose1, pose2, ext.wrap))
    }

    lemma InterpolateAt(timeArray: seq<real>, T: real, pose1: Transform, pose2: Transform, j: nat)
      requires T != 0.0 && j < |timeArray|
      ensures Interpolate(timeArray, T, pose1, pose2)[j] == LinearPose(timeArray[j], T, pose1, pose2, ext.wrap)
    {
    }

    /** The n poses getPM draws between samples i and i + 1: getLinearPose
        at every time of np.linspace(0, T, n), with T = t2 - t1. */
    function PairPoses(traj: seq<Sample>, i: nat, n: nat): (ps: seq<Transform>)
      requires DistinctSteps(traj) && i < |traj| - 1
      ensures |ps| == n
    {
      var t1, pose1 := traj[i].time, traj[i].pose;
      var t2, pose2 := traj[i + 1].time, traj[i + 1].pose;
      var T := t2 - t1;
      Interpolate(Linspace(0.0, T, n), T, pose1, pose2)
    }

    /** The interpolation run between samples i and i + 1 starts at sample
        i's pose, ends at sample i + 1's location when it has two or more
        poses, and keeps every position between the two samples' positions. */
    lemma PairPosesEndpoints(traj: seq<Sample>, i: nat, n: nat)
      requires DistinctSteps(traj) && i < |traj| - 1
      ensures var ps := PairPoses(traj, i, n);
        (|ps| >= 1 ==> ps[0] == traj[i].pose) &&
        (|ps| >= 2 ==> ps[|ps| - 1].location == traj[i + 1].pose.location)
      ensures var ps := PairPoses(traj, i, n);
        var l1, l2 := traj[i].pose.location, traj[i + 1].pose.location;
        forall j | 0 <= j < |ps| ::
          Between(l1.x, ps[j].location.x, l2.x) &&
          Between(l1.y, ps[j].location.y, l2.y) &&
          Between(l1.z, ps[j].location.z, l2.z)
    {
      var ps := PairPoses(traj, i, n);
      var T := traj[i + 1].time - traj[i].time;
      var timeArray := Linspace(0.0, T, n);
      if n >= 1 {
        LinearPoseEndpoints(timeArray[0], T, traj[i].pose, traj[i + 1].pose, ext.wrap);
        LinearPoseEndpoints(timeArray[n - 1], T, traj[i].pose, traj[i + 1].pose, ext.wrap);
      }
      forall j | 0 <= j < |ps|
        ensures var l1, l2 := traj[i].pose.location, traj[i + 1].pose.location;
          Between(l1.x, ps[j].location.x, l2.x) &&
          Between(l1.y, ps[j].location.y, l2.y) &&
          Between(l1.z, ps[j].location.z, l2.z)
      {
        LinspaceWithin(0.0, T, n, j);
        LinearPoseBetween(timeArray[j], T, traj[i].pose, traj[i + 1].pose, ext.wrap);
      }
    }

    /** An element of the tail b of a prefix a + b of all sits |p| + |a| + j
        into p + all. */
    lemma ConcatIndex<T>(p: seq<T>, all: seq<T>, a: seq<T>, b: seq<T>, ab: seq<T>, j: nat)
      requires ab == a + b && |ab| <= |all| && all[..|ab|] == ab && j < |b|
      ensures |p| + |a| + j < |p + all| && (p + all)[|p| + |a| + j] == b[j]
    {
      assert all[|a| + j] == ab[|a| + j];
    }

    /** The poses interpolated for the first k pairs, in drawing order, pair
        i contributing counts[i] poses. */
    function Interpolated(traj: seq<Sample>, counts: seq<nat>, k: nat): seq<Transform>
      requires DistinctSteps(traj) && |counts| == |traj| - 1 && k <= |counts|
    {
      if k == 0 then [] else Interpolated(traj, counts, k - 1) + PairPoses(traj, k - 1, counts[k - 1])
    }

    /** The poses of pair i are those drawn from the time array of its interval. */
    lemma PairPosesAre(traj: seq<Sample>, i: nat, n: nat, T: real, timeArray: seq<real>)
      requires DistinctSteps(traj) && i < |traj| - 1
      requires T == traj[i + 1].time - traj[i].time && timeArray == Linspace(0.0, T, n)
      ensures T != 0.0
      ensures PairPoses(traj, i, n) == Interpolate(timeArray, T, traj[i].pose, traj[i + 1].pose)
    {
    }

    /** Drawing pair i after the samples and pairs 0 .. i - 1 completes pairs 0 .. i. */
    lemma DrawnAfterPair(traj: seq<Sample>, counts: seq<nat>, i: nat)
      requires DistinctSteps(traj) && |counts| == |traj| - 1 && i < |counts|
      ensures TrajPoses(traj) + Interpolated(traj, counts, i) + PairPoses(traj, i, counts[i])
        == TrajPoses(traj) + Interpolated(traj, counts, i + 1)
    {
      InterpolatedStep(traj, counts, i);
      ConcatAssoc(TrajPoses(traj), Interpolated(traj, counts, i), PairPoses(traj, i, counts[i]));
    }

    lemma InterpolatedStep(traj: seq<Sample>, counts: seq<nat>, i: nat)
      requires DistinctSteps(traj) && |counts| == |traj| - 1 && i < |counts|
      ensures Interpolated(traj, counts, i + 1) == Interpolated(traj, counts, i) + PairPoses(traj, i, counts[i])
    {
    }

    /** Sum of the first k counts. */
    function TotalCount(counts: seq<nat>, k: nat): nat
      requires k <= |counts|
    {
      if k == 0 then 0 else TotalCount(counts, k - 1) + counts[k - 1]
    }

    function TrajPoses(traj: seq<Sample>): (ps: seq<Transform>)
      ensures |ps| == |traj|
    {
      seq(|traj|, i requires 0 <= i < |traj| => traj[i].pose)
    }

    /** Every pose getPM passes to drawLineInImage, in call order: each
        trajectory sample, then the interpolated poses pair by pair. */
    function DrawnPoses(traj: seq<Sample>): seq<Transform>
      requires |traj| >= 1 && DistinctSteps(traj) && PowPositive()
    {
      TrajPoses(traj) + Interpolated(traj, PairCounts(traj), |traj| - 1)
    }

    lemma {:induction false} InterpolatedLength(traj: seq<Sample>, counts: seq<nat>, k: nat)
      requires DistinctSteps(traj) && |counts| == |traj| - 1 && k <= |counts|
      ensures |Interpolated(traj, counts, k)| == TotalCount(counts, k)
    {
      if k > 0 {
        InterpolatedLength(traj, counts, k - 1);
      }
    }

    /** getPM draws once per trajectory sample and then round(longitudinal_array[i])
        times for each of the |traj| - 1 consecutive pairs. */
    lemma DrawnPosesCount(traj: seq<Sample>)
      requires |traj| >= 1 && DistinctSteps(traj) && PowPositive()
      ensures |DrawnPoses(traj)| == |traj| + TotalCount(PairCounts(traj), |traj| - 1)
      ensures DrawnPoses(traj)[..|traj|] == TrajPoses(traj)
    {
      InterpolatedLength(traj, PairCounts(traj), |traj| - 1);
    }

    /** The interpolated poses of earlier pairs are a prefix of those of later ones. */
    lemma {:induction false} InterpolatedPrefix(traj: seq<Sample>, counts: seq<nat>, k: nat, m: nat)
      requires DistinctSteps(traj) && |counts| == |traj| - 1 && k <= m <= |counts|
      ensures |Interpolated(traj, counts, k)| <= |Interpolated(traj, counts, m)|
      ensures Interpolated(traj, counts, m)[..|Interpolated(traj, counts, k)|] == Interpolated(traj, counts, k)
    {
      if k < m {
        InterpolatedPrefix(traj, counts, k, m - 1);
        var a, b := Interpolated(traj, counts, m - 1), Interpolated(traj, counts, m);
        assert b == a + PairPoses(traj, m - 1, counts[m - 1]);
        assert b[..|a|] == a;
        assert b[..|Interpolated(traj, counts, k)|] == a[..|Interpolated(traj, counts, k)|];
      }
    }

    /** The j-th pose interpolated between samples i and i + 1 is one getPM
        draws, after the samples and the poses of the earlier pairs. */
    lemma {:induction false} PairPoseDrawn(traj: seq<Sample>, counts: seq<nat>, i: nat, j: nat)
      requires DistinctSteps(traj) && |counts| == |traj| - 1 && i < |counts| && j < counts[i]
      ensures var all := TrajPoses(traj) + Interpolated(traj, counts, |counts|);
        var k := |traj| + |Interpolated(traj, counts, i)| + j;
        k < |all| && all[k] == PairPoses(traj, i, counts[i])[j]
    {
      var a, b := Interpolated(traj, counts, i), PairPoses(traj, i, counts[i]);
      var ab, all := Interpolated(traj, counts, i + 1), Interpolated(traj, counts, |counts|);
      InterpolatedPrefix(traj, counts, i + 1, |counts|);
      InterpolatedStep(traj, counts, i);
      ConcatIndex(TrajPoses(traj), all, a, b, ab, j);
      assert |TrajPoses(traj)| == |traj|;
    }

    /** Every pose interpolated for pair i is among the poses getPM draws. */
    lemma {:induction false} PairPosesDrawnMembers(traj: seq<Sample>, counts: seq<nat>, i: nat)
      requires DistinctSteps(traj) && |counts| == |traj| - 1 && i < |counts|
      ensures forall p | p in PairPoses(traj, i, counts[i]) :: p in TrajPoses(traj) + Interpolated(traj, counts, |counts|)
    {
      var ps := PairPoses(traj, i, counts[i]);
      var all := TrajPoses(traj) + Interpolated(traj, counts, |counts|);
      forall p | p in ps
        ensures p in all
      {
        var j :| 0 <= j < |ps| && ps[j] == p;
        PairPoseDrawn(traj, counts, i, j);
        assert all[|traj| + |Interpolated(traj, counts, i)| + j] == p;
      }
    }

    /** The poses of one pair are drawable when all that getPM draws is. */
    lemma PairDrawable(traj: seq<Sample>, i: nat, vehicle: Transform)
      requires |traj| >= 1 && DistinctSteps(traj) && PowPositive() && i < |traj| - 1
      requires AllDrawable(DrawnPoses(traj), vehicle)
      ensures AllDrawable(PairPoses(traj, i, PairCounts(traj)[i]), vehicle)
    {
      PairPosesDrawnMembers(traj, PairCounts(traj), i);
      AllDrawableSubset(PairPoses(traj, i, PairCounts(traj)[i]), DrawnPoses(traj), vehicle);
    }

    /** Every pose of a drawable sequence is drawable. */
    lemma AllDrawableSubset(a: seq<Transform>, b: seq<Transform>, vehicle: Transform)
      requires forall p | p in a :: p in b
      requires AllDrawable(b, vehicle)
      ensures AllDrawable(a, vehicle)
    {
    }

    /** The count of pair i is round() of a positive array entry. */
    lemma PairCountAt(traj: seq<Sample>, i: nat)
      requires |traj| >= 1 && PowPositive() && i < |traj| - 1
      ensures LongitudinalArray(|traj| - 1)[i] > 0.0
      ensures PairCounts(traj)[i] == Round(LongitudinalArray(|traj| - 1)[i])
    {
    }

    /** One drawLineInImage call on a mask of the pixels marked so far
        yields the mask of those pixels and the ones this pose adds. */
    method DrawOverMask(trajPose: Transform, vehicle: Transform, image: array3<int>, ghost marked: set<Pixel>)
      requires Drawable(trajPose, vehicle)
      requires IsMask(image, marked, imgHeight, imgWidth)
      modifies image
      ensures IsMask(image, marked + LinePixels(trajPose, vehicle), imgHeight, imgWidth)
    {
      DrawLineInImage(trajPose, vehicle, image);
    }

    /** The inner loop of getPM: draw getLinearPose(t, T, pose1, pose2) for
        every t of timeArray, in order. drawn is what was drawn before. */
    method DrawInterpolated(timeArray: seq<real>, T: real, pose1: Transform, pose2: Transform,
                            vehicle: Transform, image: array3<int>, ghost drawn: seq<Transform>)
      returns (ghost drawnAfter: seq<Transform>)
      requires T != 0.0
      requires AllDrawable(Interpolate(timeArray, T, pose1, pose2), vehicle)
      requires IsMask(image, Painted(drawn, vehicle), imgHeight, imgWidth)
      modifies image
      ensures drawnAfter == drawn + Interpolate(timeArray, T, pose1, pose2)
      ensures IsMask(image, Painted(drawnAfter, vehicle), imgHeight, imgWidth)
    {
      ghost var poses := Interpolate(timeArray, T, pose1, pose2);
      drawnAfter := drawn;
      for j := 0 to |timeArray|
        invariant drawnAfter == drawn + poses[..j]
        invariant IsMask(image, Painted(drawnAfter, vehicle), imgHeight, imgWidth)
      {
        var t := timeArray[j];
        var pose := LinearPose(t, T, pose1, pose2, ext.wrap);
        InterpolateAt(timeArray, T, pose1, pose2, j);
        DrawOverMask(pose, vehicle, image, Painted(drawnAfter, vehicle));
        PaintedAppend(drawnAfter, pose, vehicle);
        PrefixStep(poses, j);
        ConcatAssoc(drawn, poses[..j], [pose]);
        drawnAfter := drawnAfter + [pose];
      }
      assert poses[..|timeArray|] == poses;
    }

    /** The first loop of getPM: draw the pose of every trajectory sample,
        in order, over the zero template. */
    method DrawSamples(trajPoseList: seq<Sample>, vehicle: Transform, image: array3<int>)
      returns (ghost drawn: seq<Transform>)
      requires AllDrawable(TrajPoses(trajPoseList), vehicle)
      requires IsMask(image, {}, imgHeight, imgWidth)
      modifies image
      ensures drawn == TrajPoses(trajPoseList)
      ensures IsMask(image, Painted(drawn, vehicle), imgHeight, imgWidth)
    {
      ghost var poses := TrajPoses(trajPoseList);
      drawn := [];
      for k := 0 to |trajPoseList|
        invariant drawn == poses[..k]
        invariant IsMask(image, Painted(drawn, vehicle), imgHeight, imgWidth)
      {
        var trajPose := trajPoseList[k].pose;
        assert trajPose == poses[k];
        DrawOverMask(trajPose, vehicle, image, Painted(drawn, vehicle));
        PaintedAppend(drawn, trajPose, vehicle);
        drawn := drawn + [trajPose];
        PrefixStep(poses, k);
      }
      assert poses[..|trajPoseList|] == poses;
    }

    /** After the samples and the first i pairs have been drawn: drawn lists
        exactly those poses, in call order, and the image is their mask. */
    ghost predicate PairsDrawn(trajPoseList: seq<Sample>, i: nat, vehicle: Transform, image: array3<int>, drawn: seq<Transform>)
      requires |trajPoseList| >= 1 && DistinctSteps(trajPoseList) && PowPositive() && i < |trajPoseList|
      reads image
    {
      drawn == TrajPoses(trajPoseList) + Interpolated(trajPoseList, PairCounts(trajPoseList), i) &&
      IsMask(image, Painted(drawn, vehicle), imgHeight, imgWidth)
    }

    /** One pass of getPM's second loop: draw the poses interpolated
        between samples i and i + 1 after those already drawn. */
    method DrawPair(trajPoseList: seq<Sample>, i: nat, longitudinalArray: seq<real>, vehicle: Transform,
                    image: array3<int>, ghost drawn: seq<Transform>)
      returns (ghost drawnAfter: seq<Transform>)
      requires |trajPoseList| >= 1 && DistinctSteps(trajPoseList) && PowPositive() && i < |trajPoseList| - 1
      requires i < |longitudinalArray| && longitudinalArray[i] == LongitudinalArray(|trajPoseList| - 1)[i]
      requires AllDrawable(DrawnPoses(trajPoseList), vehicle)
      requires PairsDrawn(trajPoseList, i, vehicle, image, drawn)
      modifies image
      ensures PairsDrawn(trajPoseList, i + 1, vehicle, image, drawnAfter)
    {
      PairCountAt(trajPoseList, i);
      PairDrawable(trajPoseList, i, vehicle);
      RoundPositive(longitudinalArray[i]);
      var count := Round(longitudinalArray[i]);
      var t1, pose1 := trajPoseList[i].time, trajPoseList[i].pose;
      var t2, pose2 := trajPoseList[i + 1].time, trajPoseList[i + 1].pose;
      var T := t2 - t1;
      var timeArray := Linspace(0.0, T, count);
      PairPosesAre(trajPoseList, i, count, T, timeArray);
      drawnAfter := DrawInterpolated(timeArray, T, pose1, pose2, vehicle, image, drawn);
      DrawnAfterPair(trajPoseList, PairCounts(trajPoseList), i);
    }

    /** The second loop of getPM: for each consecutive pair of samples, draw
        the poses interpolated between them, pair by pair. */
    method DrawPairs(trajPoseList: seq<Sample>, vehicle: Transform, image: array3<int>, ghost drawn: seq<Transform>)
      returns (ghost drawnAfter: seq<Transform>)
      requires |trajPoseList| >= 1 && DistinctSteps(trajPoseList) && PowPositive()
      requires AllDrawable(DrawnPoses(trajPoseList), vehicle)
      requires drawn == TrajPoses(trajPoseList)
      requires IsMask(image, Painted(drawn, vehicle), imgHeight, imgWidth)
      modifies image
      ensures drawnAfter == DrawnPoses(trajPoseList)
      ensures IsMask(image, Painted(drawnAfter, vehicle), imgHeight, imgWidth)
    {
      var poseNumber := |trajPoseList|;
      var longitudinalArray := LongitudinalArray(|trajPoseList| - 1);
      PairsDrawnInitially(trajPoseList, vehicle, image, drawn);
      drawnAfter := drawn;
      for i := 0 to poseNumber - 1
        invariant PairsDrawn(trajPoseList, i, vehicle, image, drawnAfter)
      {
        drawnAfter := DrawPair(trajPoseList, i, longitudinalArray, vehicle, image, drawnAfter);
      }
      PairsDrawnFinally(trajPoseList, vehicle, image, drawnAfter);
    }

    /** Before the second loop only the samples are drawn. */
    lemma PairsDrawnInitially(trajPoseList: seq<Sample>, vehicle: Transform, image: array3<int>, drawn: seq<Transform>)
      requires |trajPoseList| >= 1 && DistinctSteps(trajPoseList) && PowPositive()
      requires drawn == TrajPoses(trajPoseList)
      requires IsMask(image, Painted(drawn, vehicle), imgHeight, imgWidth)
      ensures PairsDrawn(trajPoseList, 0, vehicle, image, drawn)
    {
      assert Interpolated(trajPoseList, PairCounts(trajPoseList), 0) == [];
      assert drawn + [] == drawn;
    }

    /** After all |traj| - 1 pairs, the drawn poses are all that getPM draws. */
    lemma PairsDrawnFinally(trajPoseList: seq<Sample>, vehicle: Transform, image: array3<int>, drawn: seq<Transform>)
      requires |trajPoseList| >= 1 && DistinctSteps(trajPoseList) && PowPositive()
      requires PairsDrawn(trajPoseList, |trajPoseList| - 1, vehicle, image, drawn)
      ensures drawn == DrawnPoses(trajPoseList)
      ensures IsMask(image, Painted(drawn, vehicle), imgHeight, imgWidth)
    {
    }

    /** getPM: copy the zero template, draw the footprint of every trajectory
        sample, then of the interpolated poses between consecutive samples.
        The result is a fresh mask of the sensor's shape that is 255 in all
        channels exactly at the union of the pixels the draws mark and 0
        elsewhere; the template is left as it was. */
    method GetPM(trajPoseList: seq<Sample>, vehicle: Transform) returns (r: Result<array3<int>>)
      requires Valid()
      requires DistinctSteps(trajPoseList) && PowPositive()
      requires |trajPoseList| >= 1 ==> AllDrawable(DrawnPoses(trajPoseList), vehicle)
      ensures Valid()
      ensures r.Err? <==> |trajPoseList| == 0
      ensures r.Ok? ==> fresh(r.value) && IsMask(r.value, Painted(DrawnPoses(trajPoseList), vehicle), imgHeight, imgWidth)
      ensures r.Ok? ==> forall row, col, ch | 0 <= row < imgHeight && 0 <= col < imgWidth && 0 <= ch < 3 ::
        (r.value[row, col, ch] == 0 || r.value[row, col, ch] == 255) && r.value[row, col, ch] == r.value[row, col, 0]
    {
      var emptyCopy := DeepCopy(emptyImage);
      assert IsMask(emptyCopy, {}, imgHeight, imgWidth);
      if |trajPoseList| >= 1 {
        DrawnPosesCount(trajPoseList);
        forall k | 0 <= k < |trajPoseList|
          ensures Drawable(TrajPoses(trajPoseList)[k], vehicle)
        {
          assert DrawnPoses(trajPoseList)[k] == TrajPoses(trajPoseList)[k];
        }
      }
      ghost var drawn := DrawSamples(trajPoseList, vehicle, emptyCopy);
      var poseNumber := |trajPoseList|;
      if poseNumber == 0 {
        return Err(EmptyTrajectory);
      }
      drawn := DrawPairs(trajPoseList, vehicle, emptyCopy, drawn);
      return Ok(emptyCopy);
    }
  }
}
