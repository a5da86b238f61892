# Perspective mask rasteriser (collect_pm)

`CollectPerspectiveImage` turns a trajectory into a perspective mask. A
trajectory is a list of timestamped poses. The mask is an image of the
camera's size, zero everywhere except where the lateral footprint of the
vehicle was drawn.

For every trajectory sample, and for a number of poses interpolated linearly
between consecutive samples, the class does three things:
- takes the two points half a vehicle width to the left and right of the
  pose;
- projects both points into the image;
- draws the segment between them by evenly spaced sampling, setting each
  rounded sample that falls inside the image to 255 in all three channels.

The model has three modules, one file each:

- `sampling.dfy` (`Sampling`): Python's `round` (ties go to the even
  integer) and `numpy.linspace`, both in exact real arithmetic.
- `pose.dfy` (`Pose`): poses as plain records, the world-to-vehicle change
  of frame (`world3DToVehicle3D`) and the linear pose interpolation
  (`getLinearPose`).
- `collect_pm.dfy` (`CollectPm`): the class `CollectPerspectiveImage`.
  - The image is an `array3<int>` of shape height x width x 3. The methods
    `DrawLineInImage`, `DrawLineInWorld` and `GetPM` update it in place. The
    source's `for` loops are `for` loops of `MarkSamples` (the sampling loop
    of `drawLineInImage`), `DrawSamples` (the first loop of `getPM`),
    `DrawPairs` (its loop over consecutive pairs, one pass per `DrawPair`),
    `DrawInterpolated` (its loop over the time array) and `DrawLineInWorld`
    itself.
  - Each method is proved against specification functions. `LinePixels` gives
    the pixels one draw call sets. `Painted` gives the pixels a sequence of
    draw calls sets. `DrawnPoses` gives the poses `getPM` draws, in call order.
  - Each loop sits in its own method whose invariants describe the image so
    far. In `MarkSamples` and `DrawLineInWorld` the cells of the in-bounds
    samples visited so far are 255 and every other cell keeps its value from before
    the call. In `DrawSamples`, `DrawInterpolated` and `DrawPairs` the image
    is the mask of all poses drawn so far.

Code the rasteriser calls but that is not modelled here enters as functions
held by the `Foreign` datatype that the constructor receives:
- the camera projections (`world3DToImage2D`, `world3DToImagePixel2D`) and
  `rotationMatrix3D`;
- cosine and sine of an angle in degrees;
- `np.linalg.norm` of a 2-vector;
- the power `2 ** x` behind `np.logspace(..., base=2)`;
- `basic_tools.pi2pi`.

`np.logspace(a, b, n, base=2)` itself is modelled: it is `2 ** x` over
`np.linspace(a, b, n)`.

Two behaviours of `getPM` worth stating:
- Of the trajectory lengths, only the empty one fails: `np.logspace(..., pose_number - 1)`
  raises `ValueError` for a count of -1, after the first loop has drawn
  nothing. That case is `GetPM`'s `Err(EmptyTrajectory)`. A one-sample
  trajectory is accepted and yields the mask of its pose.
- The code only divides by `T = t2 - t1`, so the model asks only that
  consecutive timestamps differ (`DistinctSteps`). Decreasing steps are
  allowed.

## Model

| member | source | states |
|---|---|---|
| Sampling.Round | scripts/ff/collect_pm.py:184 | the result is within one half of the argument, and an exact tie goes to the even integer |
| Sampling.RoundUnique | scripts/ff/collect_pm.py:184 | those two properties determine the rounded value uniquely |
| Sampling.RoundPositive | scripts/ff/collect_pm.py:179 | rounding a positive ratio is non-negative, so `round(length / step) + 1` is at least one |
| Sampling.Linspace | scripts/ff/collect_pm.py:180 | `num` values are produced; the first is `start` and, when there are two or more, the last is exactly `stop` |
| Sampling.LinspaceEvenlySpaced | scripts/ff/collect_pm.py:180 | value i is `start + i/(num-1) * (stop - start)`, the last value included |
| Sampling.LinspaceBetween | scripts/ff/collect_pm.py:129 | for `start <= stop` the values are non-decreasing and stay in `[start, stop]` |
| Sampling.LinspaceWithin | scripts/ff/collect_pm.py:129 | every value lies between `start` and `stop`, whichever is larger (time arrays `linspace(0, T)` with T of either sign) |
| Pose.WorldToVehicle | scripts/ff/collect_pm.py:16-26 | `R.T * (point - t)`; the vehicle's own location maps to the origin of its frame |
| Pose.VehicleToWorld | scripts/ff/collect_pm.py:16-26 | for an orthonormal R, rotating back by R and adding t recovers the world point, so the change of frame is invertible |
| Pose.LinearPose | scripts/ff/collect_pm.py:62-77 | at `t = 0` the interpolated pose is exactly `pose1`; `LinearPoseEndpoints`, `LinearPoseBetween` and `LinearPoseAngleStep` state the rest |
| Pose.LinearPoseEndpoints | scripts/ff/collect_pm.py:62-77 | at `t = 0` the interpolated pose is `pose1` (location and all three angles); at `t = T` its location is `pose2`'s |
| Pose.LinearPoseBetween | scripts/ff/collect_pm.py:69-71 | for t between 0 and T each of x, y, z lies between the two poses' coordinates |
| Pose.LinearPoseAngleStep | scripts/ff/collect_pm.py:72-74 | when pi2pi keeps differences within half a turn, no interpolated angle is more than 180 degrees from `pose1`'s |
| CollectPm.SamplePoints | scripts/ff/collect_pm.py:177-183 | a segment is sampled at `round(length / step) + 1 >= 1` points; the first is the start pixel and, with two or more, the last is the end pixel |
| CollectPm.SamplesEvenlySpaced | scripts/ff/collect_pm.py:177-183 | sample i lies `i/(n-1)` of the way from the start pixel to the end pixel |
| CollectPm.Marked | scripts/ff/collect_pm.py:185-186 | a sequence of guarded writes only ever marks pixels inside the image |
| CollectPm.MarkedMembers | scripts/ff/collect_pm.py:185-186 | a pixel is marked exactly when it passes the bounds check and some write targets it |
| CollectPm.DeepCopy | scripts/ff/collect_pm.py:111 | the copy is a fresh array of the same shape with the same cells |
| CollectPm.MarkPixel | scripts/ff/collect_pm.py:186 | the three channels of pixel (x, y) become 255 and no other cell changes |
| CollectPm.MarkSamples | scripts/ff/collect_pm.py:180-186 | after the sampling loop a cell is 255 when its pixel is an in-bounds rounded sample, and is unchanged otherwise |
| CollectPm.CollectPerspectiveImage.constructor | scripts/ff/collect_pm.py:81-105 | half width, sampling settings, lateral offsets `linspace(-half, half, n)`, image size, and a fresh all-zero height x width x 3 template |
| CollectPm.CollectPerspectiveImage.LateralPoint | scripts/ff/collect_pm.py:158-160 | the point at `distance` along heading `yaw + offset`, added to the pose's location; it keeps the pose's height (`z`) |
| CollectPm.CollectPerspectiveImage.StartPixel | scripts/ff/collect_pm.py:158-163 | definition: the left point (`yaw + 90`), taken into the vehicle frame, projected and reversed to (row, column); `LineEndpoints` states that its rounding is drawn |
| CollectPm.CollectPerspectiveImage.EndPixel | scripts/ff/collect_pm.py:164-169 | definition: the right point (`yaw - 90`), as for the start; `LineEndpoints` states that its rounding is drawn when there are two or more samples |
| CollectPm.CollectPerspectiveImage.Visible | scripts/ff/collect_pm.py:171-175 | definition: at least one endpoint passes the `min_pixel`/`max_pixel` check; `LinePixels` and `DrawLineInImage` state that an invisible segment draws nothing |
| CollectPm.CollectPerspectiveImage.LineSamples | scripts/ff/collect_pm.py:177-183 | the samples of a visible segment: at least one, the first is the start pixel and, with two or more, the last is the end pixel |
| CollectPm.CollectPerspectiveImage.LinePixels | scripts/ff/collect_pm.py:171-186 | the pixels one draw call sets are all inside the image, and none when both endpoints are outside |
| CollectPm.CollectPerspectiveImage.LinePixelsExactly | scripts/ff/collect_pm.py:177-186 | for a segment that is not rejected, a pixel is set exactly when it is in bounds and some sample rounds to it |
| CollectPm.CollectPerspectiveImage.LineEndpoints | scripts/ff/collect_pm.py:177-186 | the rounded start pixel is drawn when in bounds, and so is the end pixel when there are two or more samples |
| CollectPm.CollectPerspectiveImage.DrawLineInImage | scripts/ff/collect_pm.py:154-188 | exactly the cells of `LinePixels` become 255 and every other cell keeps its value; with both endpoints outside, the image is unchanged |
| CollectPm.CollectPerspectiveImage.WorldSamples | scripts/ff/collect_pm.py:195-199 | one projected pixel per lateral offset |
| CollectPm.CollectPerspectiveImage.DrawLineInWorld | scripts/ff/collect_pm.py:191-202 | exactly the in-bounds projected lateral samples become 255; out-of-range samples are skipped and every other cell is unchanged |
| CollectPm.CollectPerspectiveImage.Painted | scripts/ff/collect_pm.py:115-135 | the pixels painted by a sequence of draw calls are inside the image |
| CollectPm.CollectPerspectiveImage.PaintedMembers | scripts/ff/collect_pm.py:115-135 | the painted set is the union of what each draw call marks |
| CollectPm.CollectPerspectiveImage.PaintedOrderFree | scripts/ff/collect_pm.py:115-135 | two call sequences with the same poses paint the same pixels, whatever the order and repetitions |
| CollectPm.CollectPerspectiveImage.LongitudinalArray | scripts/ff/collect_pm.py:122 | the log-spaced array has one entry per consecutive pair |
| CollectPm.CollectPerspectiveImage.PairCounts | scripts/ff/collect_pm.py:122-129 | one count per consecutive pair; definition: pair i's count is `round(longitudinal_array[i])` |
| CollectPm.CollectPerspectiveImage.Interpolate | scripts/ff/collect_pm.py:131-133 | as many poses as the time array has entries; definition: pose j is `getLinearPose(time_array[j], T, pose1, pose2)`; `DrawInterpolated` states these are drawn in order |
| CollectPm.CollectPerspectiveImage.PairPoses | scripts/ff/collect_pm.py:125-133 | pair i contributes exactly its count of interpolated poses |
| CollectPm.CollectPerspectiveImage.PairPosesEndpoints | scripts/ff/collect_pm.py:125-133 | pair i's run starts at sample i's pose, ends at sample i + 1's location when it has two or more poses, and keeps every position between the two samples' positions |
| CollectPm.CollectPerspectiveImage.DrawnPoses | scripts/ff/collect_pm.py:115-135 | definition: the samples' poses, then every pair's interpolated poses pair by pair; `DrawnPosesCount` and `PairPoseDrawn` state its length and layout, and `GetPM` that the result is its mask |
| CollectPm.CollectPerspectiveImage.DrawnPosesCount | scripts/ff/collect_pm.py:115-135 | getPM draws once per sample, first and in order, and then the sum of the pair counts |
| CollectPm.CollectPerspectiveImage.PairPoseDrawn | scripts/ff/collect_pm.py:124-135 | the j-th pose of pair i is drawn at position `samples + (poses of the earlier pairs) + j` |
| CollectPm.CollectPerspectiveImage.DrawOverMask | scripts/ff/collect_pm.py:135 | one draw call on the mask of a pixel set yields the mask of that set plus the call's pixels |
| CollectPm.CollectPerspectiveImage.DrawInterpolated | scripts/ff/collect_pm.py:131-138 | the inner loop draws `getLinearPose(t)` for every t of the time array in order, and the image is the mask of all poses drawn so far |
| CollectPm.CollectPerspectiveImage.DrawSamples | scripts/ff/collect_pm.py:115-116 | the first loop draws every sample's pose in order over the zero copy, giving their mask |
| CollectPm.CollectPerspectiveImage.DrawPair | scripts/ff/collect_pm.py:124-135 | one pass of the second loop extends the drawn poses by pair i's poses and keeps the image their mask |
| CollectPm.CollectPerspectiveImage.DrawPairs | scripts/ff/collect_pm.py:121-135 | after the second loop the drawn poses are exactly `DrawnPoses` and the image is their mask |
| CollectPm.CollectPerspectiveImage.GetPM | scripts/ff/collect_pm.py:109-148 | an error exactly for the empty trajectory; otherwise a fresh array of the sensor's shape that is the mask of all drawn poses, every cell 0 or 255 with equal channels; the template stays all zero |

## Left out

- Camera projection, `rotationMatrix3D`, `np.cos`/`np.sin`/`np.deg2rad`, `np.linalg.norm`, `2 ** x` and `basic_tools.pi2pi`: their code is not part of this model. They are functions passed to the constructor. `basic_tools.np_dot` is not part of this model either; it is assumed to be `np.dot` and modelled as the matrix-vector product.
- Floating point: all arithmetic is exact over `real`. NaN, infinities and rounding error are not modelled.
- The `uint8` dtype: cells are `int`. `GetPM` proves that only 0 and 255 are ever stored, so no value wraps.
- The timing and `print` statements of `getPM` (scripts/ff/collect_pm.py:113-145): they do not affect the result.
- `eval` of the sensor's size attributes and the `sensor`/`camera_params` objects: the width, the height and the foreign projections are constructor inputs. `min_pixel`/`max_pixel` become bounds checks against height and width.
- The `image` argument of `getPM`: the source never uses it.
- `carla.Transform`, `carla.Location` and `carla.Rotation` are plain records.
- CollectPm.CollectPerspectiveImage.DrawLineInImage: requires `Drawable` (a visible segment has positive length and the step factor is positive). For a zero-length visible segment the source divides by zero; the model does not assign that case an outcome.
- CollectPm.CollectPerspectiveImage.LinePixels: attributes no pixels to a visible but non-drawable pose. `DrawLineInImage`'s precondition excludes that case.
- CollectPm.CollectPerspectiveImage.GetPM: requires consecutive timestamps to differ, because `t / T` with `T = 0` is not a number in the source.
- CollectPm.CollectPerspectiveImage.DistinctSteps: asks `T != 0` for every pair, also for a pair whose count `round(longitudinal_array[i])` is 0. The source never divides for such a pair, since `linspace(0, T, 0)` is empty. Each pair's interpolated poses are defined for the trajectory as a whole, and the counts depend on the foreign `2 ** x`, so the condition is kept independent of the counts.
- CollectPm.CollectPerspectiveImage.Drawable: also asks `lateral_step_factor > 0`. With a zero step the source divides by zero. With a negative step and `x = length / |step|`, the count `round(length / step) + 1` is 1 for `x <= 0.5` (only the start pixel is drawn), 0 for `0.5 < x < 1.5` (an empty linspace: nothing is drawn) and negative from `x = 1.5` on (`ValueError`). The model gives no outcome for a non-positive step, which is a configuration error rather than a property of a pose.
- CollectPm.CollectPerspectiveImage.GetPM: requires every pose it draws to be `Drawable`, for the same reason as `DrawLineInImage`.
- CollectPm.CollectPerspectiveImage.GetPM: requires the foreign `2 ** x` to be positive, as the real power is.
- Pose.LinearPoseEndpoints: at `t = T` it states only the location. The angles there are `pi2pi(a2 - a1) + a1`, which equals `a2` only up to whole turns and depends on `pi2pi`'s code.
- `drawLineInWorld` is not called by `getPM`; it is modelled on its own. `world3DToImagePixel2D` is not part of this model; it is assumed to return integer pixels, because the source indexes the image with them directly (scripts/ff/collect_pm.py:201-202). So the model does no rounding there.
- test/camera_lidar/test.py: a calibration script of file, image and GUI I/O with floating-point matrix work; not part of this model.
