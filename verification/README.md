# Neck profile measurement, modelled in Dafny

Neck Profilor measures the local thickness of a thin wall that separates two
regions of an image. The user traces each side of the wall with a line.
The pixels of the two lines become two clouds of integer points. The core
computation, `measure` in `Neck_Profilor.java`, does the following:

1. It averages the two clouds' regression lines into a mid line (`getMidLine`).
2. It projects every point of each cloud orthogonally onto the mid line. It
   rounds the foot of the projection half-to-even to an integer landing point
   and groups each cloud's points by landing point (`projectOnLine`).
3. It intersects the two clouds' landing-point extents (`findExtremeXY`) into
   a valid rectangle.
4. It enumerates the landing points both clouds share.
5. For each shared landing point it averages each cloud's bucket
   (`measureAveragePosition`). It then computes a signed thickness and a
   position along the mid line, both scaled by the pixel width.

The Dafny modules follow these steps:

- `Rounding`: `Math.rint` over exact reals.
- `Geometry`: integer points, the line `y = a*x + b`, squared distance.
- `Midline`: `getMidLine`'s averaging step.
- `Buckets`: a reference definition of grouping a cloud by any key function.
  It covers keys, buckets, and the indices of a key. Lemmas prove that the
  grouping is a partition.
- `Projection`: the projection foot, the landing point, and `projectOnLine`.
- `Bounds`: `findExtremeXY`, bounding boxes, their intersection, and the
  enumeration of a hash set (`toArray`) in an unspecified order.
- `AveragePosition`: `measureAveragePosition` and the rounded-mean centroid
  it computes.
- `Measurement`: the slot loop of `measure` and the whole computation from
  the two clouds to the profile.

Java `double` is modelled as `real`. The calibration `pixelWidth` is a
parameter. `Math.sqrt` is a function parameter `sqrt`. `Math.pow(v, 2)` is
the exact square `v * v`.

Two facts about the code:

- **Swapping the clouds does not negate the thickness in general.** Where
  the two centroids lie on opposite sides of the landing point (dot product
  negative), swapping leaves the thickness unchanged. Where they lie on the
  same side (dot product positive), swapping negates it. Where the dot
  product is zero, `d1` becomes `d2`. `Measurement.ThicknessSwap` states
  all three cases.
- **The skip branch at lines 238–239 never fires.** A shared landing point
  belongs to both landing-key sets, so it lies inside both of their bounding
  boxes and therefore inside their intersection. Every output slot is filled
  with a measurement. `Measurement.Measure` proves this.
  `Measurement.FillSlots` still models the branch for an arbitrary rectangle,
  where a skipped slot stays `0.0`.

## Model

| member | source | states |
|---|---|---|
| Rounding.Rint | src/main/java/Neck_Profilor.java:142 | `Math.rint` returns an integer within one half of its argument, and resolves a tie to the even neighbour |
| Rounding.RintNearest | src/main/java/Neck_Profilor.java:142 | an integer strictly within one half of `r` is `rint(r)`, so rounding is determined by nearness |
| Rounding.RintTie | src/main/java/Neck_Profilor.java:184 | `k + 1/2` rounds to whichever of `k`, `k + 1` is even |
| Rounding.RintOfInt | src/main/java/Neck_Profilor.java:184 | an integral value rounds to itself |
| Rounding.RintMonotone | src/main/java/Neck_Profilor.java:142 | rounding preserves the order of its arguments |
| Rounding.RintBetween | src/main/java/Neck_Profilor.java:184 | integer lower and upper bounds of a value bound its rounding |
| Geometry.SqDist | src/main/java/Neck_Profilor.java:246-247 | the quantity under the square root of `d1` and `d2` is never negative |
| Midline.MidLine | src/main/java/Neck_Profilor.java:129-131 | at every abscissa the mid line passes exactly halfway between the two fitted lines; coinciding fits give that same line |
| Midline.MidLineSymmetric | src/main/java/Neck_Profilor.java:129-130 | the mid line does not depend on which cloud comes first |
| Midline.MidLineBetween | src/main/java/Neck_Profilor.java:129-130 | at every abscissa the mid line lies between the two fitted lines |
| Midline.MidLineUnique | src/main/java/Neck_Profilor.java:129-130 | the componentwise mean is the only line halfway between the fits everywhere |
| Projection.Foot | src/main/java/Neck_Profilor.java:140-141 | the closed-form foot lies on the line, and its displacement from the point is orthogonal to the direction `(1, a)` |
| Projection.FootAlgebra | src/main/java/Neck_Profilor.java:140-141 | the two fractions over `a*a + 1` satisfy the line equation and the orthogonality equation |
| Projection.FootUnique | src/main/java/Neck_Profilor.java:140-141 | any point of the line with an orthogonal displacement is the computed foot |
| Projection.FootOfPointOnLine | src/main/java/Neck_Profilor.java:140-141 | a point already on the mid line projects onto itself |
| Projection.Landing | src/main/java/Neck_Profilor.java:140-142 | each coordinate of the landing point is within half a pixel of the foot |
| Projection.ProjectOnLine | src/main/java/Neck_Profilor.java:134-147 | the map's keys are exactly the landing points of the cloud; each bucket is the ordered list of points landing there |
| Buckets.PointInItsBucket | src/main/java/Neck_Profilor.java:142-144 | every input point's landing point is a key; the point is in the bucket of that key and in no other bucket |
| Buckets.BucketNonEmpty | src/main/java/Neck_Profilor.java:143-144 | a key's bucket is non-empty exactly when the key is a landing point |
| Buckets.BucketSizesSum | src/main/java/Neck_Profilor.java:136-145 | the bucket sizes over all keys add up to the number of input points |
| Buckets.BucketPreservesOrder | src/main/java/Neck_Profilor.java:136-145 | the m-th point of a bucket is the input point at the m-th increasing index that lands on the key |
| Buckets.KeyIndices | src/main/java/Neck_Profilor.java:136-144 | the indices of a key are in range, land on the key, strictly increase and include every index that lands there |
| Buckets.KeysNonEmpty | src/main/java/Neck_Profilor.java:134-147 | the map has a key exactly when the cloud has a point |
| Buckets.Snoc | src/main/java/Neck_Profilor.java:143-144 | one more point adds its landing point to the keys and appends it to that bucket only |
| Buckets.AddToBucket | src/main/java/Neck_Profilor.java:143-144 | `computeIfAbsent` followed by `add` turns the map of a prefix into the map of the prefix extended by one point |
| Bounds.FindExtremeXY | src/main/java/Neck_Profilor.java:149-161 | there is no extent for an empty input; otherwise the extent encloses every point and each of its four sides is attained |
| Bounds.ExtentOfEnumeration | src/main/java/Neck_Profilor.java:208-209 | the extent of any enumeration of a set is that set's bounding box |
| Bounds.BoundingBoxUnique | src/main/java/Neck_Profilor.java:149-161 | a set has only one bounding box, so the enumeration order does not matter |
| Bounds.Intersect | src/main/java/Neck_Profilor.java:210-213 | the rectangle encloses exactly the points that both extents enclose |
| Bounds.Rectangle | src/main/java/Neck_Profilor.java:210-213 | the rectangle exists only when both extents do, and then it is their intersection |
| Bounds.Enumerate | src/main/java/Neck_Profilor.java:230 | `toArray` lists every element of the set once and nothing else |
| Bounds.DistinctCount | src/main/java/Neck_Profilor.java:230-233 | a list with no repetition that holds exactly the elements of a set has one entry per element; with `Measure`'s contract, the output arrays have one slot per shared landing point |
| AveragePosition.MeasureAveragePosition | src/main/java/Neck_Profilor.java:177-185 | summing each coordinate divided by the count and then rounding gives the rounded mean of each coordinate (the origin for an empty cloud) |
| AveragePosition.Accumulate | src/main/java/Neck_Profilor.java:180-183 | the running sum of `measureAveragePosition`, each coordinate divided by the count as it is added; it has no contract of its own, and `AccumulateIsScaledSum` states what it computes |
| AveragePosition.AccumulateIsScaledSum | src/main/java/Neck_Profilor.java:180-183 | dividing each term by `n` before adding gives the sum divided by `n` |
| AveragePosition.AccumulatedMean | src/main/java/Neck_Profilor.java:180-183 | over a whole cloud the running sum equals the mean |
| AveragePosition.SumAtLeast | src/main/java/Neck_Profilor.java:180-183 | a lower bound on every coordinate, times the count, is at most the sum |
| AveragePosition.SumAtMost | src/main/java/Neck_Profilor.java:180-183 | the sum is at most the count times an upper bound on every coordinate |
| AveragePosition.RoundedMeanBetween | src/main/java/Neck_Profilor.java:184 | the rounded mean lies between the least and greatest coordinate |
| AveragePosition.CentroidInBoundingBox | src/main/java/Neck_Profilor.java:177-185 | the centroid of a non-empty bucket lies in the bucket's integer bounding box |
| AveragePosition.CentroidOfSingleton | src/main/java/Neck_Profilor.java:177-185 | a one-point bucket averages to that point |
| AveragePosition.CentroidOfTwoPoints | src/main/java/Neck_Profilor.java:177-185 | the bucket `[(1,1), (3,3)]` averages to `(2,2)` |
| Measurement.Dot | src/main/java/Neck_Profilor.java:248 | the dot product of the two displacements is an integer computed from integer points; it is zero when a centroid sits on the landing point, and not negative when the two centroids coincide |
| Measurement.Dist | src/main/java/Neck_Profilor.java:246-247 | `d1` and `d2` are the root of the squared distance from a centroid to the landing point, and are not negative when the root is not |
| Measurement.Thickness | src/main/java/Neck_Profilor.java:250 | the slot thickness `(d1 - sign * d2) * pixelWidth`, with no contract of its own; what it means in each case is stated by `ThicknessBySide`, `ThicknessSwap`, `ThicknessNonNegative` and `ThicknessScales` |
| Measurement.Position | src/main/java/Neck_Profilor.java:251 | the distance of a landing point from the anchor, scaled by the pixel width; not negative for a non-negative root and pixel width |
| Measurement.Signum | src/main/java/Neck_Profilor.java:248-249 | the sign is in {-1, 0, 1} and agrees with the sign of the integer dot product in both directions |
| Measurement.Anchor | src/main/java/Neck_Profilor.java:215-217 | the origin of positions lies on the mid line, above the left side of the rectangle |
| Measurement.ThicknessBySide | src/main/java/Neck_Profilor.java:246-250 | opposite sides give `(d1 + d2) * pixelWidth`, the same side gives `(d1 - d2) * pixelWidth`, perpendicular displacements give `d1 * pixelWidth` |
| Measurement.ThicknessNonNegative | src/main/java/Neck_Profilor.java:246-250 | with a non-negative root and pixel width, the thickness across opposite sides is not negative |
| Measurement.ThicknessSwap | src/main/java/Neck_Profilor.java:246-250 | swapping the clouds keeps the thickness on opposite sides, negates it on the same side, and turns `d1 * pixelWidth` into `d2 * pixelWidth` for perpendicular displacements |
| Measurement.ThicknessScales | src/main/java/Neck_Profilor.java:250 | the thickness is linear in the pixel width |
| Measurement.PositionScales | src/main/java/Neck_Profilor.java:251 | the position is linear in the pixel width |
| Measurement.HorizontalFaces | src/main/java/Neck_Profilor.java:198-251 | faces `y = 0` and `y = 4` give the mid line `y = 2`; `(x, 0)` and `(x, 4)` land on `(x, 2)` from opposite sides; the thickness is the sum of the two distances, which is `4 * pixelWidth` with the exact root of 4 |
| Measurement.FillSlots | src/main/java/Neck_Profilor.java:232-251 | both arrays have one slot per shared point; a slot outside the rectangle stays `0.0`; every other slot holds the thickness of the two bucket centroids and the position from the anchor |
| Measurement.LandingRectangle | src/main/java/Neck_Profilor.java:208-213 | the rectangle exists exactly when both key sets are non-empty; it is the intersection of their bounding boxes and contains every shared key |
| Measurement.NoSharedPointOutsideRectangle | src/main/java/Neck_Profilor.java:238-239 | no shared key lies outside the rectangle, and an empty rectangle means no shared key |
| Measurement.Pair | src/main/java/Neck_Profilor.java:208-251 | the shared points are exactly the keys common to both maps, each listed once; every slot is inside the rectangle and measured from the two maps' buckets |
| Measurement.SlotsFromBuckets | src/main/java/Neck_Profilor.java:240-241 | slots measured from the bucket maps equal slots measured from the reference buckets of the two clouds |
| Measurement.Measure | src/main/java/Neck_Profilor.java:198-251 | the whole computation: the mid line of the fits; a rectangle exactly when both clouds are non-empty, equal to the intersection of the landing-key bounding boxes; shared points equal to the landing points common to both clouds, each listed once; every slot inside the rectangle, holding the signed thickness of the two clouds' rounded bucket means and the position from the anchor |

## Left out

- Linear regression (`linearRegression`, `getSlope`, `getIntercept`): the fitted lines are the inputs `fit1` and `fit2`. The regression library is not part of this model.
- Non-finite fits: `fit1` and `fit2` have real slopes and intercepts, so a NaN or infinite slope or intercept cannot be represented. The regression gives a NaN slope for a cloud with fewer than two points or with all points at one abscissa, such as a vertical neck line. In Java the feet at lines 140–141 are then NaN, and `(int) Math.rint(NaN)` is 0 at line 142. When both clouds have points, every point lands on `(0, 0)` and one slot is measured, with a NaN position, because `yLine0 = a*xmin + b` at line 217 is NaN. When a cloud is empty, its map has no key, no landing point is shared, and no slot is measured. The model promises nothing for non-finite fits.
- `Roi.getContainedPoints`: the two clouds are given as sequences of integer points. The rasterisation of the drawn lines belongs to the host image program.
- `Math.sqrt`: it is the parameter `sqrt`. Facts that need a non-negative root assume it in their own precondition.
- IEEE-754 rounding of `double`: all arithmetic is exact over `real`, including the divisions in `projectOnLine` and `measureAveragePosition`.
- Projection.Landing: does not model the saturation of the `(int)` cast for values beyond the 32-bit range, because the landing points of real image pixels stay far inside it.
- AveragePosition.MeasureAveragePosition: does not model the same `(int)` cast saturation, for the same reason.
- Bounds.FindExtremeXY: for an empty input it returns `None` in place of the seeds `(+inf, -inf, +inf, -inf)`. The rectangle formed from those seeds encloses no point, and the model's `None` rectangle encloses no point either.
- Bounds.Enumerate: hash iteration order is not modelled. The order is left unspecified, and properties are stated per key rather than per index.
- Measurement.Measure: the order of the shared landing points and of the slots is left unspecified, for the same reason.
- Drawing the mid line segment and the extreme points (lines 221–224), the plot, the results table, saving, the dialogs and the listeners: these are user interface and input/output code.
- The `cystsAreSet` gate and the error dialog at lines 188–191: `Measure` takes the two clouds directly, so it is the case where both lines are set.
