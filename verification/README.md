# Ninjabrain Bot core, modelled in Dafny

Ninjabrain Bot helps a Minecraft speedrunner find the stronghold. The player
throws eyes of ender and copies each measurement to the clipboard with F3+C.
The bot turns each measurement into a throw: a position and a heading. It
keeps a list of throws and triangulates the stronghold chunk from them. This
project models the parts of the bot that are plain data and plain algorithms,
and proves properties about them:

- **Observations** (modules `EyeThrow`, `Offset`, `Observations`, `Ray`, `Text`).
  - A `Throw` is an immutable record whose heading is normalised to
    [-180, 180] when it is built.
  - It can be rebuilt with an added correction or with the other standard
    deviation, and it chooses one of three deviations.
  - The two clipboard parsers read the 1.13+ `/execute in … run tp @s` line
    and the 1.12 `x z yaw` line. `String.split(" ")` is modelled exactly,
    including the trailing empty strings it drops.
  - An `OffsetThrow` re-expresses a measurement taken next to a thrown eye as
    a throw from the position the eye was thrown from. It intersects the
    measured ray with the circle of radius 12 around that position, and adds
    a quantisation variance.
- **Prior weights and the wedge scan** (modules `Stronghold`, `Approximated`, `RayPrior`).
  - The grid prior's stronghold density is cut off outside each ring's
    widened band and weighted by a clamped angular factor in ring 0 when
    there is a divine context.
  - The ray prior uses the same factor inside ring 0's post-snapping radius.
    Its vector helpers are modelled too: the orthogonal component, the
    projection and the ray–circle intersection.
  - The ray prior's `construct` is a nested scan over chunk lines across the
    ray's major axis. It is kept as two `while` loops that append to the
    prior's chunk list, and is proved equal to a recursive definition of the
    same scan.
- **Result ranking** (module `Ranking`).
  - `CalculatorResult.getTopPredictions` sorts the posterior's own chunk
    list by descending weight with a stable sort, leaving the posterior
    reordered, then takes a prefix and caches it.
- **Throw history** (module `ThrowHistory`).
  - The main window keeps the current and previous throw lists, divine
    contexts and player positions, and a lock flag.
  - Its operations are save-for-undo, undo, reset, remove, replace-or-append,
    adjusting the last angle, toggling the last deviation, locking and
    unlocking the target, and the list logic of a clipboard update.
  - After every change it hands the calculator the longest prefix of the
    throws that holds no below-horizon throw.
  - The class `ThrowHistory.Gui` keeps these fields and updates them in
    place. Each method is proved equal to a function on a `History` value,
    and the properties are lemmas about those functions.

Doubles are Dafny `real`s. Sine, cosine, square root and atan2 are
uninterpreted functions, held in a `RealMath.Elementary` record. Its
`Valid()` states the only facts the proofs use: sin² + cos² = 1, and
sqrt(x)² = x with sqrt(x) ≥ 0 for x ≥ 0. A computation that gives NaN in
Java gives `None` here. Code the core calls but does not contain is a
function-typed parameter or field, so every proof holds for any choice of it:

- `ApproximatedDensity.density`, `Coords.getPhi`, the stronghold constants and
  ring 0's post-snapping radius (`Stronghold.Placement`);
- `DivineContext.angleOffsetFromSector` and `relativeDensity`;
- `Double.parseDouble`, `Fossil.parseF3I` and the crosshair-correction
  preference (`ThrowHistory.Readers`);
- the best prediction's angle errors and success test.

## Model

| member | source | states |
|---|---|---|
| Ray.Distance2 | src/ninjabrainbot/calculator/IRay.java:12-16 | the squared distance is never negative, and it is zero exactly when the two positions coincide |
| Ray.Distance2Symmetric | src/ninjabrainbot/calculator/IRay.java:12-16 | the squared distance does not depend on which of the two rays it is called on |
| Text.Pieces | src/ninjabrainbot/calculator/Throw.java:53 | splitting at every space gives at least one piece, and no piece holds a space |
| Text.DropTrailingEmpty | src/ninjabrainbot/calculator/Throw.java:53 | String.split drops only trailing empty strings: the result is a prefix, it does not end with an empty string, and every dropped piece is empty |
| Text.PiecesOfJoin | src/ninjabrainbot/calculator/Throw.java:53 | joining space-free words with spaces and cutting at every space gives back the words |
| Text.SplitOfJoin | src/ninjabrainbot/calculator/Throw.java:53 | split(" ") of space-free words joined by spaces, the last one non-empty, gives back those words |
| Text.CountOfJoin | src/ninjabrainbot/calculator/Throw.java:53-54 | n space-free words joined by spaces hold n - 1 spaces |
| EyeThrow.NormalizeHeading | src/ninjabrainbot/calculator/Throw.java:26-32 | the stored heading lies in [-180, 180], differs from the given one by a multiple of 360, and equals it when that is already in [-180, 180] |
| EyeThrow.MakeThrow | src/ninjabrainbot/calculator/Throw.java:22-37 | the constructor keeps every field as given except the heading, which is normalised into [-180, 180] up to a multiple of 360 |
| EyeThrow.NormalizeHeadingIdempotent | src/ninjabrainbot/calculator/Throw.java:26-32 | normalising a normalised heading changes nothing |
| EyeThrow.Throw.WithAddedCorrection | src/ninjabrainbot/calculator/Throw.java:85-88 | the rebuilt throw differs only in its correction, which grows by delta, so alpha() grows by delta |
| EyeThrow.CorrectionsAdd | src/ninjabrainbot/calculator/Throw.java:85-88 | two corrections in a row equal one correction by their sum |
| EyeThrow.Throw.WithToggledStd | src/ninjabrainbot/calculator/Throw.java:91-93 | the rebuilt throw differs only in its alternate-deviation flag, which is flipped |
| EyeThrow.ToggleTwice | src/ninjabrainbot/calculator/Throw.java:91-93 | toggling twice restores every field |
| EyeThrow.Throw.GetStd | src/ninjabrainbot/calculator/Throw.java:130-133 | manual input gives sigmaManual whatever the flag; otherwise the flag chooses between sigmaAlt and sigma |
| EyeThrow.GetStdOfToggled | src/ninjabrainbot/calculator/Throw.java:130-133 | toggling swaps sigma and sigmaAlt for a measured throw and leaves a hand-typed throw's deviation alone |
| EyeThrow.ParseF3C | src/ninjabrainbot/calculator/Throw.java:48-67 | a line with a command prefix and other than 11 words gives no throw; a parsed throw takes its dimension from word 2 and x, z and pitch from words 6, 8 and 10, has zero correction and no flags, and its heading is word 9 plus the crosshair correction, up to a multiple of 360; a line without a prefix is handed to the 1.12 parser |
| EyeThrow.ParseF3COneTwelve | src/ninjabrainbot/calculator/Throw.java:69-82 | other than 3 words gives no throw; a parsed throw sits half a block past the given x and z, has pitch -31, is marked hand-typed, is not in the nether and has zero correction |
| EyeThrow.ParseF3CRoundTrip | src/ninjabrainbot/calculator/Throw.java:48-67 | an F3+C line built from words of either dimension parses back to the throw those words describe |
| EyeThrow.CommandLine | src/ninjabrainbot/calculator/Throw.java:49-53 | an 11-word command line built from separator-free words passes the prefix test and splits back into exactly those words |
| EyeThrow.ParseOneTwelveRoundTrip | src/ninjabrainbot/calculator/Throw.java:69-82 | a 1.12 line built from three words parses back to the hand-typed throw at the block centre |
| EyeThrow.FewSpacesNoCommand | src/ninjabrainbot/calculator/Throw.java:49-51 | a line with fewer than five spaces cannot carry either command prefix, so the 1.12 parser reads it |
| EyeThrow.PrefixSpaces | src/ninjabrainbot/calculator/Throw.java:49-50 | both command prefixes, the overworld one and the nether one, hold exactly five spaces |
| EyeThrow.HeadSpaces | src/ninjabrainbot/calculator/Throw.java:49-50 | the six words of either dimension's command head are joined by exactly five spaces |
| EyeThrow.NotPrefixOfFewer | src/ninjabrainbot/calculator/Throw.java:49-51 | a five-space prefix cannot start a line with fewer spaces, so such a line falls through to the 1.12 parser |
| Offset.DirectionIsUnit | src/ninjabrainbot/calculator/OffsetThrow.java:48-52 | the heading's direction vector (-sin, cos) has length 1 |
| Offset.EyeVecAbsent | src/ninjabrainbot/calculator/OffsetThrow.java:42-78 | there is no eye vector exactly when the positions are more than 12 apart and the ray points away, or the ray passes more than 12 from the throw position |
| Offset.EyeOnCircle | src/ninjabrainbot/calculator/OffsetThrow.java:55-77 | for a unit direction, the eye position found lies exactly 12 from the throw position |
| Offset.ChordOnCircle | src/ninjabrainbot/calculator/OffsetThrow.java:55-77 | for a unit direction, a step m along it with m squared equal to eyeDist squared minus the squared miss distance ends eyeDist from the throw position |
| Offset.EyeVecInside | src/ninjabrainbot/calculator/OffsetThrow.java:42-78 | a measurement taken within 12 of the throw position always meets the circle |
| Offset.AngleFromEyeVec | src/ninjabrainbot/calculator/OffsetThrow.java:80-86 | the heading is a number exactly when there is an eye vector |
| Offset.EyeVecAtThrowPosition | src/ninjabrainbot/calculator/OffsetThrow.java:55-77 | measured from the throw position itself, the eye vector is eyeDist times the measured direction, whether or not the eye tangent was passed |
| Offset.AngleAtThrowPosition | src/ninjabrainbot/calculator/OffsetThrow.java:80-86 | measured from the throw position itself, atan2 is handed eyeDist times the measured direction, so the corrected heading is the raw heading's own |
| Offset.EyeVecWithoutMiss | src/ninjabrainbot/calculator/OffsetThrow.java:55-77 | inside the circle, on a line through the throw position, the eye vector is the chord end a full sqrt(eyeDist²) along the direction |
| Offset.EyeVecOfFullChord | src/ninjabrainbot/calculator/OffsetThrow.java:55-77 | with the positions equal and sqrt(eyeDist²) = eyeDist, the eye vector is eyeDist times the direction |
| Offset.StdFactor | src/ninjabrainbot/calculator/OffsetThrow.java:88-101 | without an eye vector or a heading there is no deviation factor |
| Offset.VarAdd | src/ninjabrainbot/calculator/OffsetThrow.java:102-112 | zero for the same spot; otherwise varPerPosition once for each of the two positions that is inaccurate |
| Offset.VarAddRange | src/ninjabrainbot/calculator/OffsetThrow.java:102-112 | the added variance is 0, v or 2v, and never negative |
| Offset.VarAddSymmetric | src/ninjabrainbot/calculator/OffsetThrow.java:102-112 | the added variance does not depend on the order of the two positions |
| Offset.VarPerPositionPositive | src/ninjabrainbot/calculator/OffsetThrow.java:105 | the variance per inaccurate position is positive |
| Offset.OffsetThrow.GetStd | src/ninjabrainbot/calculator/OffsetThrow.java:114-117 | the deviation is a number exactly when the deviation factor is, and then it is at least sqrt(var_add) |
| Offset.OffsetThrow.WithAddedCorrection | src/ninjabrainbot/calculator/OffsetThrow.java:150-153 | rebuilt from the same throw position and tangent flag, with the measurement corrected |
| Offset.OffsetThrow.WithToggledStd | src/ninjabrainbot/calculator/OffsetThrow.java:155-158 | rebuilt from the same throw position and tangent flag, with the measurement's flag toggled |
| Offset.MakeOffsetThrow | src/ninjabrainbot/calculator/OffsetThrow.java:19-29 | the throw keeps both input throws; each heading is a number exactly when its eye vector exists; the variance is VarAdd of the two positions; no heading means no deviation factor |
| Offset.SamePositionRoundTrip | src/ninjabrainbot/calculator/OffsetThrow.java:19-29 | an offset throw measured from its own throw position takes both headings from eyeDist times the measurement's own direction and adds no variance |
| Offset.ValidInsideCircle | src/ninjabrainbot/calculator/OffsetThrow.java:160-163 | a measurement within 12 of the throw position gives a valid offset throw |
| Offset.InvalidWhenNoEye | src/ninjabrainbot/calculator/OffsetThrow.java:160-163 | an offset throw is invalid exactly when the corrected or the uncorrected heading has no eye vector |
| Offset.ToggleKeepsGeometry | src/ninjabrainbot/calculator/OffsetThrow.java:155-158 | toggling keeps both headings, the factor, the variance, the position, pitch and correction, and flips only the flag |
| Offset.CorrectionKeepsAlpha0 | src/ninjabrainbot/calculator/OffsetThrow.java:150-153 | a correction keeps the uncorrected heading, the variance and the position, and adds delta to the correction |
| Observations.Observation.WithAddedCorrection | src/ninjabrainbot/calculator/IThrow.java:19 | a throw stays the same kind of throw, keeps its position, and its correction grows by delta |
| Observations.Observation.WithToggledStd | src/ninjabrainbot/calculator/IThrow.java:20 | a throw stays the same kind, keeps its position, correction and below-horizon flag, and flips its deviation flag |
| Observations.OffsetOf | src/ninjabrainbot/gui/GUI.java:356 | the merged observation is an offset throw, which never counts as below the horizon |
| Observations.ToggleTwiceKeepsFlag | src/ninjabrainbot/calculator/IThrow.java:20 | toggling twice restores the flag, and restores a plain throw completely |
| Stronghold.SectorFactor | src/ninjabrainbot/calculator/ApproximatedPrior.java:79-85 | the factor lies in [0, 1]; it is 1/2 at zero offset, 1 a full tolerance before the sector and 0 a full tolerance past it |
| Stronghold.SectorFactorMonotone | src/ninjabrainbot/calculator/ApproximatedPrior.java:79-85 | the factor never grows as the offset grows |
| Stronghold.DivineWeight | src/ninjabrainbot/calculator/ApproximatedPrior.java:79-86 | the factor times the relative density lies between 0 and the relative density |
| Stronghold.DivineWeightMonotone | src/ninjabrainbot/calculator/ApproximatedPrior.java:79-86 | with the same non-negative relative density, a larger offset from the sector never gives more weight |
| Approximated.StrongholdDensity | src/ninjabrainbot/calculator/ApproximatedPrior.java:73-94 | zero outside the widened band; inside it, the plain density when the ring is not 0 or there is no divine context |
| Approximated.DivinedDensity | src/ninjabrainbot/calculator/ApproximatedPrior.java:77-93 | in ring 0 with a context, the weight is the divine weighting times the density inside the band and zero outside |
| Approximated.DensityAroundSector | src/ninjabrainbot/calculator/ApproximatedPrior.java:79-93 | in band, ring 0 with a context: half the relative density times the density at zero offset, all of it a tolerance before the sector, none a tolerance past it |
| Approximated.DensityNonNegative | src/ninjabrainbot/calculator/ApproximatedPrior.java:80-93 | the weight is non-negative when the density and the relative density are |
| Approximated.DensityAtMostRelative | src/ninjabrainbot/calculator/ApproximatedPrior.java:80-93 | in ring 0 the weight never exceeds the relative density times the density |
| Approximated.DensityFallsWithOffset | src/ninjabrainbot/calculator/ApproximatedPrior.java:79-93 | a heading further past the hinted sector never gets more weight |
| Approximated.DiscretisationPointsPerChunkSide | src/ninjabrainbot/calculator/ApproximatedPrior.java:96-99 | the grid samples 2 points per chunk side |
| Approximated.Margin | src/ninjabrainbot/calculator/ApproximatedPrior.java:101-104 | the margin is the snapping radius, which is positive |
| Approximated.SmoothWeights | src/ninjabrainbot/calculator/ApproximatedPrior.java:116-119 | the chunk weights are left unchanged |
| RayPrior.StrongholdDensity | src/ninjabrainbot/calculator/RayApproximatedPrior.java:68-86 | without a context, or beyond ring 0's post-snapping radius, the weight is the plain density; within that radius with a context it is the clamped sector factor times the relative density times the density, whatever ring's band the chunk is in |
| RayPrior.DensityAroundSector | src/ninjabrainbot/calculator/RayApproximatedPrior.java:71-83 | within ring 0's post-snapping radius, a context gives half the relative density times the density at the sector's centre, all of it a full tolerance before the sector and none a full tolerance past it |
| RayPrior.DensityFallsWithOffset | src/ninjabrainbot/calculator/RayApproximatedPrior.java:71-85 | of two contexts with the same non-negative relative density, the one further past the sector never gives a chunk more weight |
| RayPrior.DensityBounds | src/ninjabrainbot/calculator/RayApproximatedPrior.java:68-86 | the weight is non-negative, and with a context at most max(1, relative density) times the density |
| RayPrior.SameWeightAsGridPrior | src/ninjabrainbot/calculator/RayApproximatedPrior.java:68-86 | inside ring 0's band and radius the ray prior weighs a chunk exactly as the grid prior does |
| RayPrior.OrthogonalComponent | src/ninjabrainbot/calculator/RayApproximatedPrior.java:128-136 | whatever u is, the orthogonal component is the cross product ux·az − uz·ax |
| RayPrior.OrthogonalOfMultiple | src/ninjabrainbot/calculator/RayApproximatedPrior.java:128-136 | a multiple of u has no orthogonal component |
| RayPrior.OrthogonalOfNegated | src/ninjabrainbot/calculator/RayApproximatedPrior.java:128-136 | negating the vector negates its orthogonal component |
| RayPrior.ProjectAndGetMajorComponent | src/ninjabrainbot/calculator/RayApproximatedPrior.java:141-144 | a vector along a unit u projects onto its own major coordinate; a vector orthogonal to u projects onto 0 |
| RayPrior.CircleIntersection | src/ninjabrainbot/calculator/RayApproximatedPrior.java:146-153 | there is no crossing exactly when the discriminant is negative; the crossing lies on the line, and on the circle when u is a unit vector |
| RayPrior.FindCircleIntersection | src/ninjabrainbot/calculator/RayApproximatedPrior.java:146-153 | zero when the line misses the circle; otherwise the major coordinate of the first crossing o + b·u, the point CircleIntersection shows to lie on both the line and the circle |
| RayPrior.NearestCirclePoint | src/ninjabrainbot/calculator/RayApproximatedPrior.java:104-106 | the point the boundary is aimed at lies on the disk's circle and along the origin's direction |
| RayPrior.Earlier | src/ninjabrainbot/calculator/RayApproximatedPrior.java:109 | the `majorPositive ^ a > b ? a : b` choice is the smaller candidate walking forwards and the larger walking backwards |
| RayPrior.GetIterStartMajor | src/ninjabrainbot/calculator/RayApproximatedPrior.java:93-122 | inside the disk, the origin; with the disk centre in the wedge, the earlier boundary entry; otherwise the earlier crossing, and the origin when neither boundary meets the circle |
| RayPrior.Scan.LineStart | src/ninjabrainbot/calculator/RayApproximatedPrior.java:51-57 | each line starts within [-maxChunk, maxChunk], at the rounded crossing of u when that is already within it |
| RayPrior.Cell | src/ninjabrainbot/calculator/RayApproximatedPrior.java:59-61 | the chunk lies on major line i and minor index j, and its weight is the density of its own coordinates |
| RayPrior.ProgressStep | src/ninjabrainbot/calculator/RayApproximatedPrior.java:49-64 | each major step moves at least one chunk further along the ray, so the outer loop ends |
| RayPrior.Setup | src/ninjabrainbot/calculator/RayApproximatedPrior.java:27-47 | the walking direction agrees with the sign of the ray's non-zero major component |
| RayPrior.DirectionOnMajorAxis | src/ninjabrainbot/calculator/RayApproximatedPrior.java:39-40 | the component chosen as major is never zero |
| RayPrior.LineCells | src/ninjabrainbot/calculator/RayApproximatedPrior.java:53-63 | the k-th chunk of a line is k minor steps from the start, each passes the guard, and the line ends at the first index that fails it |
| RayPrior.LineChunks | src/ninjabrainbot/calculator/RayApproximatedPrior.java:58-61 | every chunk of a line lies on that major line and carries its own density; walking leftwards it stays within ±maxChunk |
| RayPrior.RightwardLineOverruns | src/ninjabrainbot/calculator/RayApproximatedPrior.java:58 | walking rightwards, the ±maxChunk bound is not tested, so a line can run past maxChunk |
| RayPrior.OuterChunks | src/ninjabrainbot/calculator/RayApproximatedPrior.java:49-64 | every chunk from line i on lies within the range, at or after line i in the walking direction, and carries its own density |
| RayPrior.ScanChunksSound | src/ninjabrainbot/calculator/RayApproximatedPrior.java:26-66 | every chunk of the prior carries strongholdDensity of its own coordinates and lies on a line between the first one and the range |
| RayPrior.OuterMeasureDrops | src/ninjabrainbot/calculator/RayApproximatedPrior.java:49-64 | the outer loop's measure stays non-negative and drops on every major step |
| RayPrior.InnerMeasureDrops | src/ninjabrainbot/calculator/RayApproximatedPrior.java:58-62 | the inner loop's measure stays non-negative and drops on every minor step |
| RayPrior.RayApproximatedPrior.constructor | src/ninjabrainbot/calculator/RayApproximatedPrior.java:19-24 | the prior's chunks are the wedge scan of the ray, and it keeps the divine context |
| RayPrior.RayApproximatedPrior.WithDefaultTolerance | src/ninjabrainbot/calculator/RayApproximatedPrior.java:15-17 | the same, with a one-degree wedge |
| RayPrior.RayApproximatedPrior.Construct | src/ninjabrainbot/calculator/RayApproximatedPrior.java:26-66 | the chunk list becomes exactly the scan's chunks, none when a boundary slope is undefined |
| RayPrior.RayApproximatedPrior.Walk | src/ninjabrainbot/calculator/RayApproximatedPrior.java:49-65 | the outer loop appends the chunks of every major line from the first one up to the range |
| RayPrior.RayApproximatedPrior.AppendLine | src/ninjabrainbot/calculator/RayApproximatedPrior.java:51-63 | the inner loop appends the chunks of one major line from its clamped start while the guard holds |
| RayPrior.RayApproximatedPrior.GetChunks | src/ninjabrainbot/calculator/RayApproximatedPrior.java:155-158 | the chunks construct appended |
| Ranking.SortedByWeightOrders | src/ninjabrainbot/calculator/CalculatorResult.java:29 | the sorted chunks have non-increasing weights |
| Ranking.SortedByWeightPermutes | src/ninjabrainbot/calculator/CalculatorResult.java:29 | sorting keeps every chunk as often as it occurs |
| Ranking.SortedByWeightStable | src/ninjabrainbot/calculator/CalculatorResult.java:29 | the chunks of any one weight keep their relative order |
| Ranking.SortedOfNonIncreasing | src/ninjabrainbot/calculator/CalculatorResult.java:29 | a list already in non-increasing weight order is left exactly as it is |
| Ranking.SortedByWeightIdempotent | src/ninjabrainbot/calculator/CalculatorResult.java:28-29 | sorting the posterior's already sorted list again changes nothing |
| Ranking.InsertKeepsOrder | src/ninjabrainbot/calculator/CalculatorResult.java:29 | inserting into non-increasing weights keeps them non-increasing |
| Ranking.InsertPermutes | src/ninjabrainbot/calculator/CalculatorResult.java:29 | inserting adds the chunk and loses none |
| Ranking.InsertStable | src/ninjabrainbot/calculator/CalculatorResult.java:29 | an inserted chunk goes ahead of every chunk of equal weight |
| Ranking.InsertBounded | src/ninjabrainbot/calculator/CalculatorResult.java:29 | inserting a chunk no heavier than a bound into chunks no heavier than it keeps every chunk within the bound |
| Ranking.WithWeightCons | src/ninjabrainbot/calculator/CalculatorResult.java:29 | the chunks of one weight in a list with a given head are that head, if it has the weight, then those of the rest |
| Ranking.TopPredictions | src/ninjabrainbot/calculator/CalculatorResult.java:28-34 | min(n, max(amount, 1)) predictions, the k-th one for the k-th chunk of the sorted list, in non-increasing weight order |
| Ranking.AtLeastOnePrediction | src/ninjabrainbot/calculator/CalculatorResult.java:30-34 | asking for no predictions still yields one, the heaviest chunk |
| Ranking.CalculatorResult.constructor | src/ninjabrainbot/calculator/CalculatorResult.java:16-24 | the result keeps its own copy of the throws, and its best prediction is the most probable chunk |
| Ranking.CalculatorResult.GetTopPredictions | src/ninjabrainbot/calculator/CalculatorResult.java:26-37 | the first call replaces the posterior's chunks by their stable sort and stores TopPredictions of the original chunks; once non-empty, the list is returned unchanged, whatever amount is asked for, and the posterior is left alone; the throws, player position and best prediction never change |
| Ranking.CalculatorResult.GetBestPrediction | src/ninjabrainbot/calculator/CalculatorResult.java:39-41 | the stored best prediction |
| Ranking.CalculatorResult.GetAngleErrors | src/ninjabrainbot/calculator/CalculatorResult.java:43-45 | whatever the best prediction reports for the stored throws |
| Ranking.CalculatorResult.Success | src/ninjabrainbot/calculator/CalculatorResult.java:47-49 | whatever the best prediction reports |
| ThrowHistory.RemoveFirst | src/ninjabrainbot/gui/GUI.java:315-321 | removing a listed throw takes away one occurrence and nothing else; an absent throw leaves the list as it is |
| ThrowHistory.RemoveFirstAt | src/ninjabrainbot/gui/GUI.java:315-321 | the occurrence removed is the first one |
| ThrowHistory.FirstReplaceable | src/ninjabrainbot/gui/GUI.java:352-364 | the first index the new throw merges into, or the list length when there is none |
| ThrowHistory.OffsetSlot | src/ninjabrainbot/gui/GUI.java:352-364 | a below-horizon throw gets a fresh slot; otherwise the first below-horizon throw giving a valid offset throw is merged with it, or a fresh slot holds the throw itself when there is none |
| ThrowHistory.CompleteThrows | src/ninjabrainbot/gui/GUI.java:466-470 | a prefix of the throws with no below-horizon throw, stopped at the end or at a below-horizon throw |
| ThrowHistory.CompleteThrowsLongest | src/ninjabrainbot/gui/GUI.java:466-470 | any such stopped prefix is the complete prefix: it is the longest one |
| ThrowHistory.RequestFor | src/ninjabrainbot/gui/GUI.java:472-488 | triangulation exactly when the complete prefix is non-empty, with it, the context and the position; the divine result alone exactly when it is empty and there is a context |
| ThrowHistory.UndoTwice | src/ninjabrainbot/gui/GUI.java:301-313 | two undos give back the history, unlocked |
| ThrowHistory.ResetThenUndo | src/ninjabrainbot/gui/GUI.java:285-299 | a reset that acts is reverted by an undo; a reset with no throws and no context changes nothing |
| ThrowHistory.LockToggles | src/ninjabrainbot/gui/GUI.java:437-451 | toggling the lock leaves every list, context and position and their validity alone, flips the lock unless the text area is idle, and a second toggle restores the history |
| ThrowHistory.UndoRevertsEdits | src/ninjabrainbot/gui/GUI.java:386-435 | every edit that changes the history saves first, so an undo restores the throws, the context and the position |
| ThrowHistory.UndoRevertsClipboard | src/ninjabrainbot/gui/GUI.java:331-384 | a clipboard update either changes nothing or is reverted by an undo |
| ThrowHistory.NewThrowPlacement | src/ninjabrainbot/gui/GUI.java:386-395 | the throw replaces the one at index, or is appended when index is past the end, and the player stands at it |
| ThrowHistory.LastThrowEdits | src/ninjabrainbot/gui/GUI.java:403-435 | the length and every throw but the last stay; the last is rebuilt from the old last one |
| ThrowHistory.LockedOnlyMovesPlayer | src/ninjabrainbot/gui/GUI.java:349-350 | with a locked target and throws listed, a clipboard throw only moves the player |
| ThrowHistory.ClipboardGrowth | src/ninjabrainbot/gui/GUI.java:349-366 | a clipboard update appends at most one throw, and only below MAX_THROWS; otherwise the length stays |
| ThrowHistory.EditsKeepValid | src/ninjabrainbot/gui/GUI.java:285-435 | every edit keeps both lists within MAX_THROWS and well-formed |
| ThrowHistory.LastEditsKeepValid | src/ninjabrainbot/gui/GUI.java:403-435 | changing the last angle and toggling the last deviation keep both lists within MAX_THROWS and every throw well-formed |
| ThrowHistory.ClipboardKeepsValid | src/ninjabrainbot/gui/GUI.java:349-366 | a clipboard update keeps both lists within MAX_THROWS = 10 |
| ThrowHistory.Gui.constructor | src/ninjabrainbot/gui/GUI.java:86-87 | a new window starts with empty lists and nothing to undo |
| ThrowHistory.Gui.CompleteEyeThrows | src/ninjabrainbot/gui/GUI.java:466-470 | the loop collects exactly the complete prefix |
| ThrowHistory.Gui.OnThrowsUpdated | src/ninjabrainbot/gui/GUI.java:465-499 | the history is unchanged and the request is RequestFor of it |
| ThrowHistory.Gui.SaveThrowsForUndo | src/ninjabrainbot/gui/GUI.java:509-514 | the previous slots become copies of the current ones |
| ThrowHistory.Gui.ResetThrows | src/ninjabrainbot/gui/GUI.java:285-299 | the new history is Reset of the old one, then recomputed |
| ThrowHistory.Gui.Undo | src/ninjabrainbot/gui/GUI.java:301-313 | the current and previous slots trade places, unlocked, then recomputed |
| ThrowHistory.Gui.RemoveThrow | src/ninjabrainbot/gui/GUI.java:315-321 | a listed throw is removed after saving; an absent one changes nothing |
| ThrowHistory.Gui.RemoveDivineContext | src/ninjabrainbot/gui/GUI.java:323-329 | a context is dropped after saving; without one nothing changes |
| ThrowHistory.Gui.ToggleTargetLocked | src/ninjabrainbot/gui/GUI.java:447-451 | the new history is the old one with the lock flipped, or unchanged when the text area is idle; the request is unchanged |
| ThrowHistory.Gui.UpdateWithNewThrow | src/ninjabrainbot/gui/GUI.java:386-395 | after saving, the throw is set or appended and the player stands at it |
| ThrowHistory.Gui.UpdateWithNewPlayerPos | src/ninjabrainbot/gui/GUI.java:397-401 | after saving, the player stands at the throw |
| ThrowHistory.Gui.ChangeLastAngle | src/ninjabrainbot/gui/GUI.java:403-419 | outside calibration and with a throw listed, the last throw is rebuilt corrected; otherwise nothing changes |
| ThrowHistory.Gui.ToggleLastStd | src/ninjabrainbot/gui/GUI.java:421-435 | outside calibration and with a throw listed, the last throw is rebuilt toggled; otherwise nothing changes |
| ThrowHistory.Gui.FindOffsetSlot | src/ninjabrainbot/gui/GUI.java:352-364 | the loop finds the slot and observation OffsetSlot describes |
| ThrowHistory.Gui.ProcessClipboardUpdate | src/ninjabrainbot/gui/GUI.java:331-384 | the new history and request are those AfterClipboard gives; during calibration nothing changes |

## Left out

- Swing, the overlay, timers, the auto-reset, sounds and the calibration panel are not modelled. Whether the main text area is idle is an `idle` parameter of `ThrowHistory.Gui.ToggleTargetLocked`; the frame, bounds, overlay and auto-reset updates of `setTargetLocked` are left out. Whether a calibration is running is a `calibrating` parameter. The calls into the calibrator during calibration are not modelled.
- The calculator itself is not modelled: triangulation, the blind and divine results, and the `Posterior` it builds. A history edit only records the `Request` it would hand over.
- `ApproximatedPrior.evaluateError`, `setInitialSize` and `setInitialWeights` are not modelled. They print diagnostics or delegate to the `Prior` base class, which is not part of this model.
- `ApproximatedDensity`, `Coords.getPhi`, `DivineContext`, `Fossil.parseF3I`, `Ring` and `StrongholdConstants` are not part of this model. They enter as fields of `Stronghold.Placement`, `Stronghold.DivineContext` and `ThrowHistory.Readers`.
- The default `CalculatorResult` constructor and its null fields are not modelled.
- Floating-point rounding is not modelled: doubles are reals. Java's `%` on doubles is modelled as a remainder truncated toward zero. NaN and infinities become `None`.
- `Offset.StdFactor`: a zero cosine in a denominator gives `None`, where Java gives an infinity.
- `Stronghold.SectorFactor`: at distance 0 the tolerance is infinite in Java. The model gives the limit value 1/2 that Java's arithmetic yields.
- `RayPrior.Setup`: when a boundary is parallel to the minor axis, Java divides by zero and gets an infinite slope. The model returns `None`, so no chunks are collected in that case.
- The `(int)` casts of `Math.floor` and `Math.ceil` are not modelled: their saturation at the int range is out of scope. `RealMath.Floor` and `RealMath.Ceil` are exact.
- `RayPrior.GetIterStartMajor`: as in the source, a crossing whose major coordinate is exactly 0 is treated as no crossing. Its ensures state the cases where both crossings are present or both are absent. When only one crossing is present, the contract says nothing about the start. This is weaker than the code, which then takes that crossing.
- The timing `println` in the `RayApproximatedPrior` constructors is left out.
- `EyeThrow.ParseF3C`: the y word is never read, as in the source. The heading is stated up to a multiple of 360, because it is normalised. `ParseF3CRoundTrip` gives the exact throw.
- `EyeThrow.NormalizeHeading`: the code normalises to the closed range [-180, 180]; the model follows the code.
- Object identity is not modelled: throws are values. `removeThrow` and the `ArrayList` operations are compared by value, and the top-prediction list returned to callers is a value, not a shared list. `Ranking.CalculatorResult.GetTopPredictions` stores the sorted chunks back into the result's own posterior value, so another holder of the same `Posterior` object is not modelled as seeing the reordering.
- `ThrowHistory.Gui`: Java swaps two `ArrayList` objects and clears or refills them in place. The model reassigns sequence values instead. This is equivalent here because the two lists are never the same object.
