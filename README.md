# MacQueen colour quantization, modelled in Dafny

This project models the clustering engine of the MacQueen color-quantization
program. It reduces an RGB image to a palette of `num_colors` colours in three steps:

- It seeds the palette by maximin (farthest-point) initialisation.
- It trains the palette, either by MacQueen's online k-means or by Lloyd's batch k-means.
- It maps every pixel to its nearest palette centre.

MacQueen's algorithm draws the pixels it presents from one of two generators:

- a 2-D Sobol quasi-random sequence (`sob_seq`), whose point is rounded to a row and a column;
- the MT19937 Mersenne Twister (`init_genrand`, `genrand_int32`), through Lemire's unbiased bounded sampler (`bounded_rand`).

The mean squared error `calc_MSE` compares the output with the input.

`main.c` holds an earlier prototype of the online algorithm: 64 randomly seeded clusters, a running-mean update and the same mapping and error metric. It is modelled with the calls to `rand()` replaced by an input sequence of draws.

Modules and files:

| file | module | models |
|---|---|---|
| colors.dfy | `Colors` | pixels, clusters, images, the squared RGB distance, palette sizes and means |
| bits.dfy | `Bits` | the unsigned shifts, masks and XOR the generators use, on naturals |
| mersenne.dfy | `Mersenne` | `init_genrand`, the refill and tempering of `genrand_int32`; class `MersenneTwister` holds `mt` and `mti` |
| bounded.dfy | `Bounded` | `bounded_rand` |
| sobol.dfy | `Sobol` | `sob_seq`; class `SobolSequence` holds its statics `init`, `iv`, `ix1`, `ix2`, `in` |
| nearest.dfy | `Nearest` | the nearest-centre search with its `MAX_RGB_DIST` / `-INT_MAX` sentinels |
| mapping.dfy | `Mapping` | the final quantisation loop shared by both algorithms |
| maximin.dfy | `Maximin` | `maximin` |
| macqueen.dfy | `MacQueen` | `macqueen_cluster` |
| lloyd.dfy | `Lloyd` | `lloyd_cluster` |
| distortion.dfy | `Distortion` | the total squared distance that every pass of `lloyd_cluster` can only lower |
| unbiased.dfy | `Unbiased` | the counting argument that makes `bounded_rand` unbiased |
| mse.dfy | `Mse` | `calc_MSE` |
| prototype.dfy | `Prototype` | `macqueenClustering` and `computeError` of `main.c` |

How the source's form carries over:

- Each imperative routine of the source is a method over arrays or a class.
- Each method is proved equal to a specification function, and the properties are lemmas about those functions.
- A C global or static state becomes a class: the state vector of the Mersenne Twister and the statics of `sob_seq`.
- 32- and 64-bit words are naturals, masked explicitly with `% 2^32`.
- Colour channels are exact reals.
- Where the C code would index an array at `-INT_MAX` (a search that finds no centre), the model stops and reports `ok == false` (or `None`) instead.

## Model

| member | source | states |
|---|---|---|
| Colors.Dist | mkm.c:478-481 | the squared RGB distance is never negative and is zero between equal colours |
| Colors.DistSymmetric | mkm.c:590-593 | the distance does not depend on the order of the two colours |
| Colors.DistBounded | mkm.c:93-94 | inside the RGB cube no two colours are further apart than MAX_RGB_DIST = 3 * 255 * 255 |
| Nearest.Scan | mkm.c:585-600 | after any prefix of the palette the search holds either (-INT_MAX, MAX_RGB_DIST) or a scanned index whose distance is strictly below the sentinel |
| Nearest.NearestIndex | mkm.c:585-600 | the index the search ends with over the whole palette; the definition Nearest.NearestIsLowestArgmin and Nearest.NearestFailsOnlyAtSentinel characterise |
| Nearest.ScanIsFirstMinimum | mkm.c:585-600 | the kept distance is at most the sentinel and every scanned distance, no earlier centre reaches it, and an index is found exactly when some scanned centre is strictly closer than the sentinel |
| Nearest.NearestIsLowestArgmin | mkm.c:585-600 | the search returns the lowest index of minimal distance when some centre is strictly closer than MAX_RGB_DIST, and -INT_MAX otherwise |
| Nearest.NearestFailsOnlyAtSentinel | mkm.c:585-603 | inside the RGB cube the search fails exactly when every centre lies at distance MAX_RGB_DIST |
| Nearest.NearestCenter | mkm.c:585-600 | the in-place loop over the clusters returns the index the search specification picks |
| Mapping.MappedPixelsAreNearestCentres | mkm.c:627-658 | every mapped pixel is one of the palette colours and no palette colour is closer to the pixel it replaces |
| Mapping.MapToPalette | mkm.c:619-658 | the output has the input's dimensions; it succeeds exactly when every pixel finds a centre, and then each output pixel is the centre the search picks |
| Maximin.NcDistIsMinimum | mkm.c:460-487 | nc_dist of a pixel is the minimum of MAX_RGB_DIST and its distances to the centres chosen so far |
| Maximin.NcDistNonIncreasing | mkm.c:483-487 | later passes never raise a pixel's nc_dist |
| Maximin.NcDist | mkm.c:460-487 | nc_dist of one pixel after the passes over the first n centres; the definition Maximin.NcDistIsMinimum and Maximin.NcDistNonIncreasing characterise |
| Maximin.FarthestScan | mkm.c:469-494 | the (max_dist_index, max_dist) pair after the first n pixels of a pass; the definition Maximin.FarthestIsFirstMaximum and Maximin.FarthestIgnoresStart characterise |
| Maximin.Farthest | mkm.c:469-494 | the pixel a pass picks as the next centre; the definition Maximin.FarthestIsFirstMaximum and Maximin.SeedsAreFarthestPixels are about |
| Maximin.FarthestIsFirstMaximum | mkm.c:469-494 | over non-negative distances the pass ends on the lowest index of maximal nc_dist (strict comparison) |
| Maximin.FarthestIgnoresStart | mkm.c:444-494 | the index carried in from the previous pass never survives a pass over a non-empty image |
| Maximin.Seeds | mkm.c:453-504 | maximin chooses exactly num_colors centres |
| Maximin.SeedsStartWithMean | mkm.c:453-458 | centre 0 is the mean colour |
| Maximin.SeedsAreFarthestPixels | mkm.c:466-504 | centre i is an image pixel whose nc_dist over centres 0..i-1 is maximal, and no earlier pixel's nc_dist is as large |
| Maximin.SeededPalette | mkm.c:453-504 | the seeded palette has num_colors clusters, each of size 1 |
| Maximin.Maximin | mkm.c:441-507 | the in-place routine fills every cluster with its maximin centre and size 1 |
| Maximin.ResetDistances | mkm.c:460-464 | every nc_dist starts at MAX_RGB_DIST |
| Maximin.Pass | mkm.c:469-495 | one pass lowers nc_dist to account for the newest centre and returns the farthest pixel |
| Mersenne.SeedPrefixRecurrence | mkm.c:110-124 | init_genrand sets mt[0] = s & 0xffffffff and mt[i] = (1812433253 (mt[i-1] ^ (mt[i-1] >> 30)) + i) mod 2^32, every word below 2^32 |
| Mersenne.SeedStep | mkm.c:113-121 | one step of the seeding recurrence, (1812433253 (prev ^ (prev >> 30)) + i) mod 2^32; the definition Mersenne.SeedPrefixRecurrence is about |
| Mersenne.TwistMix | mkm.c:145-146 | the joined, shifted and twisted word is a 32-bit word |
| Mersenne.Mag01 | mkm.c:130-131 | mag01[b]: 0 for b = 0 and MATRIX_A otherwise; used by Mersenne.TwistMix |
| Mersenne.TwistWord | mkm.c:143-156 | the twist of words k, k + 1 and k + M of a state vector, indices taken mod N; the definition Mersenne.TwistStepIsRecurrence is about |
| Mersenne.TwistFn | mkm.c:143-156 | one refill step keeps words below 2^32 |
| Mersenne.TwistPrefix | mkm.c:143-156 | the in-place refill up to position k leaves positions k.. untouched and keeps every word below 2^32 |
| Mersenne.TwistPrefixStable | mkm.c:143-156 | a position keeps its new word once the refill has passed it |
| Mersenne.Twist | mkm.c:133-158 | the refill of all N words keeps every word below 2^32 |
| Mersenne.TwistStepIsRecurrence | mkm.c:143-156 | the refill's word k satisfies the MT19937 recurrence x[k+N] = x[k+M] ^ ((upper bit of x[k] \| lower bits of x[k+1]) A) over the stream old words ++ new words |
| Mersenne.TwistIsRecurrence | mkm.c:133-158 | the three refill loops together produce the next N words of the MT19937 recurrence |
| Mersenne.Temper | mkm.c:162-168 | tempering maps a 32-bit word to a 32-bit word |
| Mersenne.Refilled | mkm.c:133-158 | after the refill check the state is valid and the cursor lies in [0, N) |
| Mersenne.Next | mkm.c:126-169 | every call leaves a valid state with mti in [1, N] and returns a value below 2^32 |
| Mersenne.NextConsumesOneWord | mkm.c:133-160 | a call takes the word under the cursor and advances by one; at mti == N it refills and takes word 0; a never-seeded generator (mti == N + 1) is seeded with 5489 first |
| Mersenne.MersenneTwister.constructor | mkm.c:105-106 | the zeroed storage with mti == N + 1, the never-seeded state |
| Mersenne.MersenneTwister.InitGenrand | mkm.c:110-124 | seeding fills the vector with the seeding recurrence and leaves mti == N |
| Mersenne.MersenneTwister.Regenerate | mkm.c:143-156 | the refill block rewrites the vector to its twist |
| Mersenne.MersenneTwister.RefillLow | mkm.c:143-147 | the first refill loop rewrites positions 0 .. N-M-1 |
| Mersenne.MersenneTwister.RefillHigh | mkm.c:149-153 | the second refill loop rewrites positions N-M .. N-2, reading rewritten words |
| Mersenne.MersenneTwister.RefillLast | mkm.c:155-156 | the last word is computed from the new word 0 |
| Mersenne.MersenneTwister.GenrandInt32 | mkm.c:127-169 | one call of the object moves its state and returns the value exactly as the state-machine Next says |
| Bounded.Threshold | mkm.c:190-199 | the computed threshold is (2^32 - range) mod range, and below range |
| Bounded.ProductBelow | mkm.c:184-186 | the 64-bit product of a 32-bit draw and range is below 2^32 * range, so it never overflows |
| Bounded.Rejection | mkm.c:201-206 | the rejection loop leaves a valid generator and a product still below 2^32 * range |
| Bounded.BoundedDraw | mkm.c:182-210 | one bounded_rand call from a generator state: value, new state, last low word and whether the draw was accepted; the definition Bounded.BoundedDrawInRange, Bounded.BoundedRand and Unbiased.UniformHits are about |
| Bounded.BoundedDrawInRange | mkm.c:182-210 | bounded_rand returns a value below range for range >= 1, 0 for range 1 and for range 0; an accepted draw has low word >= (2^32 - range) mod range |
| Bounded.Redraw | mkm.c:201-206 | the in-place rejection loop follows the rejection specification |
| Bounded.BoundedRand | mkm.c:182-210 | bounded_rand over the generator object matches the specification draw, state included |
| Unbiased.Hits | mkm.c:182-210 | how many of the words 0..n-1 the rejection test accepts and turn into the value v; never more than n |
| Unbiased.ThresholdIsRemainder | mkm.c:190-199 | the threshold t computed from -range is 2^32 mod range |
| Unbiased.WindowOfProduct | mkm.c:184-186 | a product whose low word is at least t and whose high word is v lies in [v 2^32 + t, (v + 1) 2^32), and conversely |
| Unbiased.HitsIsWindow | mkm.c:184-206 | the words accepted with value v are those whose product with range lies in v's window |
| Unbiased.BelowCeil | mkm.c:184-186 | k * range is below b exactly for k < ceil(b / range) |
| Unbiased.BelowIsCeil | mkm.c:184-186 | of the words 0..n-1, min(n, ceil(b / range)) have a product below b |
| Unbiased.WindowIsDifference | mkm.c:184-186 | counting products in [lo, hi) is counting those below hi minus those below lo |
| Unbiased.CeilShift | mkm.c:190-199 | moving a bound by q multiples of range moves ceil(bound / range) by q |
| Unbiased.CountInWindow | mkm.c:184-206 | a window [lo, hi) below n * range holds ceil(hi / range) - ceil(lo / range) products |
| Unbiased.UniformHits | mkm.c:182-210 | bounded_rand is unbiased: for 1 <= range < 2^32, every value v < range is produced by exactly floor(2^32 / range) of the 2^32 words the rejection test accepts |
| Sobol.SlotInverse | mkm.c:242-245 | iu[j][k] aliases iv[2 (j-1) + k], a bijection between (bit, dimension) pairs and slots 1 .. 2 MAXBIT |
| Sobol.Dir | mkm.c:247-271 | every direction number is below 2^30 |
| Sobol.InitialDir | mkm.c:249-252 | the shifted initial direction numbers are below 2^30 |
| Sobol.SelfShiftXor | mkm.c:257-258 | i ^ (i >> mdeg) stays below 2^30 |
| Sobol.Taps | mkm.c:260-268 | XORing in the tapped direction numbers stays below 2^30 |
| Sobol.CounterBelowLimit | mkm.c:280-289 | fewer than 2^30 - 1 calls keep the counter's lowest 0-bit inside the first MAXBIT bits |
| Sobol.BitStep | mkm.c:280-295 | going from in to in + 1 clears the trailing 1-bits, sets the lowest 0-bit and keeps every higher bit |
| Sobol.GrayBitStep | mkm.c:280-295 | from in to in + 1 exactly one bit of the Gray code in ^ (in >> 1) flips: the one at the number of trailing 1-bits of in |
| Sobol.GrayXorStep | mkm.c:280-293 | one more call toggles exactly the direction number selected by the trailing 1-bits of the counter |
| Sobol.TrailingOnesBelow | mkm.c:280-289 | fewer than 2^b - 1 calls keep the lowest 0-bit within the first b bits |
| Sobol.TrailingOnesOfAllOnes | mkm.c:280-293 | at in == 2^30 - 1 the scan runs off its MAXBIT bits and the call reads iv[61], past the end of iv |
| Sobol.TrailingOnes | mkm.c:280-289 | the number of trailing 1-bits of in, which the break-on-0 scan counts; the definition Sobol.TrailingOnesBelow and Sobol.SobolSequence.LowestZero are about |
| Sobol.AccumulateIsGray | mkm.c:290-295 | after n calls each accumulator is the XOR of the direction numbers picked by the set bits of the Gray code n ^ (n >> 1) |
| Sobol.AccumulateBelow | mkm.c:292-293 | both accumulators stay below 2^30 |
| Sobol.AccumulateStep | mkm.c:280-293 | each call XORs into the accumulator the entry of iv picked by the counter's lowest 0-bit |
| Sobol.Accumulate | mkm.c:290-293 | the accumulator after n calls; the definition Sobol.AccumulateIsGray, Sobol.AccumulateBelow and Sobol.AccumulateStep are about |
| Sobol.FinalComplete | mkm.c:239-276 | the table the first-call block produces holds every direction number and leaves slot 0 untouched |
| Sobol.RecurrenceOfTable | mkm.c:254-271 | reading the table as it stands, the recurrence computes direction number j of dimension k |
| Sobol.SobolSequence.constructor | mkm.c:229-236 | the statics before the first call: not initialised, iv the static initialiser, no calls made |
| Sobol.SobolSequence.Initialize | mkm.c:239-276 | the first-call block turns the static initialiser into the complete direction table |
| Sobol.SobolSequence.ShiftInitial | mkm.c:249-252 | the first mdeg direction numbers are shifted into place |
| Sobol.SobolSequence.FillByRecurrence | mkm.c:254-271 | the remaining direction numbers of a dimension are computed by the recurrence |
| Sobol.SobolSequence.Recurrence | mkm.c:256-270 | the loop of taps computes the recurrence over the table |
| Sobol.SobolSequence.LowestZero | mkm.c:280-289 | the scan of im returns the position of the lowest 0-bit of in, counting from 1 |
| Sobol.SobolSequence.Advance | mkm.c:280-295 | one call increments in by exactly one and keeps the accumulators equal to their Gray-code XORs |
| Sobol.SobolSequence.Next | mkm.c:218-298 | one call initialises on first use, increments in by one, and returns point number in |
| Sobol.ScaledBelowOne | mkm.c:274 | an accumulator below 2^30 scaled by fac lies in [0, 1) |
| Sobol.Point | mkm.c:290-297 | every Sobol point lies in [0, 1)^2 |
| MacQueen.RoundIndex | mkm.c:560-570 | rounding with the clamp to n - 1 always gives an index in [0, n) |
| MacQueen.RoundIndexIsNearest | mkm.c:560-570 | the rounded, clamped index is one of the indices nearest to the coordinate |
| MacQueen.QuasiIndex | mkm.c:558-572 | the row-major index of the rounded point lies in [0, width * height) |
| MacQueen.QuasiIndexIsNearestPixel | mkm.c:560-572 | the chosen pixel's row and column are the ones nearest to y * height and x * width |
| MacQueen.QuasiSample | mkm.c:558-572 | the pixel index picked from the n-th Sobol point lies in [0, size) |
| MacQueen.QuasiSamplesStep | mkm.c:552-573 | each quasi-random presentation appends the index rounded from the next Sobol point |
| MacQueen.PseudoSamples | mkm.c:574-579 | every pseudo-random presentation index is below the image size, and the generator stays valid; the third component records whether every draw was accepted within its redraw budget |
| MacQueen.PseudoSamplesStep | mkm.c:574-579 | each pseudo-random presentation appends one bounded_rand draw and moves the generator on; the run stays fully accepted only if that draw was accepted |
| MacQueen.MaxPres | mkm.c:551 | max_pres lies in [0, size] and equals size at sample_rate 1 |
| MacQueen.Update | mkm.c:602-610 | the nearest cluster grows by one and its centre moves towards the pixel by the learning rate: it stays put at rate 0 and lands on the pixel at rate 1 |
| MacQueen.Present | mkm.c:584-611 | one presentation; the definition MacQueen.PresentUpdatesNearestOnly and MacQueen.PresentKeepsMeans characterise |
| MacQueen.Train | mkm.c:552-611 | the presentations in sample order; the definition MacQueen.TrainTotalSize and MacQueen.TrainKeepsMeans are about |
| MacQueen.PresentUpdatesNearestOnly | mkm.c:584-610 | a presentation fails exactly when no centre is strictly closer than the sentinel; otherwise only the nearest cluster changes, its size grows by one, and the total size grows by one |
| MacQueen.TrainTotalSize | mkm.c:552-611 | after a run the sizes add up to the starting total plus the number of presentations |
| MacQueen.UnitRateIsRunningMean | mkm.c:602-610 | with lr_exp = 1 the update turns the mean of n colours into the mean of the n + 1 colours |
| MacQueen.PresentKeepsMeans | mkm.c:602-610 | with lr_exp = 1 a presentation keeps every centre the exact mean of its members |
| MacQueen.TrainKeepsMeans | mkm.c:552-611 | with lr_exp = 1 every centre of a run is the exact mean of its seed and the pixels it took |
| MacQueen.PaletteOfRun | mkm.c:538-611 | from the maximin palette a run ends with num_colors clusters whose sizes sum to num_colors + max_pres, each an exact mean when lr_exp = 1 |
| MacQueen.QuasiChoice | mkm.c:555-573 | the quasi-random choice consumes one Sobol point and returns its rounded pixel index, inside the image |
| MacQueen.PseudoChoice | mkm.c:574-579 | the pseudo-random choice is one bounded_rand draw over the image size, inside the image, and reports whether the draw was accepted within its redraw budget |
| MacQueen.UpdateNearest | mkm.c:584-610 | the in-place update performs the presentation, and changes nothing where the search finds no centre |
| MacQueen.PresentQuasi | mkm.c:552-611 | the Sobol-driven loop makes max_pres presentations of the Sobol-chosen pixels, advancing the sequence by one point each |
| MacQueen.PresentDrawn | mkm.c:576-610 | one pseudo-random presentation: one draw, reporting whether it was accepted, then the update of the nearest cluster |
| MacQueen.PresentPseudo | mkm.c:552-611 | the generator-driven loop makes max_pres presentations of the bounded_rand draws, and settled says whether every draw was accepted within its redraw budget |
| MacQueen.MacQueenCluster | mkm.c:518-669 | the output palette is the maximin palette trained on the chosen samples; the output image has the input's dimensions and maps every pixel to its nearest centre; in pseudo-random mode ok also requires every bounded_rand draw to have been accepted, so ok holds only for sample sequences the source can produce; the generator a run does not use is left as it was (the Mersenne Twister in Sobol mode, the Sobol state otherwise) |
| Lloyd.AssignInRange | mkm.c:740-757 | when every pixel finds a centre, every member index names a cluster |
| Lloyd.Assign | mkm.c:740-757 | member[i] of every pixel is the index the nearest-centre search picks |
| Lloyd.Acc | mkm.c:725-776 | the accumulators after the first n pixels, one per cluster; the definition Lloyd.AccIsMembers characterises |
| Lloyd.AccStep | mkm.c:770-775 | each pixel adds itself to its cluster's channel sums and size |
| Lloyd.AccIsMembers | mkm.c:735-776 | each accumulator holds the number and channel sum of its cluster's pixels |
| Lloyd.AccSizesSum | mkm.c:735-776 | the accumulator sizes add up to the number of pixels |
| Lloyd.ZeroSizes | mkm.c:725-733 | the reset accumulators have total size 0 |
| Lloyd.Recentered | mkm.c:778-788 | the centre update keeps the number of clusters; Lloyd.RecenterMeans gives each new centre |
| Lloyd.Recenter | mkm.c:725-788 | the palette after a pass with a given assignment keeps the number of clusters; Lloyd.RecenterMeans and Lloyd.RecenterIdempotent characterise it |
| Lloyd.RecenterMeans | mkm.c:778-788 | empty clusters keep their centre; every other cluster keeps its size and moves to the mean of its pixels |
| Lloyd.RecenterIdempotent | mkm.c:778-788 | a second centre update with the same assignment changes nothing |
| Lloyd.Diff | mkm.c:763-768 | num_changes never exceeds the number of pixels |
| Lloyd.DiffZero | mkm.c:763-768 | no change is counted exactly when the new assignment equals the previous one |
| Lloyd.Run | mkm.c:712-797 | the do-while as a function; a finished loop keeps the number of clusters, and Lloyd.RunIterations, Lloyd.RunStopsAtFixedPoint and Distortion.RunLowersDistortion are about it |
| Lloyd.RunIterations | mkm.c:712-797 | the loop runs at least one pass and at most max(1, max_iters) passes |
| Lloyd.RunStopsAtFixedPoint | mkm.c:715-797 | a loop that ends before max_iters ends at a fixed point: reassigning and recentring would change nothing |
| Lloyd.RunUnfold | mkm.c:715-797 | one pass of the do-while, then a stop or another pass as num_changes and num_iters decide |
| Lloyd.ResetAccumulators | mkm.c:725-733 | every accumulator becomes size 0 with zero sums |
| Lloyd.Record | mkm.c:763-768 | member[i] takes the new index, counted as a change on the first pass or when it differs |
| Lloyd.AddPixel | mkm.c:770-775 | the pixel joins its accumulator's sums and size, and nothing else changes |
| Lloyd.VisitPixel | mkm.c:737-775 | the work for one pixel: search, record, accumulate |
| Lloyd.VisitAll | mkm.c:735-776 | the pixel loop leaves member equal to the assignment and the accumulators equal to its sums |
| Lloyd.Reassign | mkm.c:725-776 | member[i] holds the nearest index of every pixel, and the pass succeeds exactly when every pixel finds a centre |
| Lloyd.UpdateCenters | mkm.c:778-788 | the in-place centre update matches the recentring specification |
| Lloyd.LloydPass | mkm.c:715-788 | one pass reassigns and recentres; num_changes is every pixel on pass 1, otherwise the number of changed memberships |
| Lloyd.Iterate | mkm.c:712-797 | the in-place do-while ends with the palette and iteration count of the loop specification |
| Lloyd.LloydCluster | mkm.c:678-861 | the palette is the loop's result from the maximin palette; the output has the input's dimensions and maps every pixel to its nearest centre |
| Distortion.Spread | mkm.c:778-788 | the total squared distance of a list of colours to one colour is never negative |
| Distortion.Objective | mkm.c:735-788 | the total squared distance of the pixels to the centres of their clusters is never negative |
| Distortion.GroupedStep | mkm.c:735-776 | one more pixel adds its squared distance to the share of its own cluster only |
| Distortion.ObjectiveGrouped | mkm.c:735-776 | summed pixel by pixel or cluster by cluster the objective is the same, since every pixel is in exactly one cluster |
| Distortion.AssignLowersObjective | mkm.c:737-757 | reassigning every pixel to its nearest centre does not raise the objective of any in-range assignment |
| Distortion.ShiftDev | mkm.c:778-788 | per channel, the squared deviations from x are those from m plus a cross term that vanishes at the mean plus n (m - x)^2 |
| Distortion.MeanMinimisesSpread | mkm.c:778-788 | the mean of a non-empty list of colours has the least total squared distance to it of all colours |
| Distortion.RecenterLowersObjective | mkm.c:778-788 | moving every non-empty cluster to the mean of its pixels does not raise the objective of the assignment it came from |
| Distortion.Distortion | mkm.c:735-757 | the distortion of a palette, each pixel's squared distance to its nearest centre summed, is never negative |
| Distortion.Step | mkm.c:735-788 | one pass of the loop body keeps the number of clusters |
| Distortion.StepLowersDistortion | mkm.c:715-788 | one pass does not raise the distortion, whenever the next pass can run |
| Distortion.RunLowersDistortion | mkm.c:712-797 | the loop ends with a palette whose distortion is no larger than that of the palette it started from |
| Mse.SumSq | mkm.c:868-878 | the running total of squared channel differences is never negative |
| Mse.MseNonNegative | mkm.c:866-881 | the MSE is never negative |
| Mse.SumSqSymmetric | mkm.c:870-878 | the total does not depend on the order of the two images |
| Mse.MseSymmetric | mkm.c:866-881 | two images of one size have the same MSE either way round |
| Mse.SumSqOfEqual | mkm.c:870-878 | pairs of equal pixels add nothing to the total |
| Mse.MseOfEqual | mkm.c:866-881 | an image compared with itself has MSE 0 |
| Mse.MeanSquaredError | mkm.c:866-881 | the total divided by the number of pixels; the definition Mse.MseNonNegative, Mse.MseSymmetric and Mse.MseOfEqual are about |
| Mse.CalcMse | mkm.c:866-881 | the loop computes the mean squared error over the first image's pixels |
| Prototype.RandomIndex | main.c:207 | (int)(r / (RAND_MAX + 1.0) * numPixels) lies in [0, numPixels) for every r in [0, RAND_MAX] |
| Prototype.RandomIndexIsScaledDraw | main.c:221 | the integer form of the index is the truncation of the real-valued scaling |
| Prototype.InitialClusters | main.c:198-214 | there are always 64 starting clusters, each of size 1 |
| Prototype.InitialClustersAreMeans | main.c:204-214 | each starting cluster is the mean of its one seed pixel |
| Prototype.Closest | main.c:229-244 | the search result is an index of the palette |
| Prototype.ClosestIsLowestArgmin | main.c:229-244 | the search picks the lowest index of minimal distance |
| Prototype.SearchAsWritten | main.c:229-244 | the search as written: the strict search's index when it finds one, otherwise the `nearest` carried over from the previous presentation; the definition Prototype.SearchAsWrittenAgrees and Prototype.StaleIndexWhenAllAtSentinel are about |
| Prototype.SearchAsWrittenAgrees | main.c:223-244 | as written, the search yields the lowest index of minimal distance when some centre is strictly closer than 195075, and otherwise leaves `nearest` as it was |
| Prototype.StaleIndexWhenAllAtSentinel | main.c:188-247 | a black pixel presented to 64 white centres never assigns `nearest`, while the intended search picks centre 0 |
| Prototype.Absorb | main.c:246-254 | the cluster grows by one and its centre becomes (Ni ci + x)/(Ni + 1) channel by channel |
| Prototype.AbsorbIsUnitRateUpdate | main.c:246-254 | ci = (Ni ci + x)/(Ni + 1) is the mkm.c update with learning rate 1/(Ni + 1) |
| Prototype.AbsorbIsRunningMean | main.c:246-254 | the update turns the mean of Ni colours into the mean of the Ni + 1 colours |
| Prototype.Present | main.c:229-254 | one presentation keeps 64 clusters of positive size and adds one to the total size |
| Prototype.PresentKeepsMeans | main.c:246-254 | a presentation keeps every centre the exact mean of the pixels its cluster absorbed |
| Prototype.Train | main.c:218-255 | each presentation adds one to the total size |
| Prototype.TrainKeepsMeans | main.c:218-255 | after training every centre is the exact mean of its seed and the pixels it absorbed |
| Prototype.TrainedSizes | main.c:199-255 | after the loop there are 64 clusters whose sizes sum to 64 + numPixels |
| Prototype.ClosestCenter | main.c:229-244 | the in-place search returns the intended closest index |
| Prototype.PresentPixel | main.c:229-254 | the in-place presentation matches the specification |
| Prototype.SeedClusters | main.c:204-214 | the seeding loop builds the 64 starting clusters |
| Prototype.PresentAll | main.c:218-255 | the presentation loop trains the clusters on one presentation per draw, in order |
| Prototype.MapClosest | main.c:263-291 | the output has the input's dimensions, and every output pixel is the centre closest to its input pixel |
| Prototype.MacQueenClustering | main.c:174-295 | the palette is the 64 seeded clusters trained on one presentation per pixel, and every output pixel is its closest centre; numColors plays no part |
| Prototype.ComputeError | main.c:298-330 | computeError computes the same mean squared error as calc_MSE, so it inherits non-negativity, symmetry and zero on identical images |

## Left out

- File I/O (`read_PPM`, `write_PPM`, `readPPM`, `writePPM`), argument parsing, `print_usage`, the `main` functions, timing and `printf` reporting: console plumbing outside the clustering engine. The mean colour that `read_PPM` computes is passed to the model as a parameter.
- Floating point: channels, centres, distances and the MSE are exact reals, so double rounding is not modelled. `genrand_real2` is unused (its one call site is commented out). `mean_stdev` (a `sqrt`) only reports statistics.
- MacQueen.MacQueenCluster: the learning rate `pow(new_size, -lr_exp)` is a parameter `lr`. Only `lr_exp = 1` (`lr(n) == 1/n`) is given a closed form, and the exact-mean lemmas assume it.
- MacQueen.MacQueenCluster: `pres_order` is tested once instead of on every presentation. It does not change inside the loop, so the choice is the same.
- Bounded.BoundedRand: the rejection loop runs at most `budget` redraws. The source loops until a draw is accepted. `settled` reports whether the last draw was accepted, and the result is below `range` either way. `MacQueen.PseudoChoice`, `MacQueen.PresentDrawn` and `MacQueen.PresentPseudo` pass the flag on, and `MacQueen.MacQueenCluster` then ends with `ok == false`.
- Sobol.SobolSequence.Next: requires fewer than 2^30 - 1 calls. The source has no `MAXBIT` check and would read `iv[61]` / `iv[62]` past the array on call number 2^30 (`Sobol.TrailingOnesOfAllOnes` shows the index).
- `-INT_MAX` indexing: where a nearest-centre search in `mkm.c` finds no centre, the source would index `clusters[-INT_MAX]` or `tmp_clusters[-INT_MAX]`. The model stops there with `ok == false` (`None` in the specification functions) instead of modelling undefined behaviour. Inside the RGB cube this happens only when every centre lies exactly `MAX_RGB_DIST` away (`Nearest.NearestFailsOnlyAtSentinel`).
- Image sizes: `RGB_Image.size` and `width * height` are ints in the source. The model requires the image to be well formed (`|data| == width * height`) and, where `int` overflow would matter, at most `INT_MAX` pixels. Empty images, on which `calc_MSE` and `computeError` divide by zero, are excluded by their requires.
- Mse.MseOfEqual: proves only that equal images have MSE 0. The converse (MSE 0 implies equal images) is not stated.
- Prototype.MacQueenClustering: `rand()` is an input sequence `draws` of values in `[0, RAND_MAX]`, with glibc's RAND_MAX 2^31 - 1. `srand(time(NULL))` is not modelled.
- Prototype.RandomIndex: `(int)(r / (RAND_MAX + 1.0) * n)` is computed exactly as floor(r * n / 2^31). `Prototype.RandomIndexIsScaledDraw` shows this equals the truncated real product; double rounding is not modelled.
- Prototype.MacQueenClustering: uses the corrected search `Closest` (see Findings), so it does not model the stale `nearest` index of the source.
- `samples.c` and `testMaxiMin.c`: unbuilt scratch drafts, not part of this model.

## Findings

| source | as written | input that shows it | evidently intended | confidence | as-written member | corrected member |
|---|---|---|---|---|---|---|
| main.c:188-247 | `nearest` is declared without a value and assigned only when a distance is strictly below 195075. It is then read at 247 (and at 287 in the mapping loop) whatever happened. | A black pixel presented while all 64 centres are white: every distance is exactly 195075, so `nearest` keeps the previous presentation's index, or is read uninitialised on the first. | The lowest index of minimal distance, which always exists for 64 clusters. | not executed | Prototype.StaleIndexWhenAllAtSentinel | Prototype.ClosestIsLowestArgmin |
