# Classifying particles by their distance to skeleton features

A Dafny model of the particle-classification pass of the hIPNAT script
`Classify_Particles_Using_Skeleton.py`. The script takes the centroids of the
particles detected in one image and the landmarks of a skeleton computed from
another: its junction voxels (branch points) and its end-points (tips). For each
particle it finds the nearest junction voxel and the nearest end-point within a
cutoff ("snap to") distance. It then puts the particle in one of four buckets:

- **Shaft**: no landmark of either kind lies within the cutoff;
- **Hybrid**: the two nearest distances are within half a pixel of each other;
- **Tip**: the nearest end-point is closer;
- **Junction**: the nearest junction voxel is closer.

It counts the buckets and names each particle's region of interest after its
bucket and its index, zero-padded to four digits (`Tip:0007`). It then logs
each count as a percentage of the number of particles. It also logs two
occupancy ratios: junction-associated particles per junction, and
end-point-associated particles per end-point.

Modules, leaves first:

- `Geometry` (`geometry.dfy`) has points, the distance, and the predicate `Euclidean`.
  Dafny has no square root on `real`, so the distance is a parameter `dist`. `Euclidean(dist)`
  says it is the nonnegative square root of the squared coordinate differences. That pins it
  down uniquely. Every classification theorem holds for any distance. Only the worked
  scenarios assume `Euclidean`.
- `NearestFeature` (`nearest.dfy`) has the nearest-feature scan, as a function and as the
  script's loop. `MaxInt` is the sentinel, Jython's `sys.maxint` (2147483647). `ValidCutoff`
  keeps the cutoff at most 1000, the upper bound of the script's parameter declaration,
  which keeps it below the sentinel. The declaration's lower bound of 1 is not needed, so the
  theorems cover every cutoff up to 1000.
- `Classifier` (`classifier.dfy`) has the four-way decision rule and the label of one particle.
  The rule returns `None` for the script's final `else`, which prints an error and puts the
  particle in no list.
- `Tally` (`tally.dfy`) has the loop over all particles with its four counters and four index
  lists, and the counting lemmas.
- `Naming` (`naming.dfy`) has `str(i).zfill(4)` and the region names, with a parser that
  reads a name back.
- `Ratio` (`ratio.dfy`) has both definitions of `ratio`, `round(x, 3)` over the reals,
  and the logged frequencies.
- `Options` (`options.dfy`) has the `Option` datatype.

Two tolerance assumptions appear in the theorems. The `else` branch at line 180 is
unreachable as soon as half a pixel is nonnegative. The characterisation of each
bucket (`DecideMeaning`, `ClassifyMeaning`) also needs half a pixel to be smaller
than the gap between the cutoff and the sentinel (`ValidTolerance`). With a larger
half pixel, a particle associated with only one kind of landmark would land in
Hybrid.

## Model

| member | source | states |
|---|---|---|
| Geometry.EuclideanDetermined | src/main/resources/scripts/Analyze/Skeleton/Classify_Particles_Using_Skeleton.py:56-58 | Any two distances that are the nonnegative square root of the squared coordinate differences agree everywhere, so `Euclidean` characterises `distance` exactly |
| Geometry.EuclideanSymmetric | src/main/resources/scripts/Analyze/Skeleton/Classify_Particles_Using_Skeleton.py:56-58 | The Euclidean distance is the same in both argument orders |
| Geometry.RootUnique | src/main/resources/scripts/Analyze/Skeleton/Classify_Particles_Using_Skeleton.py:58 | `math.sqrt` has one possible value: two nonnegative roots of the same number are equal |
| NearestFeature.Improve | src/main/resources/scripts/Analyze/Skeleton/Classify_Particles_Using_Skeleton.py:155-156 | One scan step (also lines 161-162): the best distance never grows, and it becomes the new distance exactly when that distance is within the cutoff and strictly smaller, otherwise it stays |
| NearestFeature.ImproveKeepsNearest | src/main/resources/scripts/Analyze/Skeleton/Classify_Particles_Using_Skeleton.py:153-156 | One loop step (`dist <= cutoff_dist and dist < j_dist`) turns the nearest distance of a prefix into the nearest distance of the prefix extended by one landmark |
| NearestFeature.Nearest | src/main/resources/scripts/Analyze/Skeleton/Classify_Particles_Using_Skeleton.py:150-162 | The scan result is the least distance to a landmark within the cutoff and is attained by one, or is `sys.maxint` when none is within the cutoff; it is within the cutoff exactly when some landmark is |
| NearestFeature.NearestScan | src/main/resources/scripts/Analyze/Skeleton/Classify_Particles_Using_Skeleton.py:150-156 | The script's loop, starting from `sys.maxint`, computes that nearest distance for every landmark list, the empty one included, and never fails |
| NearestFeature.NearestSingle | src/main/resources/scripts/Analyze/Skeleton/Classify_Particles_Using_Skeleton.py:150-156 | Over one landmark the scan yields its distance when it is within the cutoff and `sys.maxint` otherwise |
| NearestFeature.NearestUnique | src/main/resources/scripts/Analyze/Skeleton/Classify_Particles_Using_Skeleton.py:150-162 | The nearest distance is determined by its meaning: two values meeting it are equal |
| NearestFeature.NearestSentinel | src/main/resources/scripts/Analyze/Skeleton/Classify_Particles_Using_Skeleton.py:150-156 | With no landmark within the cutoff, in particular with none at all, the distance stays at `sys.maxint` |
| NearestFeature.NearestSameElements | src/main/resources/scripts/Analyze/Skeleton/Classify_Particles_Using_Skeleton.py:153-162 | The scan depends only on which landmarks are listed, not on their order or repetition |
| NearestFeature.NearestPermutation | src/main/resources/scripts/Analyze/Skeleton/Classify_Particles_Using_Skeleton.py:153-162 | Permuting the junction-voxel or end-point list leaves the nearest distance unchanged |
| NearestFeature.NearestCutoffMonotone | src/main/resources/scripts/Analyze/Skeleton/Classify_Particles_Using_Skeleton.py:153-162 | Raising the cutoff keeps an associated centroid associated, and the nearest distance can only shrink |
| Classifier.Decide | src/main/resources/scripts/Analyze/Skeleton/Classify_Particles_Using_Skeleton.py:164-181 | With a nonnegative half pixel the rule always picks a bucket, so the error branch at line 180 is never reached |
| Classifier.DecideMeaning | src/main/resources/scripts/Analyze/Skeleton/Classify_Particles_Using_Skeleton.py:164-179 | For scan results, each bucket holds exactly when: Shaft, neither within the cutoff; Hybrid, both within and within half a pixel of each other; Tip, end-point within and junction not within or farther by more than half a pixel; Junction, symmetrically |
| Classifier.ShaftBeforeTie | src/main/resources/scripts/Analyze/Skeleton/Classify_Particles_Using_Skeleton.py:165-171 | Two sentinel distances pass the tie test of line 169, yet the particle is Shaft because line 165 is tested first |
| Classifier.Classify | src/main/resources/scripts/Analyze/Skeleton/Classify_Particles_Using_Skeleton.py:150-181 | A particle gets a label whenever half a pixel is nonnegative, and it is Shaft exactly when no landmark of either kind is within the cutoff |
| Classifier.ClassifyMeaning | src/main/resources/scripts/Analyze/Skeleton/Classify_Particles_Using_Skeleton.py:150-179 | Hybrid, Tip and Junction stated through which landmark kinds are within the cutoff and the two nearest distances |
| Classifier.ClassifySwap | src/main/resources/scripts/Analyze/Skeleton/Classify_Particles_Using_Skeleton.py:164-179 | Exchanging the junction-voxel and end-point lists exchanges Tip and Junction and keeps Shaft and Hybrid |
| Classifier.ClassifyPermutation | src/main/resources/scripts/Analyze/Skeleton/Classify_Particles_Using_Skeleton.py:153-181 | Permuting either landmark list does not change the label |
| Classifier.ClassifyCutoffMonotone | src/main/resources/scripts/Analyze/Skeleton/Classify_Particles_Using_Skeleton.py:153-167 | A particle that is Shaft under a larger cutoff is Shaft under a smaller one |
| Classifier.ClassifyAll | src/main/resources/scripts/Analyze/Skeleton/Classify_Particles_Using_Skeleton.py:148-181 | One label per particle (`range(n_particles)` with `n_particles = len(cx)`), all defined when half a pixel is nonnegative |
| Classifier.ScenarioTip | src/main/resources/scripts/Analyze/Skeleton/Classify_Particles_Using_Skeleton.py:150-175 | Centroid (0,0), junction voxel (10,10), end-point (0.4,0), cutoff 5, half pixel 0.5: Tip |
| Classifier.ScenarioShaft | src/main/resources/scripts/Analyze/Skeleton/Classify_Particles_Using_Skeleton.py:150-167 | Centroid (0,0), both landmarks at (100,100), cutoff 5: Shaft |
| Classifier.ScenarioHybrid | src/main/resources/scripts/Analyze/Skeleton/Classify_Particles_Using_Skeleton.py:150-171 | Centroid (0,0), junction voxel (3,0), end-point (3.1,0), cutoff 5, half pixel 0.5: Hybrid |
| Tally.Count | src/main/resources/scripts/Analyze/Skeleton/Classify_Particles_Using_Skeleton.py:142-179 | The counters `n_bp`, `n_tip`, `n_shaft` and `n_hybrid`: how many labelled particles carry a bucket, never more than the particles seen |
| Tally.IndicesOf | src/main/resources/scripts/Analyze/Skeleton/Classify_Particles_Using_Skeleton.py:143-178 | The lists built by the `append` calls of lines 166-178: the indices of a bucket's particles, in particle order (their meaning is stated by the lemmas below) |
| Tally.IndicesMembership | src/main/resources/scripts/Analyze/Skeleton/Classify_Particles_Using_Skeleton.py:143-179 | The index list of a bucket holds every particle of that bucket and nothing else |
| Tally.IndicesIncreasing | src/main/resources/scripts/Analyze/Skeleton/Classify_Particles_Using_Skeleton.py:142-179 | Each index list is strictly increasing, so no index appears twice, and its length equals the bucket's counter |
| Tally.IndicesStep | src/main/resources/scripts/Analyze/Skeleton/Classify_Particles_Using_Skeleton.py:166-179 | Classifying one more particle appends its index to its own bucket's list and to no other |
| Tally.CountsAddUp | src/main/resources/scripts/Analyze/Skeleton/Classify_Particles_Using_Skeleton.py:142-181 | When every particle is labelled, `n_bp + n_tip + n_shaft + n_hybrid` is the number of particles |
| Tally.OccursOnce | src/main/resources/scripts/Analyze/Skeleton/Classify_Particles_Using_Skeleton.py:143-179 | A labelled particle's index appears in exactly one of the four lists |
| Tally.OccursNever | src/main/resources/scripts/Analyze/Skeleton/Classify_Particles_Using_Skeleton.py:143-179 | No list holds an index beyond the last particle |
| Tally.IndicesPartition | src/main/resources/scripts/Analyze/Skeleton/Classify_Particles_Using_Skeleton.py:143-181 | The four index lists partition `range(n_particles)` |
| Tally.IndicesSummary | src/main/resources/scripts/Analyze/Skeleton/Classify_Particles_Using_Skeleton.py:142-181 | For a full labelling the four list lengths add up to the number of particles and the lists partition the particle indices |
| Tally.ClassifyParticles | src/main/resources/scripts/Analyze/Skeleton/Classify_Particles_Using_Skeleton.py:142-181 | The script's loop: each list holds exactly the particles of its bucket, each counter is its list's length, the counters sum to `n_particles`, the lists partition the indices, and the error branch is never taken |
| Tally.ShaftCountMonotone | src/main/resources/scripts/Analyze/Skeleton/Classify_Particles_Using_Skeleton.py:148-167 | Raising the cutoff with the landmarks fixed never increases `n_shaft` |
| Tally.ClassifyAllPermutation | src/main/resources/scripts/Analyze/Skeleton/Classify_Particles_Using_Skeleton.py:148-181 | Permuting the landmark lists changes no label, so no count and no index list |
| Tally.TallySwap | src/main/resources/scripts/Analyze/Skeleton/Classify_Particles_Using_Skeleton.py:142-181 | Exchanging the landmark lists exchanges `n_tip` and `n_bp` and keeps `n_shaft` and `n_hybrid` |
| Naming.NatToString | src/main/resources/scripts/Analyze/Skeleton/Classify_Particles_Using_Skeleton.py:190 | `str(i)` is at least one decimal digit, with no leading zero unless `i` is 0, and is one digit exactly when `i < 10` |
| Naming.NatToStringRoundTrip | src/main/resources/scripts/Analyze/Skeleton/Classify_Particles_Using_Skeleton.py:190 | Reading the digits of `str(i)` back gives `i` |
| Naming.ZFill | src/main/resources/scripts/Analyze/Skeleton/Classify_Particles_Using_Skeleton.py:190 | `zfill(width)` keeps a string that is long enough; otherwise it left-pads it with zeros to `width` and keeps a leading sign in front |
| Naming.LeadingZeros | src/main/resources/scripts/Analyze/Skeleton/Classify_Particles_Using_Skeleton.py:190 | Zero padding keeps the string all digits and keeps the number it denotes |
| Naming.RoiId | src/main/resources/scripts/Analyze/Skeleton/Classify_Particles_Using_Skeleton.py:190 | `roi_id = str(i).zfill(4)`: at least four characters, all decimal digits |
| Naming.RoiIdMeaning | src/main/resources/scripts/Analyze/Skeleton/Classify_Particles_Using_Skeleton.py:190 | `str(i).zfill(4)` is four characters for `i < 1000` and `str(i)` otherwise, all digits, and reads back as `i` |
| Naming.RoiName | src/main/resources/scripts/Analyze/Skeleton/Classify_Particles_Using_Skeleton.py:189-201 | The naming chain tested in the order Hybrid, Junction, Tip, Shaft: the name reads back as the first list holding `i` and `i` itself, and a name in the `UNKNOWN:` fallback (an index in no list) reads back as no bucket |
| Naming.UnknownUnparsed | src/main/resources/scripts/Analyze/Skeleton/Classify_Particles_Using_Skeleton.py:200-201 | A name of the `UNKNOWN:` fallback is not the name of any bucket |
| Naming.RoiNames | src/main/resources/scripts/Analyze/Skeleton/Classify_Particles_Using_Skeleton.py:187-201 | One name per particle, in particle order; a name that reads back as a bucket carries its own particle's index |
| Naming.PrefixesDistinct | src/main/resources/scripts/Analyze/Skeleton/Classify_Particles_Using_Skeleton.py:192-199 | No bucket's name prefix begins another bucket's region name |
| Naming.RoiNameRoundTrip | src/main/resources/scripts/Analyze/Skeleton/Classify_Particles_Using_Skeleton.py:189-199 | A region name reads back as its bucket and particle index, so distinct particles get distinct names |
| Naming.RoiNameOfLabel | src/main/resources/scripts/Analyze/Skeleton/Classify_Particles_Using_Skeleton.py:187-201 | With the lists of a labelling, a labelled particle's name is its own bucket's name and its id, not `UNKNOWN:` |
| Naming.RoiNamesOfClassification | src/main/resources/scripts/Analyze/Skeleton/Classify_Particles_Using_Skeleton.py:187-204 | After the classification loop every region is named after its particle's bucket and reads back as that bucket and index; no region is named `UNKNOWN:` |
| Ratio.Round3 | src/main/resources/scripts/Analyze/Skeleton/Classify_Particles_Using_Skeleton.py:212 | `round(x, 3)` is a multiple of 0.001 within half a thousandth of `x`, and is nonnegative for nonnegative `x` |
| Ratio.Round3Nearest | src/main/resources/scripts/Analyze/Skeleton/Classify_Particles_Using_Skeleton.py:212 | No multiple of 0.001 is closer to `x` than `round(x, 3)` |
| Ratio.Round3TiesAway | src/main/resources/scripts/Analyze/Skeleton/Classify_Particles_Using_Skeleton.py:212 | A value halfway between two thousandths is rounded away from zero, as Python 2 rounds |
| Ratio.Round3AtMostHundred | src/main/resources/scripts/Analyze/Skeleton/Classify_Particles_Using_Skeleton.py:212 | Rounding a percentage of at most 100 does not take it above 100 |
| Ratio.Percent | src/main/resources/scripts/Analyze/Skeleton/Classify_Particles_Using_Skeleton.py:211-212 | The redefined `ratio` is 0.0 for a zero total and otherwise a multiple of 0.001 within half a thousandth of `n/total*100`; for a count within its total it lies between 0 and 100 |
| Ratio.RatioText | src/main/resources/scripts/Analyze/Skeleton/Classify_Particles_Using_Skeleton.py:84-86 | The first `ratio` is `"0 (0.0%)"` for a zero total whatever `n`, and otherwise `str(n)` followed by the redefined ratio's percentage in parentheses |
| Ratio.Stats | src/main/resources/scripts/Analyze/Skeleton/Classify_Particles_Using_Skeleton.py:217-222 | The six logged ratios: with particles, each bucket field is within half a thousandth of its count over `n_particles` times 100; with junctions, the occupied-junction field is within half a thousandth of `(n_bp + n_hybrid)` over `n_junctions` times 100; with end-points, the occupied-tip field is within half a thousandth of `(n_tip + n_hybrid)` over the number of end-points times 100; each bucket field lies within 0..100 when its count is within the number of particles, and a zero denominator gives 0 |
| Ratio.PercentsAddUp | src/main/resources/scripts/Analyze/Skeleton/Classify_Particles_Using_Skeleton.py:217-220 | Four bucket percentages whose counts add up to the total add up to 100, to within the rounding of four terms (0.002) |
| Ratio.StatsOfClassification | src/main/resources/scripts/Analyze/Skeleton/Classify_Particles_Using_Skeleton.py:216-222 | For a classification run: each bucket percentage is within 0..100; the four sum to 100 up to rounding; all are 0 with no particles; the occupied-junction ratio is 0 with no junction and the occupied-tip ratio is 0 with no end-point |

## Left out

- Skeleton analysis and thinning (lines 88-115): `AnalyzeSkeleton_` and `Skeletonize3D_` are library calls. Their outputs are model inputs: the junction voxels, the end-points and the junction count (`nJunctions`, a `nat`). The "not a valid skeleton" error of line 114 is part of that step and is not modelled.
- Particle detection (lines 117-137): the particle analyzer, thresholding, the results table and the "No particles detected" error are image-library I/O. The centroid columns `cx` and `cy` are model inputs. The model requires `|cx| <= |cy|`, which is what reading `cy[i]` for every `i < len(cx)` needs.
- Calibration (lines 102-105 and 141): half a pixel is a parameter `halfPx`. Line 141 reads the calibration of `imp`, a name the script never binds. The script also reports `imp`'s title and units (lines 206, 216, 223).
- Units: the model compares centroids and landmarks in one coordinate system. The script takes centroids from the results table and landmarks as the skeleton's voxel coordinates. It compares them as given.
- The z coordinate of skeleton landmarks: the script's `distance` reads only x and y, and so does the model.
- ROI Manager, dialogs and tables (lines 43-78, 117-123, 203-207, 227-230): UI and external mutable state. The model computes the names that line 204 would give the regions (`RoiNames`) but does not rename anything.
- The log lines (lines 213-225): text formatting. `Stats` models the six percentages they print, not the text.
- Geometry.Euclidean: floating-point `math.sqrt` and IEEE rounding of the distances are not modelled. Distances are reals, and the distance function is a parameter.
- Ratio.Round3: models `round(x, 3)` over the reals. It does not model the binary floating-point representation that can make Python's result differ from the exact decimal rounding.
- Ratio.RatioText: Python's `str` on a float is a parameter `show`, so the model does not fix the digits printed for the percentage.
- `total is 0` (lines 86 and 212) is an identity test. It is modelled as `total == 0`, which it agrees with for the small integers the interpreter shares.
- The first definition of `ratio` (lines 84-86) is replaced at line 211 before any call, so it never runs. `RatioText` models it anyway.
- `IPNAT.java` (plugin context, logging, version lookup) is not part of this model.
