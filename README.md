# Colour-harmony engine of color-suggester-remake, in Dafny

This project models the colour logic of color-suggester-remake. The
browser application films clothing, reduces the clothing pixels to a
small palette, scores how harmonious that palette is, and suggests
colours to add. The model covers five parts:

- **k-means reducer** (`src/k-means.js`, module `KMeans`, imperative).
  - Collects the fully opaque pixels of an RGBA byte buffer.
  - Picks k initial centroids from random draws.
  - Runs Lloyd's algorithm over arrays, in place: strict-`<` nearest-centroid assignment, per-cluster sums and counts, and the rounded-mean update. A cluster with no pixels keeps its centroid.
  - Formats each centroid as `"r,g,b"`.
  - Every method is proved against a specification function: `OpaquePixels`, `Nearest`, `Assign`, `ClusterSum`/`ClusterCount`, `Step`, `Iterate`, `DominantColors`. The lemmas are about those functions.
- **Beauty scorer** (`src/utils/beautyCalculator.js`, module `BeautyCalculator`).
  - `rgbToHVC` and the hue and value/chroma classification chains, with their constants.
  - The imperative pair loop of `calculateBeautyDetails`, proved against `BeautyDetails`/`Score`.
  - `beautyToPoint`.
- **Suggestion ranking** (`src/ColorSuggest.jsx`, module `ColorSuggest`, pure).
  - The fallback colours and the `currentBeauty` memo.
  - The candidate list: Munsell colours, or the fallback colours.
  - Each candidate is rescored on the extended palette.
  - The candidates are stable-sorted by difference, largest first.
- **RGB distance** (`src/colorutil.js`, module `Color`).
- **Munsell lookup** (`src/MunsellCanvas.jsx`, module `MunsellCanvas`).
  - The tab-separated line parsers.
  - `findClosestMunsell` as a loop method, proved against `Closest`.
  - The `SampleColors` and `ExtractedColors` map/filter pipelines.

Shared pieces:

- `Wrappers` holds `Option`, which stands for JavaScript's `null`.
- `Text` holds `split`, `join`, decimal formatting and `parseInt` on digit strings.

Modelling choices:

- **Real arithmetic.** Colours, HVC values and scores are exact reals. The k-means pixels are integers, as in a `Uint8ClampedArray`.
- **Squared distances.** `colorDistance` (src/colorutil.js:1-7) returns a square root as a value; the model replaces it by its square, `Color.DistanceSq`. Every other `Math.sqrt` appears only inside a `<` comparison (`euclideanDist`, `calcDist(...) < 1`, `findClosestMunsell`), so the model compares squared distances there. `KMeans.SameDistance` shows the k-means distance and `colorDistance` measure the same quantity.
- **Random draws.** `Math.random()` is a caller-supplied sequence `draws` of values in [0, 1). The pixel index is `floor(x * pixels.length)`, as in the source.
- **Foreign parsers.** `parseFloat` and `new THREE.Color(hex).toArray().map(c => c * 255)` are function parameters (`parseNumber`, `hexToRgb`).

Behaviour of the code worth stating:

- **No deduplication.** The suggestion ranking keeps every candidate. It has no step that removes near-identical colours.
- **Exactly k colours.** The reducer returns exactly k strings when there are opaque pixels and k > 0, duplicates included (`KMeans.DominantColorsShape`).
- **Ambient randomness.** The reducer calls `Math.random` directly, which is modelled as the `draws` parameter.

## Model

| member | source | states |
|---|---|---|
| Color.DistanceNonNegative | src/colorutil.js:1-7 | the squared RGB distance is never negative |
| Color.DistanceSymmetric | src/colorutil.js:3-6 | the distance does not depend on argument order |
| Color.DistanceZeroIff | src/colorutil.js:3-6 | the distance is 0 exactly when all three components are equal |
| Text.Split | src/MunsellCanvas.jsx:47 | `split` yields at least one piece, and no piece contains the separator |
| Text.SplitLength | src/MunsellCanvas.jsx:47-48 | a line splits into one more field than it has tabs |
| Text.JoinSplit | src/MunsellCanvas.jsx:112 | joining the pieces of a split gives back the string |
| Text.SplitJoin | src/MunsellCanvas.jsx:112 | splitting a join of separator-free pieces gives back the pieces |
| Text.NatToString | src/k-means.js:61 | the decimal form of a number is a non-empty run of digits |
| Text.ParseNatToString | src/MunsellCanvas.jsx:112 | `parseInt` of a number's decimal form gives the number back |
| Text.ParseNumbers | src/MunsellCanvas.jsx:112 | `map(c => parseInt(c, 10))` yields one number per piece |
| BeautyCalculator.LabelsDistinct | src/utils/beautyCalculator.js:54-117 | the seven evaluation strings are pairwise distinct, so each names one category |
| BeautyCalculator.Max3 | src/utils/beautyCalculator.js:6 | `Math.max` returns one of its arguments and is at least each |
| BeautyCalculator.Min3 | src/utils/beautyCalculator.js:7 | `Math.min` returns one of its arguments and is at most each |
| BeautyCalculator.RemSixIsIdentity | src/utils/beautyCalculator.js:13 | JavaScript's `% 6` leaves a value in [-1, 1] unchanged |
| BeautyCalculator.RedSectorInUnit | src/utils/beautyCalculator.js:13 | in the `max === r` branch, (g-b)/delta is in [-1, 1], so `% 6` does nothing |
| BeautyCalculator.HvcRange | src/utils/beautyCalculator.js:2-25 | for components in [0,255]: H in [0,360), V in [0,10], C in [0,V] |
| BeautyCalculator.GreyHasNoHue | src/utils/beautyCalculator.js:11-23 | r = g = b gives H = 0 and C = 0 |
| BeautyCalculator.PrimaryHues | src/utils/beautyCalculator.js:2-25 | pure red, green and blue map to hues 0, 120 and 240, with V = C = 10 |
| BeautyCalculator.Abs | src/utils/beautyCalculator.js:49 | `Math.abs` is non-negative and equals x or -x |
| BeautyCalculator.HueDifferenceRange | src/utils/beautyCalculator.js:49-50 | the folded hue difference lies in [0, 180] and is symmetric |
| BeautyCalculator.HueChain | src/utils/beautyCalculator.js:55-70 | the hue grade is the first match among thresholds 1, 7, 12, 28, with scores 1.5 / 0 / 1.1 / 0.65, and 1.7 otherwise |
| BeautyCalculator.HueGradeBands | src/utils/beautyCalculator.js:55-74 | each hue category holds exactly on its band; C < 1 on either colour forces Grey with score 1.0 whatever the difference |
| BeautyCalculator.EllipseChain | src/utils/beautyCalculator.js:88-113 | the value/chroma grade is the first ellipse holding the pair, in the order (0.25,0.5), (0.5,3), (1.5,5), (2.5,7.5), with the source's scores, and contrast otherwise |
| BeautyCalculator.EllipseGrows | src/utils/beautyCalculator.js:85-86 | a point inside an ellipse stays inside one with larger semi-axes |
| BeautyCalculator.ValueChromaBands | src/utils/beautyCalculator.js:85-118 | exactly one of the five branches fires; Ceval is that branch's label; Veval and Vpoint are the branch's unless Vdifferent > 9, which gives Glare and -2.0; Cpoint is unaffected by the glare override |
| BeautyCalculator.GlareIsContrast | src/utils/beautyCalculator.js:103-118 | a glare pair lies outside every ellipse, so its chroma side is contrast with 0.4 |
| BeautyCalculator.ColorItems | src/utils/beautyCalculator.js:32-35 | one item per colour, holding its rgb and its HVC |
| BeautyCalculator.ComparePair | src/utils/beautyCalculator.js:46-142 | the record holds i, j and both colours, and `order = Hpoint + Vpoint + Cpoint` |
| BeautyCalculator.RowPairs | src/utils/beautyCalculator.js:45 | the inner loop visits j - i - 1 pairs |
| BeautyCalculator.PairsBefore | src/utils/beautyCalculator.js:44-45 | the outer loop has visited RowStart(n, i) pairs before row i |
| BeautyCalculator.RowStartClosedForm | src/utils/beautyCalculator.js:44-45 | the number of pairs before row a is a(2n-a-1)/2 |
| BeautyCalculator.RowPairAt | src/utils/beautyCalculator.js:45 | the t-th pair of row i is (i, i+1+t) |
| BeautyCalculator.PairsBeforeAt | src/utils/beautyCalculator.js:44-45 | every visited pair (a, b) has a < b < n |
| BeautyCalculator.PairsBeforeLex | src/utils/beautyCalculator.js:44-45 | pairs are visited in strict lexicographic order |
| BeautyCalculator.PairsBeforePosition | src/utils/beautyCalculator.js:44-45 | every pair a < b is visited, at position Position(n, a, b) |
| BeautyCalculator.RowDetails | src/utils/beautyCalculator.js:45-143 | the records of row i number j - i - 1 |
| BeautyCalculator.DetailsBefore | src/utils/beautyCalculator.js:44-144 | the records before row i number RowStart(n, i) |
| BeautyCalculator.RowDetailsAt | src/utils/beautyCalculator.js:45-142 | record t of row i grades items i and i+1+t |
| BeautyCalculator.DetailsBeforeAt | src/utils/beautyCalculator.js:44-142 | record t grades the t-th visited pair |
| BeautyCalculator.CountDifferent | src/utils/beautyCalculator.js:123-125 | each difference count is at most the number of records |
| BeautyCalculator.TotalsAppend | src/utils/beautyCalculator.js:120-127 | one loop body keeps the order sum and the three counts in step with the records pushed |
| BeautyCalculator.GradeRow | src/utils/beautyCalculator.js:45-143 | the inner loop appends row i's records and keeps the totals |
| BeautyCalculator.CalculateBeautyDetails | src/utils/beautyCalculator.js:29-151 | null exactly for a missing palette or one of fewer than 2 colours; otherwise the scored result of BeautyDetails |
| BeautyCalculator.ScoreShape | src/utils/beautyCalculator.js:44-142 | there are n(n-1)/2 records, in lexicographic (i, j) order with i < j; each grades its pair, and every pair appears |
| BeautyCalculator.DetailsGraded | src/utils/beautyCalculator.js:44-142 | record t holds the t-th visited pair (i < j < n) and is that pair's grade |
| BeautyCalculator.DetailsOrdered | src/utils/beautyCalculator.js:44-45 | the records come in strict lexicographic order of (i, j) |
| BeautyCalculator.DetailsComplete | src/utils/beautyCalculator.js:44-45 | the record of every pair a < b sits at Position(n, a, b) |
| BeautyCalculator.ComplexityBounds | src/utils/beautyCalculator.js:146-148 | complexity = n + the three counts, each at most the number of records, so n <= complexity |
| BeautyCalculator.PairDifferencesInRange | src/utils/beautyCalculator.js:49-77 | for colours in range, Hdifferent is in [0,180], and Vdifferent and Cdifferent are in [0,10] |
| BeautyCalculator.ComparePairSwap | src/utils/beautyCalculator.js:49-77 | swapping a pair's colours changes no difference, grade or score |
| BeautyCalculator.TwoColourSwap | src/utils/beautyCalculator.js:44-150 | [a, b] and [b, a] get the same beauty and complexity |
| BeautyCalculator.BeautyToPointBounds | src/utils/beautyCalculator.js:154-157 | beautyToPoint(0) = 0, and for x >= 0 the result lies in [0, 100) |
| BeautyCalculator.BeautyToPointMonotone | src/utils/beautyCalculator.js:154-157 | beautyToPoint is non-decreasing on non-negative scores |
| KMeans.OpaqueGroups | src/k-means.js:6-12 | the pixels kept from the first m groups are at most m, and each is a valid colour |
| KMeans.OpaqueGroupsPrefix | src/k-means.js:6-12 | groups already read are unaffected by later bytes |
| KMeans.OpaqueGroupsShift | src/k-means.js:6-12 | the groups of an appended buffer are read, in order, after the earlier ones |
| KMeans.OpaquePixelsAppend | src/k-means.js:6-12 | the stride-4 scan of a + b is the scan of a followed by the scan of b, when a ends on a pixel boundary |
| KMeans.OpaquePixelsOneGroup | src/k-means.js:6-12 | one group is kept exactly when it is complete and its alpha is at least 255 |
| KMeans.CollectPixels | src/k-means.js:2-12 | the stride-4 loop collects exactly OpaquePixels of the buffer |
| KMeans.SameDistance | src/k-means.js:65-71 | `euclideanDist` squared equals `colorDistance` squared on the same colours |
| KMeans.Nearest | src/k-means.js:27-35 | the chosen centroid is at minimal distance, and every earlier centroid is strictly farther (lowest index wins ties) |
| KMeans.Assign | src/k-means.js:26-37 | one assignment per pixel |
| KMeans.NearestCentroid | src/k-means.js:27-36 | the `minDist`/`cluster` loop computes Nearest |
| KMeans.AssignStep | src/k-means.js:26-37 | the assignment loop writes Assign(pixels, centroids) |
| KMeans.AssignNearest | src/k-means.js:26-37 | each pixel's assigned centroid exists and is at minimal distance, strictly closer than every lower index |
| KMeans.ClusterCount | src/k-means.js:43-49 | a count never exceeds the number of pixels seen |
| KMeans.TotalCountEmpty | src/k-means.js:41 | all counts start at 0 |
| KMeans.TotalCountStep | src/k-means.js:43-49 | one pixel adds one to the total of the k counts when its cluster is below k |
| KMeans.CountsSumToPixels | src/k-means.js:40-49 | when every assignment is below k, the counts add up to the number of pixels |
| KMeans.AssignedCountsSum | src/k-means.js:26-49 | after assignment, the k counts add up to the number of pixels |
| KMeans.Accumulate | src/k-means.js:40-49 | the loop leaves ClusterSum and ClusterCount for every cluster |
| KMeans.Members | src/k-means.js:43-49 | a cluster has no more members than pixels seen |
| KMeans.ClusterSumMembers | src/k-means.js:43-49 | `sums[j]` is the component-wise sum of the pixels assigned to j, and `counts[j]` is their number |
| KMeans.StepCentroid | src/k-means.js:51-56 | after an iteration, a centroid is the rounded mean of its members, or unchanged if it has none |
| KMeans.UpdateCentroids | src/k-means.js:51-57 | non-empty clusters move in place to the rounded mean; the others keep their value |
| KMeans.Recompute | src/k-means.js:51-57 | the update keeps k centroids |
| KMeans.Step | src/k-means.js:24-58 | an iteration keeps k centroids |
| KMeans.Iterate | src/k-means.js:24-58 | any number of iterations keeps k centroids |
| KMeans.Iteration | src/k-means.js:24-58 | one pass of the main loop turns the centroid array into Step of its old contents |
| KMeans.RunIterations | src/k-means.js:22-58 | the main loop leaves Iterate(pixels, initial, maxIterations) |
| KMeans.RoundedMeanIsRound | src/k-means.js:53-55 | (2s+c) div 2c equals `Math.round(s / c)` = floor(s/c + 1/2) |
| KMeans.RoundedMeanBounds | src/k-means.js:53-55 | the rounded mean of c values in [lo, hi] lies in [lo, hi] |
| KMeans.PixelSumBounds | src/k-means.js:45-47 | n pixels within [lo, hi] sum to within [n lo, n hi] |
| KMeans.UpdatedWithin | src/k-means.js:51-56 | an updated centroid stays within any bounds holding for its old value and all its members, such as [0, 255] |
| KMeans.PixelSumBoundsAt | src/k-means.js:45-47 | n pixels whose chosen channel lies within [lo, hi] sum, in that channel, to within [n lo, n hi] |
| KMeans.StepWithinMembers | src/k-means.js:51-56 | each channel of a centroid with at least one member moves to between that channel's smallest and largest value among its members, whatever its old value |
| KMeans.StepValid | src/k-means.js:24-58 | an iteration keeps every centroid within [0, 255] |
| KMeans.IterateValid | src/k-means.js:24-58 | every iteration count keeps the centroids within [0, 255] |
| KMeans.SingleCentroidStep | src/k-means.js:40-55 | with one centroid, an iteration moves it to the rounded mean of all pixels |
| KMeans.SingleCluster | src/k-means.js:1-61 | with k = 1 and maxIterations >= 1, the result is the rounded mean of all opaque pixels |
| KMeans.Pick | src/k-means.js:19 | `Math.floor(Math.random() * pixels.length)` is a valid pixel index |
| KMeans.InitialCentroids | src/k-means.js:17-20 | initialisation yields k centroids |
| KMeans.InitCentroids | src/k-means.js:17-20 | the initial array is fresh and holds InitialCentroids |
| KMeans.FormatAll | src/k-means.js:61 | one string per centroid |
| KMeans.FormatAllAt | src/k-means.js:61 | string i is centroid i formatted as "r,g,b" |
| KMeans.FormatCentroids | src/k-means.js:61 | the formatting loop computes FormatAll of the array |
| KMeans.FormatCentroidParses | src/k-means.js:61 | for a byte-valued centroid, `split(',')` then `parseInt` reads back its three components |
| KMeans.DominantColorsShape | src/k-means.js:14-61 | TypeError exactly when there are pixels, k = 0 and an iteration runs; [] without opaque pixels; otherwise k strings, each parsing to three byte values |
| KMeans.ExtractDominantColors | src/k-means.js:1-62 | the whole reducer over arrays returns DominantColors of the buffer |
| KMeans.ExtractDominantColorsDefault | src/k-means.js:1-62 | with the default arguments k = 5 and maxIterations = 10: [] without opaque pixels, otherwise exactly 5 strings |
| ColorSuggest.CurrentBeauty | src/ColorSuggest.jsx:14-17 | a score exists exactly for a palette of at least 2 colours |
| ColorSuggest.MunsellName | src/ColorSuggest.jsx:26 | the name is the hex unless it is missing or empty, then `munsell-${idx}`; never empty |
| ColorSuggest.Candidates | src/ColorSuggest.jsx:23-29 | the 5 fallback colours when Munsell colours are missing or empty; otherwise one candidate per Munsell colour, with its name and rgb |
| ColorSuggest.RescoreAll | src/ColorSuggest.jsx:31-36 | one rescored entry per candidate |
| ColorSuggest.Insert | src/ColorSuggest.jsx:37 | insertion adds exactly one entry |
| ColorSuggest.SortByDifference | src/ColorSuggest.jsx:37 | sorting keeps the length |
| ColorSuggest.InsertSorted | src/ColorSuggest.jsx:37 | insertion keeps a list non-increasing by difference |
| ColorSuggest.InsertBelow | src/ColorSuggest.jsx:37 | insertion adds nothing above a bound shared by x and the list |
| ColorSuggest.InsertMultiset | src/ColorSuggest.jsx:37 | insertion adds exactly x to the multiset |
| ColorSuggest.InsertWithDifference | src/ColorSuggest.jsx:37 | x goes ahead of every entry with equal difference |
| ColorSuggest.SortSorted | src/ColorSuggest.jsx:37 | the sorted output is non-increasing by difference |
| ColorSuggest.SortPermutation | src/ColorSuggest.jsx:37 | the sorted output is a permutation of the input |
| ColorSuggest.SortStable | src/ColorSuggest.jsx:37 | entries with equal difference keep their input order |
| ColorSuggest.SuggestionsEmpty | src/ColorSuggest.jsx:19-20 | suggestions are empty exactly when the palette is missing or currentBeauty is null or 0; otherwise there is one per candidate |
| ColorSuggest.ExtendedPaletteScores | src/ColorSuggest.jsx:32-34 | the extended palette always scores, so the fallback to 0 never applies |
| ColorSuggest.SuggestionsRanked | src/ColorSuggest.jsx:19-37 | the output is sorted by difference, a permutation of the rescored candidates and stable; each keeps its name and rgb, and difference = newBeauty - currentBeauty |
| MunsellCanvas.Present | src/MunsellCanvas.jsx:53 | `.filter(Boolean)` never lengthens the list |
| MunsellCanvas.PresentAppend | src/MunsellCanvas.jsx:53 | filtering distributes over concatenation, so order is kept |
| MunsellCanvas.PresentSingle | src/MunsellCanvas.jsx:53 | one element is kept exactly when it is a record |
| MunsellCanvas.WithHvc | src/MunsellCanvas.jsx:115 | `.filter(item => item.hvc)` never lengthens the list |
| MunsellCanvas.WithHvcAppend | src/MunsellCanvas.jsx:137 | that filter distributes over concatenation, so order is kept |
| MunsellCanvas.WithHvcKept | src/MunsellCanvas.jsx:137 | every kept item has an hvc |
| MunsellCanvas.WithHvcAll | src/MunsellCanvas.jsx:137 | nothing is dropped when every item has an hvc |
| MunsellCanvas.WithHvcNone | src/MunsellCanvas.jsx:115 | everything is dropped when no item has one |
| MunsellCanvas.ParsePoints | src/MunsellCanvas.jsx:46-52 | one parse result per line |
| MunsellCanvas.ParseEntries | src/MunsellCanvas.jsx:71-80 | one parse result per line |
| MunsellCanvas.ParseEntryFields | src/MunsellCanvas.jsx:72-80 | a line parses exactly when it has at least 4 tab-separated fields; hex is the first field; both parsers agree |
| MunsellCanvas.MunsellEntriesAppend | src/MunsellCanvas.jsx:71-81 | the records of a split table are those of each half, in order |
| MunsellCanvas.MunsellEntriesSingle | src/MunsellCanvas.jsx:71-81 | a line contributes its record if it has 4 fields, and nothing otherwise |
| MunsellCanvas.MunsellPointsAgree | src/MunsellCanvas.jsx:46-53 | the spheres are the lookup records of the same lines without their rgb |
| MunsellCanvas.ClosestIndex | src/MunsellCanvas.jsx:83-95 | None before any entry; then the entry kept is at minimal distance, and every earlier entry is strictly farther |
| MunsellCanvas.FindClosestMunsell | src/MunsellCanvas.jsx:67-97 | the `forEach` loop returns Closest of the parsed entries |
| MunsellCanvas.ClosestSpec | src/MunsellCanvas.jsx:68-96 | null exactly when no line parses; otherwise a parsed entry no entry is strictly closer than, with the earliest winning ties |
| MunsellCanvas.SampleStringFormat | src/MunsellCanvas.jsx:100-107 | each sample string is the "r,g,b" text of red, green, blue, yellow, cyan and magenta |
| MunsellCanvas.SampleRgb | src/MunsellCanvas.jsx:112-113 | a sample yields a colour exactly when it has at least three pieces and the first three are numbers; pieces after the third are not read |
| MunsellCanvas.SampleColorsParse | src/MunsellCanvas.jsx:100-112 | `split(',')` and `parseInt` read every sample back as its colour, so no sample takes the NaN path |
| MunsellCanvas.SampleColorsPlaced | src/MunsellCanvas.jsx:109-116 | every output has an hvc; all six samples, in order, labelled `rgb(colorStr)` and carrying the hvc of the closest parsed Munsell colour, when a line parses; none when none does |
| MunsellCanvas.PlacedSample | src/MunsellCanvas.jsx:109-114 | one sample is labelled `rgb(colorStr)` and has an hvc exactly when a line parses, namely that of the closest parsed Munsell colour |
| MunsellCanvas.ExtractedColorsPlaced | src/MunsellCanvas.jsx:128-140 | no more outputs than inputs, each with an hvc; all inputs, in order, each carrying the hvc of the Munsell colour closest to it, when a line parses; none when none does |

## Left out

- **Floating point.** IEEE-754 rounding is not modelled: all arithmetic is exact, so behaviour exactly at a classification threshold may differ from doubles. NaN and Infinity are not modelled either; for example, `beautyToPoint(-0.5)` is None rather than a non-finite number.
- **Square roots.** `Math.sqrt` is replaced by comparing squared quantities. This is exact for the `<` comparisons the source makes, but the value `colorDistance` returns is only modelled by its square.
- **Random draws.** `Math.random` is the `draws` parameter, whose values lie in [0, 1). The reducer requires at least k draws.
- **Negative k.** A negative `k` is not modelled, because `k` is a `nat`. With opaque pixels and at least one iteration, the source then throws a RangeError at `Array(k)` (src/k-means.js:40); with no iterations it returns `[]`.
- **k = 0.** The TypeError raised when k is 0 but there are pixels and an iteration runs is modelled as None. It is not an exception.
- **Foreign parsers.** `THREE.Color(hex)` and `parseFloat` are parameters, and their behaviour is not modelled.
- **`parseInt`.** `Text.ParseNumbers` accepts only pieces made entirely of decimal digits. A sign or trailing text counts as not a number; the model then treats a sample as unreadable and its lookup as `null`, whereas `parseInt("12abc")` is 12. Only the first three pieces of a sample are read.
- **Colour labels.** Extracted colours are integer triples, and their `rgb(...)` label uses integer formatting. Non-integer components are not modelled.
- **Missing rgb guard.** `if (!munsellColor.rgb) return;` (src/MunsellCanvas.jsx:84) is omitted: `rgb` is always an array there, so the guard never fires.
- **Plumbing.** React state, `useEffect`/`useMemo` caching, `fetch`, `console.log`, JSX rendering and the three.js scene are not modelled. Neither is the trigonometric sphere placement (src/MunsellCanvas.jsx:7-11, 23-27).
- **Memo inputs.** Each memo is a function of its inputs: `Suggestions`, `SampleColors` and `ExtractedColors`.
- **Sort algorithm.** The engine's `Array.prototype.sort` is modelled by a stable insertion sort. The ECMAScript sort is also stable, so it yields the same order, but the engine's algorithm itself is not modelled.
- **Table-driven chains.** The hue and ellipse if-chains are walked over constant tables. `BeautyCalculator.HueChain` and `BeautyCalculator.EllipseChain` prove each walk equals the source's chain.
- **Inner loop.** The inner loop of `calculateBeautyDetails` is the separate method `BeautyCalculator.GradeRow`.
- **Pixels sequence.** `KMeans.ExtractDominantColors` keeps the pixel list as an immutable sequence. The centroids, assignments, sums and counts are arrays updated in place, as in the source.
