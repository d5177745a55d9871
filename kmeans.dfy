/**
 * The k-means colour reducer of src/k-means.js: Lloyd's algorithm over the
 * opaque pixels of an RGBA byte buffer.
 *
 * `Math.random()` is a caller-supplied sequence of draws in [0, 1), one per
 * initial centroid. `euclideanDist` is only ever compared with `<`, and
 * `Math.sqrt` is strictly monotone, so centroids are compared by squared
 * distance.
 */
module KMeans {
  import opened Wrappers
  import opened Text
  import Color

  /** One element of a `Uint8ClampedArray`. */
  type Byte = x: int | 0 <= x < 256

  /** A pixel or centroid `[r, g, b]`; also used for the per-cluster sums. */
  datatype Pixel = Pixel(r: int, g: int, b: int)

  predicate ValidPixel(p: Pixel) {
    0 <= p.r < 256 && 0 <= p.g < 256 && 0 <= p.b < 256
  }

  // ---------------------------------------------------------------------
  // Step 1: opaque pixels
  // ---------------------------------------------------------------------

  /** The group starting at `i` is complete and fully opaque (`undefined >= 255` is false). */
  predicate Keep(data: seq<Byte>, i: nat) {
    i + 3 < |data| && data[i + 3] >= 255
  }

  function GroupPixel(data: seq<Byte>, i: nat): Pixel
    requires i + 3 < |data|
  {
    Pixel(data[i], data[i + 1], data[i + 2])
  }

  /** The pixels the loop pushes from its first `m` groups (offsets 0, 4, ..., 4(m-1)), in order. */
  function OpaqueGroups(data: seq<Byte>, m: nat): (ps: seq<Pixel>)
    ensures |ps| <= m
    ensures forall t :: 0 <= t < |ps| ==> ValidPixel(ps[t])
  {
    if m == 0 then []
    else
      var i := 4 * (m - 1);
      OpaqueGroups(data, m - 1) + (if Keep(data, i) then [GroupPixel(data, i)] else [])
  }

  /** The stride-4 loop runs once per started group of four bytes. */
  function GroupCount(data: seq<Byte>): nat {
    (|data| + 3) / 4
  }

  /** Every pixel the stride-4 loop pushes. */
  function OpaquePixels(data: seq<Byte>): seq<Pixel> {
    OpaqueGroups(data, GroupCount(data))
  }

  // ---------------------------------------------------------------------
  // Distances and the assignment step
  // ---------------------------------------------------------------------

  /** `euclideanDist(a, b)` squared. */
  function DistSq(a: Pixel, b: Pixel): int {
    (a.r - b.r) * (a.r - b.r) + (a.g - b.g) * (a.g - b.g) + (a.b - b.b) * (a.b - b.b)
  }

  function AsRgb(p: Pixel): Color.Rgb {
    Color.Rgb(p.r as real, p.g as real, p.b as real)
  }

  /** `euclideanDist` and `colorDistance` measure the same squared distance. */
  lemma SameDistance(a: Pixel, b: Pixel)
    ensures Color.DistanceSq(AsRgb(a), AsRgb(b)) == DistSq(a, b) as real
  {
  }

  /**
   * The cluster the inner loop settles on after the first `m` centroids:
   * the first one strictly closer than every earlier one, 0 when there are
   * none. It is at minimal distance, and strictly closer than every
   * earlier centroid.
   */
  function Nearest(p: Pixel, cs: seq<Pixel>, m: nat): (b: nat)
    requires m <= |cs|
    ensures m == 0 ==> b == 0
    ensures m > 0 ==> b < m
    ensures m > 0 ==> forall j :: 0 <= j < m ==> DistSq(p, cs[b]) <= DistSq(p, cs[j])
    ensures m > 0 ==> forall j :: 0 <= j < b ==> DistSq(p, cs[b]) < DistSq(p, cs[j])
  {
    if m <= 1 then 0
    else
      var b := Nearest(p, cs, m - 1);
      if DistSq(p, cs[m - 1]) < DistSq(p, cs[b]) then m - 1 else b
  }

  /** `assignments` after step 3 of one iteration. */
  function Assign(pixels: seq<Pixel>, cs: seq<Pixel>): (asg: seq<nat>)
    ensures |asg| == |pixels|
  {
    seq(|pixels|, i requires 0 <= i < |pixels| => Nearest(pixels[i], cs, |cs|))
  }

  // ---------------------------------------------------------------------
  // Accumulation and the update step
  // ---------------------------------------------------------------------

  /** `counts[j]` after the accumulation loop has seen the first `m` pixels. */
  function ClusterCount(asg: seq<nat>, j: nat, m: nat): (count: nat)
    requires m <= |asg|
    ensures count <= m
  {
    if m == 0 then 0 else ClusterCount(asg, j, m - 1) + (if asg[m - 1] == j then 1 else 0)
  }

  function Plus(a: Pixel, b: Pixel): Pixel {
    Pixel(a.r + b.r, a.g + b.g, a.b + b.b)
  }

  /** `sums[j]` after the accumulation loop has seen the first `m` pixels. */
  function ClusterSum(pixels: seq<Pixel>, asg: seq<nat>, j: nat, m: nat): Pixel
    requires m <= |pixels| == |asg|
  {
    if m == 0 then Pixel(0, 0, 0)
    else
      var s := ClusterSum(pixels, asg, j, m - 1);
      if asg[m - 1] == j then Plus(s, pixels[m - 1]) else s
  }

  /** `Math.round(s / c)`, i.e. `floor(s / c + 1/2)`, for a positive count. */
  function RoundedMean(s: int, c: nat): int
    requires c > 0
  {
    (2 * s + c) / (2 * c)
  }

  /** The update of one centroid: the rounded mean of its cluster, or unchanged when empty. */
  function Updated(c: Pixel, sum: Pixel, count: nat): Pixel {
    if count > 0 then Pixel(RoundedMean(sum.r, count), RoundedMean(sum.g, count), RoundedMean(sum.b, count))
    else c
  }

  /** The centroids after step 4, from the assignments of step 3. */
  function Recompute(cs: seq<Pixel>, pixels: seq<Pixel>, asg: seq<nat>): (cs': seq<Pixel>)
    requires |asg| == |pixels|
    ensures |cs'| == |cs|
  {
    seq(|cs|, j requires 0 <= j < |cs| =>
      Updated(cs[j], ClusterSum(pixels, asg, j, |pixels|), ClusterCount(asg, j, |pixels|)))
  }

  /** One Lloyd iteration. */
  function Step(pixels: seq<Pixel>, cs: seq<Pixel>): (cs': seq<Pixel>)
    ensures |cs'| == |cs|
  {
    Recompute(cs, pixels, Assign(pixels, cs))
  }

  /** The centroids after `t` iterations. */
  function Iterate(pixels: seq<Pixel>, cs: seq<Pixel>, t: nat): (cs': seq<Pixel>)
    ensures |cs'| == |cs|
  {
    if t == 0 then cs else Step(pixels, Iterate(pixels, cs, t - 1))
  }

  // ---------------------------------------------------------------------
  // Initialisation, formatting and the whole reducer
  // ---------------------------------------------------------------------

  predicate ValidDraws(draws: seq<real>) {
    forall t :: 0 <= t < |draws| ==> 0.0 <= draws[t] < 1.0
  }

  /** `Math.floor(Math.random() * pixels.length)` for the draw `x`. */
  function Pick(x: real, n: nat): (idx: nat)
    requires 0.0 <= x < 1.0 && n > 0
    ensures idx < n
  {
    var f := (x * n as real).Floor;
    assert f as real <= x * n as real < n as real;
    f
  }

  /** The k initial centroids, copies of pixels picked by the draws. */
  function InitialCentroids(pixels: seq<Pixel>, draws: seq<real>, k: nat): (cs: seq<Pixel>)
    requires |pixels| > 0 && k <= |draws| && ValidDraws(draws)
    ensures |cs| == k
  {
    seq(k, i requires 0 <= i < k => pixels[Pick(draws[i], |pixels|)])
  }

  /** The template string `${c[0]},${c[1]},${c[2]}`. */
  function FormatCentroid(c: Pixel): string {
    IntToString(c.r) + "," + IntToString(c.g) + "," + IntToString(c.b)
  }

  /** `centroids.map(...)`. */
  function FormatAll(cs: seq<Pixel>): (out: seq<string>)
    ensures |out| == |cs|
  {
    if cs == [] then [] else FormatAll(cs[..|cs| - 1]) + [FormatCentroid(cs[|cs| - 1])]
  }

  /**
   * The value `extractDominantColorsKMeans` returns. None stands for the
   * TypeError thrown at line 45 when k is 0 but there are pixels and at
   * least one iteration (`sums[0]` is undefined).
   */
  function DominantColors(data: seq<Byte>, k: nat, maxIterations: nat, draws: seq<real>): Option<seq<string>>
    requires k <= |draws| && ValidDraws(draws)
  {
    var pixels := OpaquePixels(data);
    if |pixels| == 0 then Some([])
    else if k == 0 then (if maxIterations == 0 then Some([]) else None)
    else
      var cs := Iterate(pixels, InitialCentroids(pixels, draws, k), maxIterations);
      Some(FormatAll(cs))
  }

  // ---------------------------------------------------------------------
  // The imperative reducer
  // ---------------------------------------------------------------------

  /** Step 1: the stride-4 loop over the RGBA buffer. */
  method CollectPixels(data: array<Byte>) returns (pixels: seq<Pixel>)
    ensures pixels == OpaquePixels(data[..])
  {
    pixels := [];
    var i := 0;
    while i < data.Length
      invariant i % 4 == 0 && i / 4 <= GroupCount(data[..])
      invariant i < data.Length ==> i / 4 < GroupCount(data[..])
      invariant i >= data.Length ==> i / 4 == GroupCount(data[..])
      invariant pixels == OpaqueGroups(data[..], i / 4)
    {
      if i + 3 < data.Length && data[i + 3] >= 255 {
        pixels := pixels + [Pixel(data[i], data[i + 1], data[i + 2])];
      }
      i := i + 4;
    }
  }

  /** The inner loop of step 3 for one pixel. */
  method NearestCentroid(p: Pixel, centroids: array<Pixel>) returns (cluster: nat)
    ensures cluster == Nearest(p, centroids[..], centroids.Length)
  {
    var minDist: Option<int> := None;
    cluster := 0;
    var j := 0;
    while j < centroids.Length
      invariant 0 <= j <= centroids.Length
      invariant cluster == Nearest(p, centroids[..], j)
      invariant j == 0 <==> minDist.None?
      invariant j > 0 ==> minDist == Some(DistSq(p, centroids[cluster]))
    {
      var dist := DistSq(p, centroids[j]);
      if minDist.None? || dist < minDist.value {
        minDist := Some(dist);
        cluster := j;
      }
      j := j + 1;
    }
  }

  /** Step 3: every pixel is assigned its nearest centroid. */
  method AssignStep(pixels: seq<Pixel>, centroids: array<Pixel>, assignments: array<nat>)
    requires assignments.Length == |pixels|
    modifies assignments
    ensures assignments[..] == Assign(pixels, centroids[..])
  {
    var i := 0;
    while i < |pixels|
      invariant 0 <= i <= |pixels|
      invariant forall t :: 0 <= t < i ==> assignments[t] == Nearest(pixels[t], centroids[..], centroids.Length)
    {
      assignments[i] := NearestCentroid(pixels[i], centroids);
      i := i + 1;
    }
  }

  /** Step 4, first half: per-cluster component sums and counts. */
  method Accumulate(pixels: seq<Pixel>, assignments: array<nat>, k: nat) returns (sums: array<Pixel>, counts: array<nat>)
    requires assignments.Length == |pixels|
    requires forall i :: 0 <= i < |pixels| ==> assignments[i] < k
    ensures fresh(sums) && sums.Length == k && counts.Length == k
    ensures forall j :: 0 <= j < k ==> sums[j] == ClusterSum(pixels, assignments[..], j, |pixels|)
    ensures forall j :: 0 <= j < k ==> counts[j] == ClusterCount(assignments[..], j, |pixels|)
  {
    sums := new Pixel[k](_ => Pixel(0, 0, 0));
    counts := new nat[k](_ => 0);
    var i := 0;
    while i < |pixels|
      invariant 0 <= i <= |pixels|
      invariant forall j :: 0 <= j < k ==> sums[j] == ClusterSum(pixels, assignments[..], j, i)
      invariant forall j :: 0 <= j < k ==> counts[j] == ClusterCount(assignments[..], j, i)
    {
      var cluster := assignments[i];
      sums[cluster] := Plus(sums[cluster], pixels[i]);
      counts[cluster] := counts[cluster] + 1;
      i := i + 1;
    }
  }

  /** Step 4, second half: non-empty clusters move to their rounded mean, in place. */
  method UpdateCentroids(centroids: array<Pixel>, sums: array<Pixel>, counts: array<nat>)
    requires sums.Length == centroids.Length && counts.Length == centroids.Length
    requires sums != centroids
    modifies centroids
    ensures forall j :: 0 <= j < centroids.Length ==>
              centroids[j] == Updated(old(centroids[j]), sums[j], counts[j])
  {
    var j := 0;
    while j < centroids.Length
      invariant 0 <= j <= centroids.Length
      invariant forall t :: 0 <= t < j ==> centroids[t] == Updated(old(centroids[t]), sums[t], counts[t])
      invariant forall t :: j <= t < centroids.Length ==> centroids[t] == old(centroids[t])
    {
      if counts[j] > 0 {
        centroids[j] := Pixel(RoundedMean(sums[j].r, counts[j]), RoundedMean(sums[j].g, counts[j]),
                              RoundedMean(sums[j].b, counts[j]));
      }
      j := j + 1;
    }
  }

  /** One iteration of the main loop over the centroid array. */
  method Iteration(pixels: seq<Pixel>, centroids: array<Pixel>, assignments: array<nat>)
    requires centroids.Length > 0 && assignments.Length == |pixels|
    modifies centroids, assignments
    ensures centroids[..] == Step(pixels, old(centroids[..]))
  {
    ghost var cs := centroids[..];
    AssignStep(pixels, centroids, assignments);
    assert forall i :: 0 <= i < |pixels| ==> assignments[i] < centroids.Length by {
      forall i | 0 <= i < |pixels|
        ensures assignments[i] < centroids.Length
      {
        assert assignments[i] == assignments[..][i];
      }
    }
    var sums, counts := Accumulate(pixels, assignments, centroids.Length);
    UpdateCentroids(centroids, sums, counts);
    assert centroids[..] == Recompute(cs, pixels, Assign(pixels, cs));
  }

  /** Step 2: k copies of pixels picked by the draws. */
  method InitCentroids(pixels: seq<Pixel>, k: nat, draws: seq<real>) returns (centroids: array<Pixel>)
    requires |pixels| > 0 && k <= |draws| && ValidDraws(draws)
    ensures fresh(centroids)
    ensures centroids[..] == InitialCentroids(pixels, draws, k)
  {
    centroids := new Pixel[k](i requires 0 <= i < k => pixels[Pick(draws[i], |pixels|)]);
  }

  /** The main loop: `maxIterations` rounds of assignment and update. */
  method RunIterations(pixels: seq<Pixel>, centroids: array<Pixel>, maxIterations: nat)
    requires centroids.Length > 0
    modifies centroids
    ensures centroids[..] == Iterate(pixels, old(centroids[..]), maxIterations)
  {
    ghost var init := centroids[..];
    var assignments := new nat[|pixels|](_ => 0);
    var iter := 0;
    while iter < maxIterations
      invariant 0 <= iter <= maxIterations
      invariant centroids[..] == Iterate(pixels, init, iter)
    {
      Iteration(pixels, centroids, assignments);
      iter := iter + 1;
    }
  }

  /** Step 5: `centroids.map(c => `${c[0]},${c[1]},${c[2]}`)`. */
  method FormatCentroids(centroids: array<Pixel>) returns (out: seq<string>)
    ensures out == FormatAll(centroids[..])
  {
    out := [];
    var j := 0;
    while j < centroids.Length
      invariant 0 <= j <= centroids.Length
      invariant out == FormatAll(centroids[..j])
    {
      assert centroids[..j + 1][..j] == centroids[..j];
      out := out + [FormatCentroid(centroids[j])];
      j := j + 1;
    }
    assert centroids[..centroids.Length] == centroids[..];
  }

  /** `extractDominantColorsKMeans(imageData, k, maxIterations)` with the draws of `Math.random`. */
  method ExtractDominantColors(data: array<Byte>, k: nat, maxIterations: nat, draws: seq<real>)
    returns (result: Option<seq<string>>)
    requires k <= |draws| && ValidDraws(draws)
    ensures result == DominantColors(data[..], k, maxIterations, draws)
  {
    var pixels := CollectPixels(data);
    if |pixels| == 0 {
      return Some([]);
    }
    if k == 0 {
      if maxIterations == 0 {
        return Some([]);
      }
      return None;
    }
    var centroids := InitCentroids(pixels, k, draws);
    RunIterations(pixels, centroids, maxIterations);
    var out := FormatCentroids(centroids);
    result := Some(out);
  }

  /** `extractDominantColorsKMeans(imageData)` with its default arguments k = 5, maxIterations = 10. */
  method ExtractDominantColorsDefault(data: array<Byte>, draws: seq<real>) returns (result: Option<seq<string>>)
    requires 5 <= |draws| && ValidDraws(draws)
    ensures result == DominantColors(data[..], 5, 10, draws)
    ensures |OpaquePixels(data[..])| == 0 ==> result == Some([])
    ensures |OpaquePixels(data[..])| > 0 ==> result.Some? && |result.value| == 5
  {
    result := ExtractDominantColors(data, 5, 10, draws);
    DominantColorsShape(data[..], 5, 10, draws);
  }

  // ---------------------------------------------------------------------
  // Step 1: which pixels are collected
  // ---------------------------------------------------------------------

  /** Groups read from `a` are unaffected by bytes appended after it. */
  lemma {:induction false} OpaqueGroupsPrefix(a: seq<Byte>, b: seq<Byte>, m: nat)
    requires 4 * m <= |a|
    ensures OpaqueGroups(a + b, m) == OpaqueGroups(a, m)
  {
    if m > 0 {
      OpaqueGroupsPrefix(a, b, m - 1);
      var i := 4 * (m - 1);
      assert (a + b)[i + 3] == a[i + 3];
      if Keep(a, i) {
        assert GroupPixel(a + b, i) == GroupPixel(a, i);
      }
    }
  }

  /** The groups of `b` are read, in order, after the whole groups of `a`. */
  lemma {:induction false} OpaqueGroupsShift(a: seq<Byte>, b: seq<Byte>, m: nat)
    requires |a| % 4 == 0
    ensures OpaqueGroups(a + b, |a| / 4 + m) == OpaqueGroups(a, |a| / 4) + OpaqueGroups(b, m)
  {
    if m == 0 {
      OpaqueGroupsPrefix(a, b, |a| / 4);
    } else {
      OpaqueGroupsShift(a, b, m - 1);
      var i := 4 * (m - 1);
      assert 4 * (|a| / 4 + m - 1) == |a| + i;
      if i + 3 < |b| {
        assert (a + b)[|a| + i + 3] == b[i + 3];
        assert GroupPixel(a + b, |a| + i) == GroupPixel(b, i);
      }
    }
  }

  /** The stride-4 scan distributes over a buffer split at a pixel boundary. */
  lemma OpaquePixelsAppend(a: seq<Byte>, b: seq<Byte>)
    requires |a| % 4 == 0
    ensures OpaquePixels(a + b) == OpaquePixels(a) + OpaquePixels(b)
  {
    assert GroupCount(a + b) == |a| / 4 + GroupCount(b);
    OpaqueGroupsShift(a, b, GroupCount(b));
  }

  /**
   * A buffer of at most one pixel: kept exactly when it has four bytes and
   * its alpha is 255; a trailing partial group reads an undefined alpha and
   * is never kept.
   */
  lemma OpaquePixelsOneGroup(data: seq<Byte>)
    requires |data| <= 4
    ensures OpaquePixels(data) ==
              if |data| == 4 && data[3] >= 255 then [Pixel(data[0], data[1], data[2])] else []
  {
    if |data| > 0 {
      assert GroupCount(data) == 1;
    }
  }

  // ---------------------------------------------------------------------
  // Step 3: assignment
  // ---------------------------------------------------------------------

  /**
   * Every pixel is assigned a centroid index, that centroid is at minimal
   * distance, and every centroid before it is strictly farther (the
   * strict `<` keeps the lowest index among ties).
   */
  lemma AssignNearest(pixels: seq<Pixel>, cs: seq<Pixel>, i: nat, j: nat)
    requires i < |pixels| && j < |cs|
    ensures Assign(pixels, cs)[i] < |cs|
    ensures DistSq(pixels[i], cs[Assign(pixels, cs)[i]]) <= DistSq(pixels[i], cs[j])
    ensures j < Assign(pixels, cs)[i] ==> DistSq(pixels[i], cs[Assign(pixels, cs)[i]]) < DistSq(pixels[i], cs[j])
  {
  }

  // ---------------------------------------------------------------------
  // Step 4: accumulation
  // ---------------------------------------------------------------------

  /** `counts[0] + ... + counts[k - 1]` after the first `m` pixels. */
  function TotalCount(asg: seq<nat>, k: nat, m: nat): nat
    requires m <= |asg|
  {
    if k == 0 then 0 else TotalCount(asg, k - 1, m) + ClusterCount(asg, k - 1, m)
  }

  /** One more pixel adds one to the total exactly when its cluster is below k. */
  lemma {:induction false} TotalCountStep(asg: seq<nat>, k: nat, m: nat)
    requires 0 < m <= |asg|
    ensures TotalCount(asg, k, m) == TotalCount(asg, k, m - 1) + (if asg[m - 1] < k then 1 else 0)
  {
    if k > 0 {
      TotalCountStep(asg, k - 1, m);
    }
  }

  /** Before any pixel every count is zero. */
  lemma {:induction false} TotalCountEmpty(asg: seq<nat>, k: nat)
    ensures TotalCount(asg, k, 0) == 0
  {
    if k > 0 {
      TotalCountEmpty(asg, k - 1);
    }
  }

  /** When every assignment names one of the k clusters, the counts add up to the pixels seen. */
  lemma {:induction false} CountsSumToPixels(asg: seq<nat>, k: nat, m: nat)
    requires m <= |asg|
    requires forall t :: 0 <= t < m ==> asg[t] < k
    ensures TotalCount(asg, k, m) == m
  {
    if m > 0 {
      CountsSumToPixels(asg, k, m - 1);
      TotalCountStep(asg, k, m);
      assert asg[m - 1] < k;
    } else {
      TotalCountEmpty(asg, k);
    }
  }

  /** After the assignment step the k counts add up to the number of pixels. */
  lemma AssignedCountsSum(pixels: seq<Pixel>, cs: seq<Pixel>)
    requires |cs| > 0
    ensures TotalCount(Assign(pixels, cs), |cs|, |pixels|) == |pixels|
  {
    var asg := Assign(pixels, cs);
    forall t | 0 <= t < |pixels|
      ensures asg[t] < |cs|
    {
      assert asg[t] == Nearest(pixels[t], cs, |cs|);
    }
    CountsSumToPixels(asg, |cs|, |pixels|);
  }

  /** Component-wise sum of a sequence of pixels. */
  function PixelSum(ps: seq<Pixel>): Pixel {
    if ps == [] then Pixel(0, 0, 0) else Plus(PixelSum(ps[..|ps| - 1]), ps[|ps| - 1])
  }

  /** The pixels among the first `m` that are assigned to cluster j, in order. */
  function Members(pixels: seq<Pixel>, asg: seq<nat>, j: nat, m: nat): (ms: seq<Pixel>)
    requires m <= |pixels| == |asg|
    ensures |ms| <= m
  {
    if m == 0 then []
    else Members(pixels, asg, j, m - 1) + (if asg[m - 1] == j then [pixels[m - 1]] else [])
  }

  /** `sums[j]` is the sum of cluster j's members and `counts[j]` their number. */
  lemma {:induction false} ClusterSumMembers(pixels: seq<Pixel>, asg: seq<nat>, j: nat, m: nat)
    requires m <= |pixels| == |asg|
    ensures ClusterSum(pixels, asg, j, m) == PixelSum(Members(pixels, asg, j, m))
    ensures ClusterCount(asg, j, m) == |Members(pixels, asg, j, m)|
  {
    if m > 0 {
      ClusterSumMembers(pixels, asg, j, m - 1);
      var prev := Members(pixels, asg, j, m - 1);
      var ms := Members(pixels, asg, j, m);
      if asg[m - 1] == j {
        assert ms == prev + [pixels[m - 1]];
        assert ms[..|ms| - 1] == prev;
        assert PixelSum(ms) == Plus(PixelSum(prev), pixels[m - 1]);
      } else {
        assert ms == prev;
      }
    }
  }

  /**
   * After one iteration each centroid is the rounded mean of the pixels
   * assigned to it, and a centroid nobody was assigned to keeps its value.
   */
  lemma StepCentroid(pixels: seq<Pixel>, cs: seq<Pixel>, j: nat)
    requires j < |cs|
    ensures var ms := Members(pixels, Assign(pixels, cs), j, |pixels|);
            Step(pixels, cs)[j] == if ms == [] then cs[j] else Mean(ms)
  {
    ClusterSumMembers(pixels, Assign(pixels, cs), j, |pixels|);
  }

  // ---------------------------------------------------------------------
  // Step 4: rounding and the bounds it keeps
  // ---------------------------------------------------------------------

  /** `(2s + c) div 2c` is `Math.round(s / c)`, i.e. `floor(s / c + 1/2)`. */
  lemma RoundedMeanIsRound(s: int, c: nat)
    requires c > 0
    ensures RoundedMean(s, c) == ((s as real) / (c as real) + 0.5).Floor
  {
    var q := RoundedMean(s, c);
    var d := (2 * c) as real;
    var x := (s as real) / (c as real) + 0.5;
    assert 2 * c * q <= 2 * s + c < 2 * c * (q + 1);
    assert (q as real) * d <= (2 * s + c) as real < (q as real + 1.0) * d;
    RealDivMul(s as real, c as real);
    assert x * d == (2 * s + c) as real;
    RealScaleLe(q as real, x, d);
    RealScaleLt(x, q as real + 1.0, d);
  }

  lemma RealDivMul(s: real, c: real)
    requires c > 0.0
    ensures (s / c) * c == s
  {
  }

  lemma RealScaleLe(a: real, b: real, d: real)
    requires d > 0.0 && a * d <= b * d
    ensures a <= b
  {
  }

  lemma RealScaleLt(a: real, b: real, d: real)
    requires d > 0.0 && a * d < b * d
    ensures a < b
  {
  }

  lemma MulSucc(n: int, x: int)
    ensures (n + 1) * x == n * x + x
  {
  }

  lemma MulLe(a: int, b: int, c: nat)
    requires a <= b
    ensures c * a <= c * b
  {
  }

  /** The rounded mean of c values in [lo, hi] lies in [lo, hi]. */
  lemma RoundedMeanBounds(s: int, c: nat, lo: int, hi: int)
    requires c > 0 && c * lo <= s <= c * hi
    ensures lo <= RoundedMean(s, c) <= hi
  {
    var q := RoundedMean(s, c);
    assert 2 * c * q <= 2 * s + c < 2 * c * q + 2 * c;
    if q < lo {
      MulLe(q + 1, lo, 2 * c);
      assert false;
    }
    if q > hi {
      MulLe(hi + 1, q, 2 * c);
      assert false;
    }
  }

  /** Every component of `p` lies in [lo, hi]. */
  predicate Within(p: Pixel, lo: int, hi: int) {
    lo <= p.r <= hi && lo <= p.g <= hi && lo <= p.b <= hi
  }

  /** The sum of n pixels within [lo, hi] lies within [n lo, n hi]. */
  lemma {:induction false} PixelSumBounds(ps: seq<Pixel>, lo: int, hi: int)
    requires forall t :: 0 <= t < |ps| ==> Within(ps[t], lo, hi)
    ensures |ps| * lo <= PixelSum(ps).r <= |ps| * hi
    ensures |ps| * lo <= PixelSum(ps).g <= |ps| * hi
    ensures |ps| * lo <= PixelSum(ps).b <= |ps| * hi
  {
    if ps != [] {
      var n := |ps|;
      PixelSumBounds(ps[..n - 1], lo, hi);
      assert Within(ps[n - 1], lo, hi);
      MulSucc(n - 1, lo);
      MulSucc(n - 1, hi);
    }
  }

  /**
   * A recomputed centroid stays within any bounds that hold for its old
   * value and for every pixel assigned to it, such as [0, 255]; the old
   * value matters only for an empty cluster (see StepWithinMembers).
   */
  lemma UpdatedWithin(pixels: seq<Pixel>, asg: seq<nat>, c: Pixel, j: nat, lo: int, hi: int)
    requires |pixels| == |asg|
    requires Within(c, lo, hi)
    requires forall t :: 0 <= t < |pixels| && asg[t] == j ==> Within(pixels[t], lo, hi)
    ensures Within(Updated(c, ClusterSum(pixels, asg, j, |pixels|), ClusterCount(asg, j, |pixels|)), lo, hi)
  {
    var ms := Members(pixels, asg, j, |pixels|);
    ClusterSumMembers(pixels, asg, j, |pixels|);
    MembersWithin(pixels, asg, j, |pixels|, lo, hi);
    PixelSumBounds(ms, lo, hi);
    var sum := PixelSum(ms);
    if |ms| > 0 {
      RoundedMeanBounds(sum.r, |ms|, lo, hi);
      RoundedMeanBounds(sum.g, |ms|, lo, hi);
      RoundedMeanBounds(sum.b, |ms|, lo, hi);
    }
  }

  /** The colour channels of a pixel. */
  datatype Channel = Red | Green | Blue

  function At(p: Pixel, ch: Channel): int {
    match ch
    case Red => p.r
    case Green => p.g
    case Blue => p.b
  }

  /** One channel of the sum of n pixels whose channel lies in [lo, hi] lies in [n lo, n hi]. */
  lemma {:induction false} PixelSumBoundsAt(ps: seq<Pixel>, ch: Channel, lo: int, hi: int)
    requires forall t :: 0 <= t < |ps| ==> lo <= At(ps[t], ch) <= hi
    ensures |ps| * lo <= At(PixelSum(ps), ch) <= |ps| * hi
  {
    if ps != [] {
      var n := |ps|;
      PixelSumBoundsAt(ps[..n - 1], ch, lo, hi);
      assert lo <= At(ps[n - 1], ch) <= hi;
      MulSucc(n - 1, lo);
      MulSucc(n - 1, hi);
    }
  }

  /**
   * Each channel of a centroid with at least one member moves to between
   * the smallest and largest value of that channel among its members,
   * wherever the centroid was before.
   */
  lemma StepWithinMembers(pixels: seq<Pixel>, cs: seq<Pixel>, j: nat, ch: Channel, lo: int, hi: int)
    requires j < |cs|
    requires Members(pixels, Assign(pixels, cs), j, |pixels|) != []
    requires var ms := Members(pixels, Assign(pixels, cs), j, |pixels|);
             forall t :: 0 <= t < |ms| ==> lo <= At(ms[t], ch) <= hi
    ensures lo <= At(Step(pixels, cs)[j], ch) <= hi
  {
    var ms := Members(pixels, Assign(pixels, cs), j, |pixels|);
    StepCentroid(pixels, cs, j);
    PixelSumBoundsAt(ms, ch, lo, hi);
    RoundedMeanBounds(At(PixelSum(ms), ch), |ms|, lo, hi);
  }

  lemma {:induction false} MembersWithin(pixels: seq<Pixel>, asg: seq<nat>, j: nat, m: nat, lo: int, hi: int)
    requires m <= |pixels| == |asg|
    requires forall t :: 0 <= t < m && asg[t] == j ==> Within(pixels[t], lo, hi)
    ensures forall t :: 0 <= t < |Members(pixels, asg, j, m)| ==> Within(Members(pixels, asg, j, m)[t], lo, hi)
  {
    if m > 0 {
      MembersWithin(pixels, asg, j, m - 1, lo, hi);
    }
  }

  /** One iteration keeps every centroid a valid colour when the pixels are. */
  lemma StepValid(pixels: seq<Pixel>, cs: seq<Pixel>)
    requires forall t :: 0 <= t < |pixels| ==> ValidPixel(pixels[t])
    requires forall j :: 0 <= j < |cs| ==> ValidPixel(cs[j])
    ensures forall j :: 0 <= j < |cs| ==> ValidPixel(Step(pixels, cs)[j])
  {
    var asg := Assign(pixels, cs);
    forall j | 0 <= j < |cs|
      ensures ValidPixel(Step(pixels, cs)[j])
    {
      assert Within(cs[j], 0, 255);
      forall t | 0 <= t < |pixels| && asg[t] == j
        ensures Within(pixels[t], 0, 255)
      {
        assert ValidPixel(pixels[t]);
      }
      UpdatedWithin(pixels, asg, cs[j], j, 0, 255);
    }
  }

  /** Any number of iterations keeps every centroid a valid colour. */
  lemma {:induction false} IterateValid(pixels: seq<Pixel>, cs: seq<Pixel>, t: nat)
    requires forall i :: 0 <= i < |pixels| ==> ValidPixel(pixels[i])
    requires forall j :: 0 <= j < |cs| ==> ValidPixel(cs[j])
    ensures forall j :: 0 <= j < |cs| ==> ValidPixel(Iterate(pixels, cs, t)[j])
  {
    if t > 0 {
      IterateValid(pixels, cs, t - 1);
      StepValid(pixels, Iterate(pixels, cs, t - 1));
    }
  }

  // ---------------------------------------------------------------------
  // A single cluster
  // ---------------------------------------------------------------------

  /** The rounded component-wise mean of a non-empty pixel sequence. */
  function Mean(ps: seq<Pixel>): Pixel
    requires |ps| > 0
  {
    var s := PixelSum(ps);
    Pixel(RoundedMean(s.r, |ps|), RoundedMean(s.g, |ps|), RoundedMean(s.b, |ps|))
  }

  /** With one centroid, one iteration moves it to the mean of all pixels. */
  lemma SingleCentroidStep(pixels: seq<Pixel>, c: Pixel)
    requires |pixels| > 0
    ensures Step(pixels, [c]) == [Mean(pixels)]
  {
    var asg := Assign(pixels, [c]);
    forall t | 0 <= t < |pixels|
      ensures asg[t] == 0
    {
      assert asg[t] == Nearest(pixels[t], [c], 1);
    }
    ClusterSumMembers(pixels, asg, 0, |pixels|);
    AllMembers(pixels, asg, |pixels|);
    assert pixels[..|pixels|] == pixels;
  }

  lemma {:induction false} AllMembers(pixels: seq<Pixel>, asg: seq<nat>, m: nat)
    requires m <= |pixels| == |asg|
    requires forall t :: 0 <= t < m ==> asg[t] == 0
    ensures Members(pixels, asg, 0, m) == pixels[..m]
  {
    if m > 0 {
      AllMembers(pixels, asg, m - 1);
      assert pixels[..m] == pixels[..m - 1] + [pixels[m - 1]];
    }
  }

  /** With k = 1 and at least one iteration the answer is the mean of all opaque pixels. */
  lemma SingleCluster(data: seq<Byte>, maxIterations: nat, draws: seq<real>)
    requires 1 <= |draws| && ValidDraws(draws) && maxIterations >= 1
    requires |OpaquePixels(data)| > 0
    ensures DominantColors(data, 1, maxIterations, draws) == Some([FormatCentroid(Mean(OpaquePixels(data)))])
  {
    var pixels := OpaquePixels(data);
    var init := InitialCentroids(pixels, draws, 1);
    var cs := Iterate(pixels, init, maxIterations - 1);
    assert cs == [cs[0]];
    SingleCentroidStep(pixels, cs[0]);
    assert Iterate(pixels, init, maxIterations) == [Mean(pixels)];
    assert FormatAll([Mean(pixels)]) == [FormatCentroid(Mean(pixels))];
  }

  // ---------------------------------------------------------------------
  // Step 5: the returned strings
  // ---------------------------------------------------------------------

  lemma {:induction false} FormatAllAt(cs: seq<Pixel>, i: nat)
    requires i < |cs|
    ensures FormatAll(cs)[i] == FormatCentroid(cs[i])
  {
    if i < |cs| - 1 {
      FormatAllAt(cs[..|cs| - 1], i);
    }
  }

  /** `colorStr.split(',').map(c => parseInt(c, 10))` reads a formatted centroid back. */
  lemma FormatCentroidParses(c: Pixel)
    requires ValidPixel(c)
    ensures ParseNumbers(Split(FormatCentroid(c), ',')) == Some([c.r, c.g, c.b])
  {
    var x, y, z := NatToString(c.r), NatToString(c.g), NatToString(c.b);
    JoinThree(x, y, z, ',');
    assert FormatCentroid(c) == Join([x, y, z], ',');
    SplitJoin([x, y, z], ',');
    ParseThree(x, y, z);
    ParseNatToString(c.r);
    ParseNatToString(c.g);
    ParseNatToString(c.b);
  }

  /**
   * What the reducer returns: the TypeError exactly when there are pixels,
   * k is 0 and at least one iteration runs; [] when there are no opaque
   * pixels; otherwise k strings, each "r,g,b" of byte values.
   */
  lemma DominantColorsShape(data: seq<Byte>, k: nat, maxIterations: nat, draws: seq<real>)
    requires k <= |draws| && ValidDraws(draws)
    ensures DominantColors(data, k, maxIterations, draws).None? <==>
              |OpaquePixels(data)| > 0 && k == 0 && maxIterations > 0
    ensures |OpaquePixels(data)| == 0 ==> DominantColors(data, k, maxIterations, draws) == Some([])
    ensures |OpaquePixels(data)| > 0 && DominantColors(data, k, maxIterations, draws).Some? ==>
              |DominantColors(data, k, maxIterations, draws).value| == k
    ensures DominantColors(data, k, maxIterations, draws).Some? ==>
              var out := DominantColors(data, k, maxIterations, draws).value;
              forall i :: 0 <= i < |out| ==>
                var ns := ParseNumbers(Split(out[i], ','));
                ns.Some? && |ns.value| == 3 && ns.value[0] < 256 && ns.value[1] < 256 && ns.value[2] < 256
  {
    var pixels := OpaquePixels(data);
    if |pixels| > 0 && k > 0 {
      var init := InitialCentroids(pixels, draws, k);
      var cs := Iterate(pixels, init, maxIterations);
      IterateValid(pixels, init, maxIterations);
      forall i | 0 <= i < k
        ensures var ns := ParseNumbers(Split(FormatAll(cs)[i], ','));
                ns.Some? && |ns.value| == 3 && ns.value[0] < 256 && ns.value[1] < 256 && ns.value[2] < 256
      {
        FormatAllAt(cs, i);
        FormatCentroidParses(cs[i]);
      }
    }
  }
}
