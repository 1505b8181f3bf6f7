/**
 * Maximin (farthest-point) seeding of the palette: the first centre is the
 * mean colour, and every further centre is the pixel farthest from the
 * centres chosen so far. A per-pixel array holds each pixel's distance to
 * its nearest chosen centre; each pass lowers it with the newest centre and
 * picks the first pixel where it is largest.
 */
module Maximin {
  import opened Colors

  /** nc_dist for pixel p once the first n centres of cs have been taken
      into account: MAX_RGB_DIST lowered, centre by centre, to any strictly
      smaller distance. */
  function NcDist(p: Pixel, cs: seq<Pixel>, n: nat): real
    requires n <= |cs|
  {
    if n == 0 then MAX_RGB_DIST
    else
      var d := NcDist(p, cs, n - 1);
      var e := Dist(p, cs[n - 1]);
      if e < d then e else d
  }

  /** nc_dist is the smaller of MAX_RGB_DIST and the distances to the
      centres: never negative, never above the sentinel or any centre's
      distance, and equal to the sentinel or to one of those distances. */
  lemma {:induction false} NcDistIsMinimum(p: Pixel, cs: seq<Pixel>, n: nat)
    requires n <= |cs|
    ensures 0.0 <= NcDist(p, cs, n) <= MAX_RGB_DIST
    ensures forall t :: 0 <= t < n ==> NcDist(p, cs, n) <= Dist(p, cs[t])
    ensures NcDist(p, cs, n) == MAX_RGB_DIST || exists t :: 0 <= t < n && NcDist(p, cs, n) == Dist(p, cs[t])
  {
    if n > 0 {
      NcDistIsMinimum(p, cs, n - 1);
    }
  }

  /** Later passes never raise a pixel's nc_dist. */
  lemma {:induction false} NcDistNonIncreasing(p: Pixel, cs: seq<Pixel>, m: nat, n: nat)
    requires m <= n <= |cs|
    ensures NcDist(p, cs, n) <= NcDist(p, cs, m)
    decreases n
  {
    if m < n {
      NcDistNonIncreasing(p, cs, m, n - 1);
    }
  }

  /** Only the centres taken into account matter. */
  lemma {:induction false} NcDistPrefix(p: Pixel, a: seq<Pixel>, b: seq<Pixel>, n: nat)
    requires n <= |a| && n <= |b|
    requires forall t :: 0 <= t < n ==> a[t] == b[t]
    ensures NcDist(p, a, n) == NcDist(p, b, n)
  {
    if n > 0 {
      NcDistPrefix(p, a, b, n - 1);
    }
  }

  /** The whole nc_dist array after the first n centres. */
  function NcDists(data: seq<Pixel>, cs: seq<Pixel>, n: nat): (ds: seq<real>)
    requires n <= |cs|
    ensures |ds| == |data|
    ensures forall t :: 0 <= t < |data| ==> ds[t] == NcDist(data[t], cs, n)
  {
    seq(|data|, t requires 0 <= t < |data| => NcDist(data[t], cs, n))
  }

  lemma NcDistsNonNegative(data: seq<Pixel>, cs: seq<Pixel>, n: nat)
    requires n <= |cs|
    ensures forall t :: 0 <= t < |data| ==> NcDists(data, cs, n)[t] >= 0.0
  {
    forall t | 0 <= t < |data|
      ensures NcDists(data, cs, n)[t] >= 0.0
    {
      NcDistIsMinimum(data[t], cs, n);
    }
  }

  /** The (max_dist_index, max_dist) pair a pass holds after the pixels
      0..n-1: it starts from the index left by the previous pass and
      -MAX_RGB_DIST, and moves only on a strictly larger nc_dist. */
  function FarthestScan(ds: seq<real>, n: nat, start: int): (int, real)
    requires n <= |ds|
  {
    if n == 0 then (start, -MAX_RGB_DIST)
    else
      var prev := FarthestScan(ds, n - 1, start);
      if prev.1 < ds[n - 1] then (n - 1, ds[n - 1]) else prev
  }

  /** Over non-negative values the scan ends on the first maximum ... */
  lemma {:induction false} FarthestIsFirstMaximum(ds: seq<real>, n: nat, start: int)
    requires 1 <= n <= |ds|
    requires forall t :: 0 <= t < n ==> ds[t] >= 0.0
    ensures var r := FarthestScan(ds, n, start);
      && 0 <= r.0 < n && r.1 == ds[r.0]
      && (forall t :: 0 <= t < n ==> ds[t] <= r.1)
      && (forall t :: 0 <= t < r.0 ==> ds[t] < r.1)
  {
    if n > 1 {
      FarthestIsFirstMaximum(ds, n - 1, start);
    }
  }

  /** ... whatever index it started from. */
  lemma {:induction false} FarthestIgnoresStart(ds: seq<real>, n: nat, a: int, b: int)
    requires 1 <= n <= |ds|
    requires ds[0] >= 0.0
    ensures FarthestScan(ds, n, a) == FarthestScan(ds, n, b)
  {
    if n > 1 {
      FarthestIgnoresStart(ds, n - 1, a, b);
    }
  }

  /** The pixel a pass picks once the first n centres are known. */
  function Farthest(data: seq<Pixel>, cs: seq<Pixel>, n: nat): int
    requires |data| >= 1 && n <= |cs|
  {
    FarthestScan(NcDists(data, cs, n), |data|, 0).0
  }

  /** The centres maximin chooses: the mean, then k - 1 times the pixel
      the pass picks. */
  function Seeds(data: seq<Pixel>, mean: Pixel, k: nat): (cs: seq<Pixel>)
    requires k <= 1 || |data| >= 1
    ensures |cs| == k
  {
    if k == 0 then []
    else if k == 1 then [mean]
    else
      var prev := Seeds(data, mean, k - 1);
      NcDistsNonNegative(data, prev, k - 1);
      FarthestIsFirstMaximum(NcDists(data, prev, k - 1), |data|, 0);
      prev + [data[Farthest(data, prev, k - 1)]]
  }

  lemma {:induction false} SeedsPrefix(data: seq<Pixel>, mean: Pixel, k: nat, i: nat)
    requires i <= k && (k <= 1 || |data| >= 1)
    ensures Seeds(data, mean, k)[..i] == Seeds(data, mean, i)
    decreases k
  {
    if i < k {
      SeedsPrefix(data, mean, k - 1, i);
      assert Seeds(data, mean, k)[..k - 1] == Seeds(data, mean, k - 1);
      assert Seeds(data, mean, k)[..i] == Seeds(data, mean, k)[..k - 1][..i];
    }
  }

  /** Centre i of k is the pixel the pass picks over centres 0..i-1. */
  lemma SeedsStep(data: seq<Pixel>, mean: Pixel, k: nat, i: nat)
    requires 1 <= i < k && |data| >= 1
    ensures 0 <= Farthest(data, Seeds(data, mean, k), i) < |data|
    ensures Seeds(data, mean, k)[i] == data[Farthest(data, Seeds(data, mean, k), i)]
  {
    var all := Seeds(data, mean, k);
    var prev := Seeds(data, mean, i);
    SeedsPrefix(data, mean, k, i + 1);
    SeedsPrefix(data, mean, k, i);
    SeedsAgree(data, all, prev, i);
    assert Farthest(data, all, i) == Farthest(data, prev, i);
    NcDistsNonNegative(data, prev, i);
    FarthestIsFirstMaximum(NcDists(data, prev, i), |data|, 0);
    assert Seeds(data, mean, i + 1) == prev + [data[Farthest(data, prev, i)]];
    assert all[i] == all[..i + 1][i];
  }

  /** Two centre lists that share their first i entries give the same
      nc_dist array after i passes. */
  lemma SeedsAgree(data: seq<Pixel>, a: seq<Pixel>, b: seq<Pixel>, i: nat)
    requires i <= |a| && a[..i] == b
    ensures NcDists(data, a, i) == NcDists(data, b, i)
  {
    forall s | 0 <= s < i
      ensures a[s] == b[s]
    {
      assert a[s] == a[..i][s];
    }
    forall t | 0 <= t < |data|
      ensures NcDist(data[t], a, i) == NcDist(data[t], b, i)
    {
      NcDistPrefix(data[t], a, b, i);
    }
  }

  /** What maximin promises about its first centre: it is the mean. */
  lemma SeedsStartWithMean(data: seq<Pixel>, mean: Pixel, k: nat)
    requires 1 <= k && (k == 1 || |data| >= 1)
    ensures Seeds(data, mean, k)[0] == mean
  {
    SeedsPrefix(data, mean, k, 1);
    assert Seeds(data, mean, k)[0] == Seeds(data, mean, k)[..1][0];
  }

  /** What maximin promises about every further centre: centre i is the
      pixel the pass picks, the first pixel whose distance to its nearest
      earlier centre is largest. */
  lemma SeedsAreFarthestPixels(data: seq<Pixel>, mean: Pixel, k: nat, i: nat)
    requires 1 <= i < k && |data| >= 1
    ensures var cs := Seeds(data, mean, k);
      var f := Farthest(data, cs, i);
      && 0 <= f < |data| && cs[i] == data[f]
      && (forall t :: 0 <= t < |data| ==> NcDist(data[t], cs, i) <= NcDist(data[f], cs, i))
      && (forall t :: 0 <= t < f ==> NcDist(data[t], cs, i) < NcDist(data[f], cs, i))
  {
    var cs := Seeds(data, mean, k);
    SeedsStep(data, mean, k, i);
    NcDistsNonNegative(data, cs, i);
    FarthestIsFirstMaximum(NcDists(data, cs, i), |data|, 0);
  }

  /** The palette maximin leaves: the seeds, each with size 1. */
  function SeededPalette(data: seq<Pixel>, mean: Pixel, k: nat): (cs: seq<Cluster>)
    requires k <= 1 || |data| >= 1
    ensures |cs| == k
    ensures forall t :: 0 <= t < k ==> cs[t].size == 1
  {
    var seeds := Seeds(data, mean, k);
    seq(k, t requires 0 <= t < k => Cluster(1, seeds[t]))
  }

  /** maximin over the palette in place: the numColors clusters become the
      chosen centres, each with size 1. */
  method Maximin(img: Image, clusters: array<Cluster>, numColors: int, mean: Pixel)
    requires 1 <= numColors == clusters.Length
    requires numColors == 1 || |img.data| >= 1
    modifies clusters
    ensures forall t :: 0 <= t < numColors ==> clusters[t] == Cluster(1, Seeds(img.data, mean, numColors)[t])
  {
    ghost var all := Seeds(img.data, mean, numColors);
    SeedsStartWithMean(img.data, mean, numColors);
    var n := |img.data|;
    var ncDist := new real[n];
    clusters[0] := Cluster(1, mean);
    ResetDistances(ncDist);
    var maxDistIndex := 0;
    var i := 1;
    while i < numColors
      invariant 1 <= i <= numColors
      invariant forall t :: 0 <= t < i ==> clusters[t] == Cluster(1, all[t])
      invariant forall t :: 0 <= t < n ==> ncDist[t] == NcDist(img.data[t], all, i - 1)
    {
      maxDistIndex := Pass(img.data, ncDist, clusters[i - 1].center, all, i, maxDistIndex);
      SeedsStep(img.data, mean, numColors, i);
      clusters[i] := Cluster(1, img.data[maxDistIndex]);
      i := i + 1;
    }
  }

  /** The first loop of maximin: every pixel starts at the sentinel
      distance. */
  method ResetDistances(ncDist: array<real>)
    modifies ncDist
    ensures forall t :: 0 <= t < ncDist.Length ==> ncDist[t] == MAX_RGB_DIST
  {
    for j := 0 to ncDist.Length
      invariant forall t :: 0 <= t < j ==> ncDist[t] == MAX_RGB_DIST
    {
      ncDist[j] := MAX_RGB_DIST;
    }
  }

  /** One pass of maximin: lower every pixel's nc_dist with centre i - 1
      of cs, which is c, and scan for the first pixel where nc_dist is
      largest. */
  method Pass(data: seq<Pixel>, ncDist: array<real>, c: Pixel, ghost cs: seq<Pixel>, ghost i: nat, start: int)
    returns (maxDistIndex: int)
    requires ncDist.Length == |data| && 1 <= i <= |cs| && c == cs[i - 1]
    requires forall t :: 0 <= t < |data| ==> ncDist[t] == NcDist(data[t], cs, i - 1)
    modifies ncDist
    ensures forall t :: 0 <= t < |data| ==> ncDist[t] == NcDist(data[t], cs, i)
    ensures |data| >= 1 ==> maxDistIndex == Farthest(data, cs, i)
  {
    ghost var ds := NcDists(data, cs, i);
    var maxDist := -MAX_RGB_DIST;
    maxDistIndex := start;
    for j := 0 to |data|
      invariant forall t :: 0 <= t < j ==> ncDist[t] == ds[t]
      invariant forall t :: j <= t < |data| ==> ncDist[t] == NcDist(data[t], cs, i - 1)
      invariant (maxDistIndex, maxDist) == FarthestScan(ds, j, start)
    {
      var dist := Dist(data[j], c);
      if dist < ncDist[j] {
        ncDist[j] := dist;
      }
      if maxDist < ncDist[j] {
        maxDist := ncDist[j];
        maxDistIndex := j;
      }
    }
    if |data| >= 1 {
      NcDistsNonNegative(data, cs, i);
      FarthestIgnoresStart(ds, |data|, start, 0);
    }
  }
}
