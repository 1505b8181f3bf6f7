/**
 * The nearest-centre search that mkm.c repeats in macqueen_cluster (twice)
 * and lloyd_cluster (twice): scan the palette in index order, keep a centre
 * only when its distance is strictly below the best so far, starting from
 * the sentinel MAX_RGB_DIST and the index -INT_MAX.
 */
module Nearest {
  import opened Colors

  /** The (distance, index) pair the search holds after looking at centres
      0..n-1. */
  function Scan(p: Pixel, cs: seq<Pixel>, n: nat): (r: (real, int))
    requires n <= |cs|
    ensures r.1 == -INT_MAX || 0 <= r.1 < n
    ensures r.1 == -INT_MAX ==> r.0 == MAX_RGB_DIST
    ensures r.1 >= 0 ==> r.0 == Dist(p, cs[r.1]) < MAX_RGB_DIST
  {
    if n == 0 then (MAX_RGB_DIST, -INT_MAX)
    else
      var prev := Scan(p, cs, n - 1);
      var d := Dist(p, cs[n - 1]);
      if d < prev.0 then (d, n - 1) else prev
  }

  /** The index the search ends with over the whole palette. */
  function NearestIndex(p: Pixel, cs: seq<Pixel>): int
  {
    Scan(p, cs, |cs|).1
  }

  /** Every pixel of data has a centre strictly closer than the sentinel,
      so the search finds a real index for each. */
  predicate AllFound(data: seq<Pixel>, palette: seq<Pixel>)
  {
    forall i :: 0 <= i < |data| ==> NearestIndex(data[i], palette) >= 0
  }

  /** What the scan keeps: a distance no larger than the sentinel or any
      centre seen, reached by no centre before the kept index, and an index
      that is found exactly when some centre is strictly closer than the
      sentinel. */
  lemma {:induction false} ScanIsFirstMinimum(p: Pixel, cs: seq<Pixel>, n: nat)
    requires n <= |cs|
    ensures var r := Scan(p, cs, n);
      && r.0 <= MAX_RGB_DIST
      && (forall j :: 0 <= j < n ==> r.0 <= Dist(p, cs[j]))
      && (r.1 >= 0 ==> forall j :: 0 <= j < r.1 ==> r.0 < Dist(p, cs[j]))
      && (r.1 >= 0 <==> exists j :: 0 <= j < n && Dist(p, cs[j]) < MAX_RGB_DIST)
  {
    if n > 0 {
      ScanIsFirstMinimum(p, cs, n - 1);
      var prev := Scan(p, cs, n - 1);
      if Dist(p, cs[n - 1]) < prev.0 {
        assert Dist(p, cs[n - 1]) < MAX_RGB_DIST;
      }
    }
  }

  /** The search returns the lowest index among the centres of minimal
      distance, provided some centre is strictly closer than MAX_RGB_DIST;
      otherwise it returns -INT_MAX. */
  lemma NearestIsLowestArgmin(p: Pixel, cs: seq<Pixel>)
    ensures var k := NearestIndex(p, cs);
      && (k >= 0 <==> exists j :: 0 <= j < |cs| && Dist(p, cs[j]) < MAX_RGB_DIST)
      && (k < 0 ==> k == -INT_MAX)
      && (k >= 0 ==>
            && k < |cs|
            && (forall j :: 0 <= j < |cs| ==> Dist(p, cs[k]) <= Dist(p, cs[j]))
            && (forall j :: 0 <= j < k ==> Dist(p, cs[k]) < Dist(p, cs[j])))
  {
    ScanIsFirstMinimum(p, cs, |cs|);
  }

  /** Inside the RGB cube, the search fails only when every centre sits at
      the sentinel distance. */
  lemma NearestFailsOnlyAtSentinel(p: Pixel, cs: seq<Pixel>)
    requires InCube(p) && AllInCube(cs)
    ensures NearestIndex(p, cs) < 0 <==>
              forall j :: 0 <= j < |cs| ==> Dist(p, cs[j]) == MAX_RGB_DIST
  {
    NearestIsLowestArgmin(p, cs);
    forall j | 0 <= j < |cs| ensures Dist(p, cs[j]) <= MAX_RGB_DIST {
      DistBounded(p, cs[j]);
    }
  }

  /** The search as the source writes it, over the palette in place. */
  method NearestCenter(p: Pixel, clusters: array<Cluster>) returns (index: int)
    ensures index == NearestIndex(p, Centers(clusters[..]))
  {
    ghost var cs := Centers(clusters[..]);
    var minDist := MAX_RGB_DIST;
    index := -INT_MAX;
    var j := 0;
    while j < clusters.Length
      invariant 0 <= j <= clusters.Length
      invariant (minDist, index) == Scan(p, cs, j)
    {
      var dist := Dist(p, clusters[j].center);
      if dist < minDist {
        minDist := dist;
        index := j;
      }
      j := j + 1;
    }
  }
}
