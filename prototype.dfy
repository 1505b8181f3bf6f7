/**
 * The first implementation of MacQueen's algorithm kept in main.c: 64 fixed
 * clusters seeded from random pixels, one pass of random presentations with
 * the running-mean update, then a nearest-centre mapping; and the mean
 * squared error of the result.
 *
 * The search in main.c writes its result into a variable that is declared
 * without a value and is not reset between searches; the as-written search
 * is SearchAsWritten, and the model of the program uses the search it
 * evidently intends, Closest (see StaleIndexWhenAllAtSentinel).
 */
module Prototype {
  import Bits
  import opened Colors
  import opened Nearest
  import MacQueen
  import Mse

  /** The palette size main.c fixes, whatever number of colours it is asked for. */
  const NUM_FIXED_COLORS: nat := 64

  /** The largest value rand() returns (glibc). */
  const RAND_MAX: int := 2147483647

  /** Every value is one rand() can return. */
  predicate ValidDraws(draws: seq<int>)
  {
    forall i :: 0 <= i < |draws| ==> 0 <= draws[i] <= RAND_MAX
  }

  /** (int)(r / (RAND_MAX + 1.0) * n): r scaled from [0, RAND_MAX] to a
      pixel index, in exact arithmetic floor(r * n / (RAND_MAX + 1)). */
  function RandomIndex(r: int, n: nat): (k: int)
    requires 0 <= r <= RAND_MAX && n >= 1
    ensures 0 <= k < n
  {
    ScaleBelow(r, RAND_MAX + 1, n);
    (r * n) / (RAND_MAX + 1)
  }

  lemma ScaleBelow(r: int, m: int, n: int)
    requires 0 <= r < m && n >= 1
    ensures 0 <= (r * n) / m < n
  {
    var x := r * n;
    Bits.MulMonotone(0, r, n);
    Bits.MulMonotone(r, m - 1, n);
    assert (m - 1) * n == m * n - n;
    var q := x / m;
    assert x == q * m + x % m;
    if q >= n {
      Bits.MulMonotone(n, q, m);
    }
    if q < 0 {
      Bits.MulMonotone(q, -1, m);
    }
  }

  /** The truncation of the real product agrees with the integer form. */
  lemma RandomIndexIsScaledDraw(r: int, n: nat)
    requires 0 <= r <= RAND_MAX && n >= 1
    ensures ((r as real) / ((RAND_MAX + 1) as real) * (n as real)).Floor == RandomIndex(r, n)
  {
    var m := (RAND_MAX + 1) as real;
    var x := (r as real) / m * (n as real);
    assert x == ((r * n) as real) / m;
    var k := (r * n) / (RAND_MAX + 1);
    var rest := (r * n) % (RAND_MAX + 1);
    assert r * n == k * (RAND_MAX + 1) + rest;
    assert ((r * n) as real) == (k as real) * m + rest as real;
    assert x == (k as real) + (rest as real) / m;
    assert 0.0 <= (rest as real) / m < 1.0;
  }

  /** The 64 starting clusters: cluster i is the pixel the i-th draw picks,
      with size 1. */
  function InitialClusters(data: seq<Pixel>, draws: seq<int>): (cs: seq<Cluster>)
    requires |data| >= 1 && NUM_FIXED_COLORS <= |draws| && ValidDraws(draws)
    ensures |cs| == NUM_FIXED_COLORS
    ensures forall j :: 0 <= j < |cs| ==> cs[j].size == 1
  {
    seq(NUM_FIXED_COLORS, i requires 0 <= i < NUM_FIXED_COLORS =>
      Cluster(1, data[RandomIndex(draws[i], |data|)]))
  }

  // ---------------------------------------------------------------------
  // The nearest-centre search, as written and as intended
  // ---------------------------------------------------------------------

  /** What the search leaves in `nearest`: the index of the first centre
      strictly closer than 195075 with the least distance, or, when there
      is none, whatever the variable held before (None: never assigned). */
  function SearchAsWritten(p: Pixel, cs: seq<Pixel>, carried: Option<int>): (r: Option<int>)
  {
    var k := NearestIndex(p, cs);
    if k >= 0 then Some(k) else carried
  }

  /** The lowest index among the first n centres at the least distance
      from p. */
  function Closest(p: Pixel, cs: seq<Pixel>, n: nat): (k: nat)
    requires 1 <= n <= |cs|
    ensures k < n
  {
    if n == 1 then 0
    else
      var k := Closest(p, cs, n - 1);
      if Dist(p, cs[n - 1]) < Dist(p, cs[k]) then n - 1 else k
  }

  /** Closest picks a centre at minimal distance, and no earlier centre is
      as close. */
  lemma {:induction false} ClosestIsLowestArgmin(p: Pixel, cs: seq<Pixel>, n: nat)
    requires 1 <= n <= |cs|
    ensures var k := Closest(p, cs, n);
      && (forall j :: 0 <= j < n ==> Dist(p, cs[k]) <= Dist(p, cs[j]))
      && (forall j :: 0 <= j < k ==> Dist(p, cs[k]) < Dist(p, cs[j]))
  {
    if n > 1 {
      ClosestIsLowestArgmin(p, cs, n - 1);
    }
  }

  /** Whenever the program's search finds a centre it finds the intended
      one, whatever `nearest` held before; it differs only when every
      centre is at distance 195075 or more, and then it returns the stale
      value. */
  lemma SearchAsWrittenAgrees(p: Pixel, cs: seq<Pixel>, carried: Option<int>)
    requires |cs| >= 1
    ensures (exists j :: 0 <= j < |cs| && Dist(p, cs[j]) < MAX_RGB_DIST) ==>
              SearchAsWritten(p, cs, carried) == Some(Closest(p, cs, |cs|))
    ensures (forall j :: 0 <= j < |cs| ==> Dist(p, cs[j]) >= MAX_RGB_DIST) ==>
              SearchAsWritten(p, cs, carried) == carried
  {
    NearestIsLowestArgmin(p, cs);
    ClosestIsLowestArgmin(p, cs, |cs|);
  }

  const Black: Pixel := Pixel(0.0, 0.0, 0.0)
  const White: Pixel := Pixel(255.0, 255.0, 255.0)

  /** A black pixel presented to 64 white centres is exactly 195075 from
      each: the strict comparison never fires, `nearest` is never assigned,
      and the update reads it uninitialised. The intended search picks
      centre 0. */
  lemma StaleIndexWhenAllAtSentinel()
    ensures var cs := seq(NUM_FIXED_COLORS, _ => White);
      && SearchAsWritten(Black, cs, None) == None
      && Closest(Black, cs, |cs|) == 0
  {
    var cs := seq(NUM_FIXED_COLORS, _ => White);
    assert Dist(Black, White) == MAX_RGB_DIST;
    NearestIsLowestArgmin(Black, cs);
    ClosestIsLowestArgmin(Black, cs, |cs|);
    var c := Closest(Black, cs, |cs|);
    assert cs[0] == White && cs[c] == White;
  }

  // ---------------------------------------------------------------------
  // Training
  // ---------------------------------------------------------------------

  /** ci = (Ni ci + x) / (Ni + 1), channel by channel, with Ni grown by one. */
  function Absorb(c: Cluster, p: Pixel): Cluster
    requires c.size >= 0
  {
    var n := c.size as real;
    var m := (c.size + 1) as real;
    Cluster(c.size + 1, Pixel((n * c.center.red + p.red) / m,
                              (n * c.center.green + p.green) / m,
                              (n * c.center.blue + p.blue) / m))
  }

  lemma AbsorbChannel(c: real, n: int, v: real)
    requires n >= 0
    ensures c + (1.0 / (n + 1) as real) * (v - c) == (n as real * c + v) / (n + 1) as real
  {
    var m := (n + 1) as real;
    var q := 1.0 / m;
    assert q * m == 1.0;
    var l := c + q * (v - c);
    assert l * m == c * m + (v - c) * (q * m);
    assert l * m == n as real * c + v;
  }

  /** The update main.c writes is the one mkm.c writes with the learning
      rate 1 / (size + 1). */
  lemma AbsorbIsUnitRateUpdate(c: Cluster, p: Pixel)
    requires c.size >= 0
    ensures Absorb(c, p) == MacQueen.Update(c, p, 1.0 / (c.size + 1) as real)
  {
    AbsorbChannel(c.center.red, c.size, p.red);
    AbsorbChannel(c.center.green, c.size, p.green);
    AbsorbChannel(c.center.blue, c.size, p.blue);
  }

  /** A cluster holding the mean of ps that absorbs p holds the mean of
      ps + [p]. */
  lemma AbsorbIsRunningMean(ps: seq<Pixel>, p: Pixel)
    requires |ps| >= 1
    ensures Absorb(Cluster(|ps|, Mean(ps)), p) == Cluster(|ps| + 1, Mean(ps + [p]))
  {
    AbsorbIsUnitRateUpdate(Cluster(|ps|, Mean(ps)), p);
    MacQueen.UnitRateIsRunningMean(ps, p);
  }

  /** Every cluster has been shaped by at least one pixel. */
  predicate Seeded(cs: seq<Cluster>)
  {
    forall j :: 0 <= j < |cs| ==> cs[j].size >= 1
  }

  /** One presentation: the closest cluster absorbs p; it alone changes and
      grows by one. */
  function Present(cs: seq<Cluster>, p: Pixel): (r: seq<Cluster>)
    requires |cs| >= 1 && Seeded(cs)
    ensures |r| == |cs| && Seeded(r)
    ensures TotalSize(r) == TotalSize(cs) + 1
  {
    var k := Closest(p, Centers(cs), |cs|);
    TotalSizeUpdate(cs, k, Absorb(cs[k], p));
    cs[k := Absorb(cs[k], p)]
  }

  /** The clusters after presenting, in order, the pixels the draws pick;
      each presentation adds one to the total size. */
  function Train(cs: seq<Cluster>, data: seq<Pixel>, draws: seq<int>): (r: seq<Cluster>)
    requires |cs| >= 1 && Seeded(cs) && |data| >= 1 && ValidDraws(draws)
    ensures |r| == |cs| && Seeded(r)
    ensures TotalSize(r) == TotalSize(cs) + |draws|
  {
    if draws == [] then cs
    else
      var init := draws[..|draws| - 1];
      Present(Train(cs, data, init), data[RandomIndex(draws[|draws| - 1], |data|)])
  }

  /** The pixels each cluster has absorbed, its seed first. */
  function Absorbed(cs: seq<Cluster>, members: seq<seq<Pixel>>, data: seq<Pixel>, draws: seq<int>): (ms: seq<seq<Pixel>>)
    requires |cs| >= 1 && Seeded(cs) && |data| >= 1 && ValidDraws(draws)
    requires |members| == |cs|
    ensures |ms| == |cs|
  {
    if draws == [] then members
    else
      var init := draws[..|draws| - 1];
      var prev := Train(cs, data, init);
      var ms := Absorbed(cs, members, data, init);
      var p := data[RandomIndex(draws[|draws| - 1], |data|)];
      var k := Closest(p, Centers(prev), |prev|);
      ms[k := ms[k] + [p]]
  }

  /** One presentation keeps every centre the mean of the pixels its
      cluster absorbed, and every size their number. */
  lemma PresentKeepsMeans(cs: seq<Cluster>, members: seq<seq<Pixel>>, p: Pixel)
    requires |cs| >= 1 && Seeded(cs) && MacQueen.MeansOf(cs, members)
    ensures var k := Closest(p, Centers(cs), |cs|);
      MacQueen.MeansOf(Present(cs, p), members[k := members[k] + [p]])
  {
    var k := Closest(p, Centers(cs), |cs|);
    var ms := members[k := members[k] + [p]];
    var r := Present(cs, p);
    AbsorbIsRunningMean(members[k], p);
    assert r[k] == Cluster(|ms[k]|, Mean(ms[k]));
    forall j | 0 <= j < |r|
      ensures |ms[j]| == r[j].size && |ms[j]| >= 1 && r[j].center == Mean(ms[j])
    {
      if j != k {
        assert r[j] == cs[j] && ms[j] == members[j];
      }
    }
  }

  /** Training keeps every centre the mean of the pixels its cluster
      absorbed. */
  lemma {:induction false} TrainKeepsMeans(cs: seq<Cluster>, members: seq<seq<Pixel>>, data: seq<Pixel>, draws: seq<int>)
    requires |cs| >= 1 && Seeded(cs) && |data| >= 1 && ValidDraws(draws)
    requires MacQueen.MeansOf(cs, members)
    ensures MacQueen.MeansOf(Train(cs, data, draws), Absorbed(cs, members, data, draws))
    decreases |draws|
  {
    if draws != [] {
      var init := draws[..|draws| - 1];
      TrainKeepsMeans(cs, members, data, init);
      var p := data[RandomIndex(draws[|draws| - 1], |data|)];
      PresentKeepsMeans(Train(cs, data, init), Absorbed(cs, members, data, init), p);
    }
  }

  /** The seed of each starting cluster is its only member. */
  lemma InitialClustersAreMeans(data: seq<Pixel>, draws: seq<int>)
    requires |data| >= 1 && NUM_FIXED_COLORS <= |draws| && ValidDraws(draws)
    ensures var cs := InitialClusters(data, draws);
      MacQueen.MeansOf(cs, seq(NUM_FIXED_COLORS, i requires 0 <= i < NUM_FIXED_COLORS => [cs[i].center]))
  {
    var cs := InitialClusters(data, draws);
    forall j | 0 <= j < NUM_FIXED_COLORS
      ensures cs[j].center == Mean([cs[j].center])
    {
      MeanOfSingle(cs[j].center);
    }
  }

  /** After the pass the 64 clusters account for the 64 seeds and one
      presentation per pixel. */
  lemma TrainedSizes(data: seq<Pixel>, draws: seq<int>)
    requires |data| >= 1 && |draws| == NUM_FIXED_COLORS + |data| && ValidDraws(draws)
    ensures var cs := Train(InitialClusters(data, draws), data, draws[NUM_FIXED_COLORS..]);
      |cs| == NUM_FIXED_COLORS && TotalSize(cs) == NUM_FIXED_COLORS + |data|
  {
    TotalSizeOfOnes(InitialClusters(data, draws));
  }

  // ---------------------------------------------------------------------
  // The program
  // ---------------------------------------------------------------------

  /** The intended search over the palette in place. */
  method ClosestCenter(p: Pixel, clusters: array<Cluster>) returns (k: int)
    requires clusters.Length >= 1
    ensures k == Closest(p, Centers(clusters[..]), clusters.Length)
  {
    ghost var cs := Centers(clusters[..]);
    k := 0;
    var best := Dist(p, clusters[0].center);
    var j := 1;
    while j < clusters.Length
      invariant 1 <= j <= clusters.Length
      invariant k == Closest(p, cs, j) && best == Dist(p, cs[k])
    {
      var d := Dist(p, clusters[j].center);
      if d < best {
        best := d;
        k := j;
      }
      j := j + 1;
    }
  }

  /** One presentation in place. */
  method PresentPixel(clusters: array<Cluster>, p: Pixel)
    requires clusters.Length >= 1 && Seeded(clusters[..])
    modifies clusters
    ensures clusters[..] == Present(old(clusters[..]), p)
  {
    ghost var cs := clusters[..];
    var k := ClosestCenter(p, clusters);
    clusters[k] := Absorb(clusters[k], p);
    assert clusters[..] == cs[k := Absorb(cs[k], p)];
  }

  /** The seeding loop: cluster i starts at the pixel the i-th draw picks. */
  method SeedClusters(img: Image, draws: seq<int>) returns (clusters: array<Cluster>)
    requires |img.data| >= 1 && NUM_FIXED_COLORS <= |draws| && ValidDraws(draws)
    ensures fresh(clusters)
    ensures clusters[..] == InitialClusters(img.data, draws)
  {
    clusters := new Cluster[NUM_FIXED_COLORS];
    for i := 0 to NUM_FIXED_COLORS
      invariant forall t :: 0 <= t < i ==> clusters[t] == Cluster(1, img.data[RandomIndex(draws[t], |img.data|)])
    {
      var randomNumber := RandomIndex(draws[i], |img.data|);
      clusters[i] := Cluster(1, img.data[randomNumber]);
    }
  }

  /** The presentation loop: one presentation per draw, in order. */
  method PresentAll(img: Image, clusters: array<Cluster>, draws: seq<int>)
    requires |img.data| >= 1 && ValidDraws(draws)
    requires clusters.Length >= 1 && Seeded(clusters[..])
    modifies clusters
    ensures clusters[..] == Train(old(clusters[..]), img.data, draws)
  {
    ghost var init := clusters[..];
    for index := 0 to |draws|
      invariant clusters[..] == Train(init, img.data, draws[..index])
    {
      var randPixNum := RandomIndex(draws[index], |img.data|);
      assert draws[..index + 1][..index] == draws[..index];
      PresentPixel(clusters, img.data[randPixNum]);
    }
    assert draws[..|draws|] == draws;
  }

  /** The mapping loop: every pixel becomes its closest centre. */
  method MapClosest(img: Image, clusters: array<Cluster>) returns (out: Image)
    requires clusters.Length >= 1
    ensures out.width == img.width && out.height == img.height && |out.data| == |img.data|
    ensures forall i :: 0 <= i < |out.data| ==>
              out.data[i] == clusters[Closest(img.data[i], Centers(clusters[..]), clusters.Length)].center
  {
    var outData := new Pixel[|img.data|];
    for i := 0 to |img.data|
      invariant forall t :: 0 <= t < i ==>
                  outData[t] == clusters[Closest(img.data[t], Centers(clusters[..]), clusters.Length)].center
    {
      var nearest := ClosestCenter(img.data[i], clusters);
      outData[i] := clusters[nearest].center;
    }
    out := Image(img.width, img.height, outData[..]);
  }

  /** macqueenClustering: the i-th call of rand() returns draws[i]. The
      palette is the 64 seeded clusters trained on one presentation per
      pixel, and every output pixel is the centre closest to its input
      pixel; numColors is not used. */
  method MacQueenClustering(img: Image, numColors: int, draws: seq<int>) returns (out: Image, ghost palette: seq<Cluster>)
    requires WellFormed(img) && |img.data| <= INT_MAX
    requires |draws| == NUM_FIXED_COLORS + |img.data| && ValidDraws(draws)
    ensures palette == Train(InitialClusters(img.data, draws), img.data, draws[NUM_FIXED_COLORS..])
    ensures out.width == img.width && out.height == img.height && |out.data| == |img.data|
    ensures forall i :: 0 <= i < |out.data| ==>
              out.data[i] == palette[Closest(img.data[i], Centers(palette), |palette|)].center
  {
    var clusters := SeedClusters(img, draws);
    PresentAll(img, clusters, draws[NUM_FIXED_COLORS..]);
    palette := clusters[..];
    out := MapClosest(img, clusters);
  }

  /** computeError: the mean squared error over width * height pixels,
      the same quantity calc_MSE computes. */
  method ComputeError(image1: Image, image2: Image) returns (err: real)
    requires WellFormed(image1) && |image1.data| <= INT_MAX
    requires |image2.data| >= |image1.data|
    ensures err == Mse.MeanSquaredError(image1.data, image2.data)
  {
    var i := 0;
    var total := 0.0;
    var size := image1.width * image1.height;
    while i < size
      invariant 0 <= i <= size
      invariant total == Mse.SumSq(image1.data, image2.data, i)
    {
      var delta := image1.data[i].red - image2.data[i].red;
      delta := delta * delta;
      total := total + delta;
      delta := image1.data[i].green - image2.data[i].green;
      delta := delta * delta;
      total := total + delta;
      delta := image1.data[i].blue - image2.data[i].blue;
      delta := delta * delta;
      total := total + delta;
      i := i + 1;
    }
    err := total / size as real;
  }
}
