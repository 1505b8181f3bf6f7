/**
 * MacQueen's online k-means over an image: seed the palette by maximin,
 * then present max_pres pixels, chosen quasi-randomly (Sobol points
 * rounded to a row and a column) or pseudo-randomly (bounded_rand over the
 * Mersenne Twister); each presentation moves the nearest centre towards
 * the pixel by the learning rate of the cluster's new size. Finally every
 * pixel is mapped to its nearest centre.
 */
module MacQueen {
  import opened Bits
  import opened Colors
  import opened Nearest
  import opened Mersenne
  import opened Bounded
  import opened Sobol
  import opened Maximin
  import opened Mapping

  // ---------------------------------------------------------------------
  // Choosing the pixel to present
  // ---------------------------------------------------------------------

  /** How far the coordinate v lies from index j. */
  function Offset(v: real, j: int): real
  {
    if v < j as real then j as real - v else v - j as real
  }

  /** `(int) (v + 0.5)` lowered to n - 1 when it reaches n: the index a
      coordinate v in [0, n) rounds to. */
  function RoundIndex(v: real, n: int): (i: int)
    requires n >= 1 && 0.0 <= v < n as real
    ensures 0 <= i < n
  {
    var r := (v + 0.5).Floor;
    if r == n then n - 1 else r
  }

  /** Index i is one of the indices 0 .. n-1 nearest to v. */
  predicate IsNearestIndex(v: real, n: int, i: int)
  {
    forall j :: 0 <= j < n ==> Offset(v, i) <= Offset(v, j)
  }

  /** The rounded index is a nearest index to v among 0 .. n-1. */
  lemma RoundIndexIsNearest(v: real, n: int)
    requires n >= 1 && 0.0 <= v < n as real
    ensures IsNearestIndex(v, n, RoundIndex(v, n))
  {
    var r := (v + 0.5).Floor;
    var i := RoundIndex(v, n);
    assert r as real <= v + 0.5 < r as real + 1.0;
    forall j | 0 <= j < n
      ensures Offset(v, i) <= Offset(v, j)
    {
      if r < n {
        assert i == r && Offset(v, i) <= 0.5;
        if j < i {
          assert v - j as real >= 0.5;
        } else if j > i {
          assert j as real - v > 0.5;
        }
      } else {
        assert i == n - 1 && Offset(v, i) == v - i as real;
        if j < i {
          assert v - j as real >= v - i as real;
        }
      }
    }
  }

  /** A coordinate in [0, 1) scaled by n lies in [0, n). */
  lemma ScaledBelow(y: real, n: int)
    requires 0.0 <= y < 1.0 && n >= 1
    ensures 0.0 <= y * n as real < n as real
  {
    assert n as real - y * n as real == (1.0 - y) * n as real;
  }

  /** Row-major index of (row, col) in an h-by-w image. */
  lemma IndexBelow(row: int, col: int, w: int, h: int)
    requires 0 <= row < h && 0 <= col < w
    ensures 0 <= row * w + col < w * h
  {
    assert row * w <= (h - 1) * w by {
      assert (h - 1) * w - row * w == (h - 1 - row) * w;
    }
    assert (h - 1) * w == w * h - w;
  }

  /** The quasi-random presentation index for the Sobol point (x, y): the
      row rounded from y times the height, the column rounded from x times
      the width. */
  function QuasiIndex(x: real, y: real, w: int, h: int): (r: int)
    requires w >= 1 && h >= 1 && 0.0 <= x < 1.0 && 0.0 <= y < 1.0
    ensures 0 <= r < w * h
  {
    ScaledBelow(y, h);
    ScaledBelow(x, w);
    var row := RoundIndex(y * h as real, h);
    var col := RoundIndex(x * w as real, w);
    IndexBelow(row, col, w, h);
    row * w + col
  }

  /** The pixel a Sobol point selects lies in the row nearest to y times
      the height and the column nearest to x times the width. */
  lemma QuasiIndexIsNearestPixel(x: real, y: real, w: int, h: int)
    requires w >= 1 && h >= 1 && 0.0 <= x < 1.0 && 0.0 <= y < 1.0
    ensures var r := QuasiIndex(x, y, w, h);
      IsNearestIndex(y * h as real, h, r / w) && IsNearestIndex(x * w as real, w, r % w)
  {
    ScaledBelow(y, h);
    ScaledBelow(x, w);
    var row := RoundIndex(y * h as real, h);
    var col := RoundIndex(x * w as real, w);
    DivModUnique(row * w + col, w, row, col);
    RoundIndexIsNearest(y * h as real, h);
    RoundIndexIsNearest(x * w as real, w);
    assert QuasiIndex(x, y, w, h) == row * w + col;
  }

  /** The pixel index chosen from the n-th Sobol point. */
  function QuasiSample(n: nat, w: int, h: int): (r: int)
    requires n < LIMIT && w >= 1 && h >= 1
    ensures 0 <= r < w * h
  {
    QuasiIndex(Point(n).0, Point(n).1, w, h)
  }

  /** samples are the indices rounded from Sobol points n0 + 1, n0 + 2, ...
      in order: the quasi-random presentations made after the generator had
      already been called n0 times. */
  predicate QuasiSamples(samples: seq<int>, n0: nat, w: int, h: int)
  {
    && n0 + |samples| < LIMIT && w >= 1 && h >= 1
    && forall t :: 0 <= t < |samples| ==> samples[t] == QuasiSample(n0 + t + 1, w, h)
  }

  /** The indices of the first n pseudo-random presentations, the
      generator state after them, and whether every one of those draws was
      accepted within its redraw budget (so that each listed value is one
      bounded_rand can return). */
  function PseudoSamples(st: MtState, size: nat, budget: nat, n: nat): (r: (MtState, seq<int>, bool))
    requires ValidState(st) && size < TWO32
    ensures ValidState(r.0) && |r.1| == n
    ensures size >= 1 ==> forall t :: 0 <= t < n ==> 0 <= r.1[t] < size
  {
    if n == 0 then (st, [], true)
    else
      var prev := PseudoSamples(st, size, budget, n - 1);
      var d := BoundedDraw(prev.0, size, budget);
      BoundedDrawInRange(prev.0, size, budget);
      (d.state, prev.1 + [d.value], prev.2 && d.settled)
  }

  /** max_pres: the image size times the sampling rate, truncated. */
  function MaxPres(size: nat, sampleRate: real): (r: int)
    requires 0.0 < sampleRate <= 1.0
    ensures 0 <= r <= size
    ensures sampleRate == 1.0 ==> r == size
  {
    assert size as real - size as real * sampleRate == size as real * (1.0 - sampleRate);
    (size as real * sampleRate).Floor
  }

  // ---------------------------------------------------------------------
  // Presenting a pixel
  // ---------------------------------------------------------------------

  /** The update of the nearest cluster: its centre moves towards p by
      rate, and its size grows by one. */
  function Update(c: Cluster, p: Pixel, rate: real): (r: Cluster)
    ensures r.size == c.size + 1
    ensures rate == 0.0 ==> r.center == c.center
    ensures rate == 1.0 ==> r.center == p
  {
    Cluster(c.size + 1, Pixel(c.center.red + rate * (p.red - c.center.red),
                              c.center.green + rate * (p.green - c.center.green),
                              c.center.blue + rate * (p.blue - c.center.blue)))
  }

  /** One presentation of p: the nearest cluster is updated with the
      learning rate lr(new size); None where the search finds no centre. */
  function Present(cs: seq<Cluster>, p: Pixel, lr: int -> real): Option<seq<Cluster>>
  {
    var k := NearestIndex(p, Centers(cs));
    if k < 0 then None else Some(cs[k := Update(cs[k], p, lr(cs[k].size + 1))])
  }

  /** A presentation fails only when no centre is strictly closer than the
      sentinel; otherwise it changes the nearest cluster alone, grows it by
      one, and so grows the total size by one. */
  lemma PresentUpdatesNearestOnly(cs: seq<Cluster>, p: Pixel, lr: int -> real)
    ensures var r := Present(cs, p, lr);
      && (r.None? <==> forall j :: 0 <= j < |cs| ==> Dist(p, cs[j].center) >= MAX_RGB_DIST)
      && (r.Some? ==>
            var k := NearestIndex(p, Centers(cs));
            && 0 <= k < |cs| && |r.value| == |cs|
            && r.value[k].size == cs[k].size + 1
            && (forall j :: 0 <= j < |cs| && j != k ==> r.value[j] == cs[j])
            && TotalSize(r.value) == TotalSize(cs) + 1)
  {
    var k := NearestIndex(p, Centers(cs));
    NearestIsLowestArgmin(p, Centers(cs));
    if k >= 0 {
      TotalSizeUpdate(cs, k, Update(cs[k], p, lr(cs[k].size + 1)));
    }
  }

  /** The palette after presenting the pixels of data at the given sample
      indices, in order; None once a presentation fails. */
  function Train(cs: seq<Cluster>, data: seq<Pixel>, samples: seq<int>, lr: int -> real): Option<seq<Cluster>>
    requires forall t :: 0 <= t < |samples| ==> 0 <= samples[t] < |data|
  {
    if samples == [] then Some(cs)
    else
      match Train(cs, data, samples[..|samples| - 1], lr)
      case None => None
      case Some(prev) => Present(prev, data[samples[|samples| - 1]], lr)
  }

  /** Every presentation adds one to exactly one cluster: a finished run
      keeps the number of clusters and its total size grows by the number
      of presentations. */
  lemma {:induction false} TrainTotalSize(cs: seq<Cluster>, data: seq<Pixel>, samples: seq<int>, lr: int -> real)
    requires forall t :: 0 <= t < |samples| ==> 0 <= samples[t] < |data|
    ensures Train(cs, data, samples, lr).Some? ==>
      var r := Train(cs, data, samples, lr).value;
      |r| == |cs| && TotalSize(r) == TotalSize(cs) + |samples|
    decreases |samples|
  {
    if samples != [] {
      var init := samples[..|samples| - 1];
      TrainTotalSize(cs, data, init, lr);
      match Train(cs, data, init, lr)
      case None =>
      case Some(prev) =>
        PresentUpdatesNearestOnly(prev, data[samples[|samples| - 1]], lr);
    }
  }

  // ---------------------------------------------------------------------
  // The learning rate 1 / n: exact running means
  // ---------------------------------------------------------------------

  /** With the rate 1/(n+1), moving the mean of n values towards v gives
      the mean of the n + 1 values. */
  lemma RunningMeanChannel(s: real, n: int, v: real)
    requires n >= 1
    ensures s / n as real + (1.0 / (n + 1) as real) * (v - s / n as real) == (s + v) / (n + 1) as real
  {
    var a := n as real;
    var c := s / a;
    var q := 1.0 / (a + 1.0);
    assert c * a == s;
    assert q * (a + 1.0) == 1.0;
    var l := c + q * (v - c);
    assert l * (a + 1.0) == c * (a + 1.0) + (v - c) * (q * (a + 1.0));
    assert l * (a + 1.0) == s + v;
  }

  /** lr_exp = 1 makes the MacQueen update an exact running mean: a cluster
      whose centre is the mean of its |ps| members becomes, after taking p,
      the mean of the members and p. */
  lemma UnitRateIsRunningMean(ps: seq<Pixel>, p: Pixel)
    requires |ps| >= 1
    ensures Update(Cluster(|ps|, Mean(ps)), p, 1.0 / (|ps| + 1) as real) == Cluster(|ps| + 1, Mean(ps + [p]))
  {
    var s := SumOf(ps);
    SumOfAppend(ps, p);
    RunningMeanChannel(s.red, |ps|, p.red);
    RunningMeanChannel(s.green, |ps|, p.green);
    RunningMeanChannel(s.blue, |ps|, p.blue);
  }

  /** Each cluster's centre is the mean of its members, and its size is
      their number. */
  predicate MeansOf(cs: seq<Cluster>, members: seq<seq<Pixel>>)
  {
    && |members| == |cs|
    && forall j :: 0 <= j < |cs| ==>
         |members[j]| == cs[j].size && |members[j]| >= 1 && cs[j].center == Mean(members[j])
  }

  /** The learning rate pow(n, -1). */
  ghost predicate UnitRate(lr: int -> real)
  {
    forall n :: n >= 1 ==> lr(n) == 1.0 / n as real
  }

  /** With lr_exp = 1 a presentation keeps every centre the mean of its
      members: the nearest cluster gains p as a member. */
  lemma PresentKeepsMeans(cs: seq<Cluster>, members: seq<seq<Pixel>>, p: Pixel, lr: int -> real)
    requires MeansOf(cs, members) && UnitRate(lr)
    requires Present(cs, p, lr).Some?
    ensures var k := NearestIndex(p, Centers(cs));
      0 <= k < |cs| && MeansOf(Present(cs, p, lr).value, members[k := members[k] + [p]])
  {
    var k := NearestIndex(p, Centers(cs));
    var ms := members[k := members[k] + [p]];
    var r := Present(cs, p, lr).value;
    assert lr(cs[k].size + 1) == 1.0 / (|members[k]| + 1) as real;
    UnitRateIsRunningMean(members[k], p);
    forall j | 0 <= j < |r|
      ensures |ms[j]| == r[j].size && |ms[j]| >= 1 && r[j].center == Mean(ms[j])
    {
      if j != k {
        assert r[j] == cs[j] && ms[j] == members[j];
      }
    }
  }

  /** The members a run adds to each cluster: each presented pixel joins
      the cluster whose centre the search picks. */
  function TrainMembers(cs: seq<Cluster>, members: seq<seq<Pixel>>, data: seq<Pixel>, samples: seq<int>, lr: int -> real): seq<seq<Pixel>>
    requires forall t :: 0 <= t < |samples| ==> 0 <= samples[t] < |data|
  {
    if samples == [] then members
    else
      var init := samples[..|samples| - 1];
      var ms := TrainMembers(cs, members, data, init, lr);
      match Train(cs, data, init, lr)
      case None => ms
      case Some(prev) =>
        var k := NearestIndex(data[samples[|samples| - 1]], Centers(prev));
        if 0 <= k < |ms| then ms[k := ms[k] + [data[samples[|samples| - 1]]]] else ms
  }

  /** With lr_exp = 1, every centre of a finished run is the exact mean of
      the colours that shaped it: its seed and the pixels it took. */
  lemma {:induction false} TrainKeepsMeans(cs: seq<Cluster>, members: seq<seq<Pixel>>, data: seq<Pixel>, samples: seq<int>, lr: int -> real)
    requires forall t :: 0 <= t < |samples| ==> 0 <= samples[t] < |data|
    requires MeansOf(cs, members) && UnitRate(lr)
    ensures Train(cs, data, samples, lr).Some? ==>
      MeansOf(Train(cs, data, samples, lr).value, TrainMembers(cs, members, data, samples, lr))
    decreases |samples|
  {
    if samples != [] {
      var init := samples[..|samples| - 1];
      TrainKeepsMeans(cs, members, data, init, lr);
      match Train(cs, data, init, lr)
      case None =>
      case Some(prev) =>
        var p := data[samples[|samples| - 1]];
        if Present(prev, p, lr).Some? {
          PresentKeepsMeans(prev, TrainMembers(cs, members, data, init, lr), p, lr);
        }
    }
  }

  // ---------------------------------------------------------------------
  // The algorithm
  // ---------------------------------------------------------------------

  /** A run that presents every sample ends with num_colors clusters whose
      sizes add up to num_colors + the number of presentations; with
      lr_exp = 1 each centre is the mean of its seed and the pixels it took. */
  lemma PaletteOfRun(data: seq<Pixel>, mean: Pixel, k: nat, samples: seq<int>, lr: int -> real)
    requires 1 <= k && |data| >= 1
    requires forall t :: 0 <= t < |samples| ==> 0 <= samples[t] < |data|
    ensures var r := Train(SeededPalette(data, mean, k), data, samples, lr);
      r.Some? ==> |r.value| == k && TotalSize(r.value) == k + |samples|
    ensures var r := Train(SeededPalette(data, mean, k), data, samples, lr);
      var seeds := Seeds(data, mean, k);
      var ms := seq(k, t requires 0 <= t < k => [seeds[t]]);
      r.Some? && UnitRate(lr) ==> MeansOf(r.value, TrainMembers(SeededPalette(data, mean, k), ms, data, samples, lr))
  {
    var init := SeededPalette(data, mean, k);
    TotalSizeOfOnes(init);
    TrainTotalSize(init, data, samples, lr);
    var seeds := Seeds(data, mean, k);
    var ms := seq(k, t requires 0 <= t < k => [seeds[t]]);
    forall j | 0 <= j < k
      ensures |ms[j]| == init[j].size && init[j].center == Mean(ms[j])
    {
      MeanOfSingle(seeds[j]);
    }
    if UnitRate(lr) {
      TrainKeepsMeans(init, ms, data, samples, lr);
    }
  }

  /** The quasi-random choice: the next Sobol point rounded to a row and a
      column. */
  method QuasiChoice(img: Image, sob: SobolSequence) returns (randIndex: int)
    requires WellFormed(img)
    requires sob.Valid() && sob.index < LIMIT - 1
    modifies sob
    ensures sob.Valid() && sob.index == old(sob.index) + 1
    ensures randIndex == QuasiSample(sob.index, img.width, img.height)
    ensures 0 <= randIndex < |img.data|
  {
    var x, y := sob.Next();
    randIndex := QuasiIndex(x, y, img.width, img.height);
  }

  /** The pseudo-random choice: bounded_rand over the image size. */
  method PseudoChoice(img: Image, g: MersenneTwister, budget: nat) returns (randIndex: int, settled: bool)
    requires 1 <= |img.data| < TWO32
    requires g.Valid()
    modifies g, g.mt
    ensures g.Valid()
    ensures var d := BoundedDraw(old(g.State()), |img.data|, budget);
      g.State() == d.state && randIndex == d.value && settled == d.settled
    ensures 0 <= randIndex < |img.data|
  {
    BoundedDrawInRange(g.State(), |img.data|, budget);
    randIndex, settled := BoundedRand(g, |img.data|, budget);
  }

  /** Present one pixel to the palette in place: find the nearest centre
      and move it. Where the search finds no centre the source would
      update entry -INT_MAX; the model reports failure and changes nothing. */
  method UpdateNearest(clusters: array<Cluster>, p: Pixel, lr: int -> real) returns (ok: bool)
    modifies clusters
    ensures ok <==> Present(old(clusters[..]), p, lr).Some?
    ensures ok ==> clusters[..] == Present(old(clusters[..]), p, lr).value
    ensures !ok ==> clusters[..] == old(clusters[..])
  {
    ghost var cs := clusters[..];
    var k := NearestCenter(p, clusters);
    if k < 0 {
      return false;
    }
    var c := clusters[k];
    clusters[k] := Update(c, p, lr(c.size + 1));
    assert clusters[..] == cs[k := Update(cs[k], p, lr(cs[k].size + 1))];
    ok := true;
  }

  /** One more presentation extends a run by one Present. */
  lemma TrainStep(cs: seq<Cluster>, data: seq<Pixel>, samples: seq<int>, x: int, lr: int -> real)
    requires forall t :: 0 <= t < |samples| ==> 0 <= samples[t] < |data|
    requires 0 <= x < |data|
    ensures Train(cs, data, samples + [x], lr) ==
      match Train(cs, data, samples, lr)
      case None => None
      case Some(prev) => Present(prev, data[x], lr)
  {
    assert (samples + [x])[..|samples|] == samples;
  }

  /** One more Sobol choice appends the index rounded from the next point,
      the k-th one. */
  lemma {:induction false} QuasiSamplesStep(samples: seq<int>, n0: nat, k: nat, x: int, w: int, h: int)
    requires QuasiSamples(samples, n0, w, h)
    requires k == n0 + |samples| + 1 && k < LIMIT && x == QuasiSample(k, w, h)
    ensures QuasiSamples(samples + [x], n0, w, h)
  {
    var s := samples + [x];
    forall t | 0 <= t < |s|
      ensures s[t] == QuasiSample(n0 + t + 1, w, h)
    {
      if t < |samples| {
        assert s[t] == samples[t];
      } else {
        assert n0 + t + 1 == k;
      }
    }
  }

  /** The presentation loop with pres_order = 0: maxPres Sobol choices,
      each presented to the palette in place. It stops early only where
      the nearest-centre search finds nothing. */
  method PresentQuasi(img: Image, clusters: array<Cluster>, maxPres: nat, lr: int -> real, sob: SobolSequence)
    returns (ok: bool, ghost samples: seq<int>)
    requires WellFormed(img)
    requires sob.Valid() && sob.index + maxPres < LIMIT
    modifies clusters, sob
    ensures sob.Valid() && sob.index == old(sob.index) + |samples|
    ensures |samples| <= maxPres && (ok ==> |samples| == maxPres)
    ensures QuasiSamples(samples, old(sob.index), img.width, img.height)
    ensures forall t :: 0 <= t < |samples| ==> 0 <= samples[t] < |img.data|
    ensures Train(old(clusters[..]), img.data, samples, lr) == (if ok then Some(clusters[..]) else None)
  {
    ghost var cs := clusters[..];
    ghost var n0 := sob.index;
    samples := [];
    var i := 0;
    while i < maxPres
      invariant 0 <= i <= maxPres && |samples| == i
      invariant sob.Valid() && sob.index == n0 + i
      invariant QuasiSamples(samples, n0, img.width, img.height)
      invariant forall t :: 0 <= t < |samples| ==> 0 <= samples[t] < |img.data|
      invariant Train(cs, img.data, samples, lr) == Some(clusters[..])
    {
      ghost var k := n0 + i + 1;
      var randIndex := QuasiChoice(img, sob);
      TrainStep(cs, img.data, samples, randIndex, lr);
      assert sob.index == k;
      QuasiSamplesStep(samples, n0, k, randIndex, img.width, img.height);
      samples := samples + [randIndex];
      var updated := UpdateNearest(clusters, img.data[randIndex], lr);
      if !updated {
        return false, samples;
      }
      i := i + 1;
    }
    ok := true;
  }

  /** One more draw appends its value and moves the state on. */
  lemma PseudoSamplesStep(st: MtState, size: nat, budget: nat, n: nat)
    requires ValidState(st) && size < TWO32
    ensures var prev := PseudoSamples(st, size, budget, n);
      var d := BoundedDraw(prev.0, size, budget);
      PseudoSamples(st, size, budget, n + 1).0 == d.state &&
      PseudoSamples(st, size, budget, n + 1).1 == prev.1 + [d.value] &&
      PseudoSamples(st, size, budget, n + 1).2 == (prev.2 && d.settled)
  {
  }

  /** One pseudo-random presentation: draw an index with bounded_rand and
      present that pixel in place; settled tells whether the draw was
      accepted within its redraw budget. */
  method PresentDrawn(img: Image, clusters: array<Cluster>, lr: int -> real, g: MersenneTwister, budget: nat)
    returns (ok: bool, settled: bool, ghost randIndex: int)
    requires 1 <= |img.data| < TWO32
    requires g.Valid()
    modifies clusters, g, g.mt
    ensures g.Valid()
    ensures var d := BoundedDraw(old(g.State()), |img.data|, budget);
      g.State() == d.state && randIndex == d.value && settled == d.settled
    ensures 0 <= randIndex < |img.data|
    ensures ok <==> Present(old(clusters[..]), img.data[randIndex], lr).Some?
    ensures ok ==> clusters[..] == Present(old(clusters[..]), img.data[randIndex], lr).value
  {
    var r;
    r, settled := PseudoChoice(img, g, budget);
    ok := UpdateNearest(clusters, img.data[r], lr);
    randIndex := r;
  }

  /** The presentation loop with pres_order != 0: maxPres draws of
      bounded_rand over the image size, each presented in place; settled
      tells whether every draw was accepted within its redraw budget. */
  method PresentPseudo(img: Image, clusters: array<Cluster>, maxPres: nat, lr: int -> real, g: MersenneTwister, budget: nat)
    returns (ok: bool, settled: bool, ghost samples: seq<int>)
    requires 1 <= |img.data| < TWO32
    requires g.Valid()
    modifies clusters, g, g.mt
    ensures g.Valid()
    ensures |samples| <= maxPres && (ok ==> |samples| == maxPres)
    ensures var r := PseudoSamples(old(g.State()), |img.data|, budget, |samples|);
      g.State() == r.0 && samples == r.1 && settled == r.2
    ensures Train(old(clusters[..]), img.data, samples, lr) == (if ok then Some(clusters[..]) else None)
  {
    ghost var cs := clusters[..];
    ghost var st0 := g.State();
    samples := [];
    settled := true;
    var i := 0;
    while i < maxPres
      invariant 0 <= i <= maxPres && |samples| == i
      invariant g.Valid()
      invariant g.State() == PseudoSamples(st0, |img.data|, budget, i).0
      invariant samples == PseudoSamples(st0, |img.data|, budget, i).1
      invariant settled == PseudoSamples(st0, |img.data|, budget, i).2
      invariant Train(cs, img.data, samples, lr) == Some(clusters[..])
    {
      var updated, drawSettled, randIndex := PresentDrawn(img, clusters, lr, g, budget);
      PseudoSamplesStep(st0, |img.data|, budget, i);
      TrainStep(cs, img.data, samples, randIndex, lr);
      samples := samples + [randIndex];
      settled := settled && drawSettled;
      if !updated {
        return false, settled, samples;
      }
      i := i + 1;
    }
    ok := true;
  }

  /** macqueen_cluster: seed by maximin, present max_pres pixels, then map
      the image to the palette. The learning rate pow(n, -lr_exp) is the
      function lr; the redraw budget of bounded_rand is budget. The choice
      between Sobol and Mersenne Twister draws is made once, since
      pres_order does not change during the loop. A run in which some
      pseudo-random draw used up its redraw budget unaccepted ends with
      ok == false. */
  method MacQueenCluster(img: Image, numColors: int, presOrder: int, lr: int -> real,
                         sampleRate: real, mean: Pixel, sob: SobolSequence, g: MersenneTwister, budget: nat)
    returns (out: Image, ok: bool, ghost samples: seq<int>, ghost palette: seq<Cluster>)
    requires WellFormed(img) && |img.data| <= INT_MAX && numColors >= 1
    requires 0.0 < sampleRate <= 1.0
    requires sob.Valid() && g.Valid()
    requires presOrder == 0 ==> sob.index + MaxPres(|img.data|, sampleRate) < LIMIT
    modifies sob, g, g.mt
    ensures sob.Valid() && g.Valid()
    ensures out.width == img.width && out.height == img.height && |out.data| == |img.data|
    ensures |samples| <= MaxPres(|img.data|, sampleRate)
    ensures forall t :: 0 <= t < |samples| ==> 0 <= samples[t] < |img.data|
    ensures presOrder == 0 ==>
      && sob.index == old(sob.index) + |samples|
      && QuasiSamples(samples, old(sob.index), img.width, img.height)
    ensures presOrder != 0 ==>
      var r := PseudoSamples(old(g.State()), |img.data|, budget, |samples|);
      g.State() == r.0 && samples == r.1
    ensures presOrder == 0 ==> g.State() == old(g.State())
    ensures presOrder != 0 ==>
      && sob.index == old(sob.index) && sob.iv == old(sob.iv) && sob.ix1 == old(sob.ix1)
      && sob.ix2 == old(sob.ix2) && sob.initialized == old(sob.initialized)
    ensures var r := Train(SeededPalette(img.data, mean, numColors), img.data, samples, lr);
      var accepted := presOrder == 0 || PseudoSamples(old(g.State()), |img.data|, budget, |samples|).2;
      && (r.Some? ==> |samples| == MaxPres(|img.data|, sampleRate) && palette == r.value)
      && (ok <==> r.Some? && accepted && AllFound(img.data, Centers(palette)))
    ensures ok ==> MapsTo(img.data, Centers(palette), out.data)
  {
    var clusters := new Cluster[numColors];
    Maximin.Maximin(img, clusters, numColors, mean);
    assert clusters[..] == SeededPalette(img.data, mean, numColors);
    var maxPres := MaxPres(|img.data|, sampleRate);
    var presented, settled := false, true;
    if presOrder == 0 {
      presented, samples := PresentQuasi(img, clusters, maxPres, lr, sob);
    } else {
      presented, settled, samples := PresentPseudo(img, clusters, maxPres, lr, g, budget);
    }
    palette := clusters[..];
    if !presented || !settled {
      out := Image(img.width, img.height, seq(|img.data|, _ => Origin));
      return out, false, samples, palette;
    }
    out, ok := MapToPalette(img, clusters);
  }
}
