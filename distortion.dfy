/**
 * The quantity Lloyd's iteration lowers: the total squared distance of the
 * pixels to the centres of the clusters they are assigned to. A pass first
 * reassigns every pixel to its nearest centre, which cannot raise any
 * pixel's term, and then moves every non-empty cluster to the mean of its
 * pixels, which cannot raise any cluster's share because a mean minimises
 * the sum of squared distances to a list of colours.
 */
module Distortion {
  import opened Colors
  import opened Nearest
  import opened Lloyd

  // ---------------------------------------------------------------------
  // The objective, pixel by pixel and cluster by cluster
  // ---------------------------------------------------------------------

  /** Sum of the squared distances from the colours of ps to c. */
  function Spread(ps: seq<Pixel>, c: Pixel): (s: real)
    ensures s >= 0.0
  {
    if ps == [] then 0.0 else Spread(ps[..|ps| - 1], c) + Dist(ps[|ps| - 1], c)
  }

  lemma {:induction false} SpreadAppend(ps: seq<Pixel>, p: Pixel, c: Pixel)
    ensures Spread(ps + [p], c) == Spread(ps, c) + Dist(p, c)
  {
    assert (ps + [p])[..|ps|] == ps;
  }

  /** The objective over the first n pixels under the assignment a: each
      pixel's squared distance to the centre of its cluster. */
  function Objective(cs: seq<Cluster>, data: seq<Pixel>, a: seq<int>, n: nat): (e: real)
    requires n <= |data| && n <= |a| && Below(a, |cs|, n)
    ensures e >= 0.0
  {
    if n == 0 then 0.0
    else Objective(cs, data, a, n - 1) + Dist(data[n - 1], cs[a[n - 1]].center)
  }

  /** The same objective summed cluster by cluster over clusters 0..k-1. */
  function Grouped(cs: seq<Cluster>, data: seq<Pixel>, a: seq<int>, n: nat, k: nat): real
    requires k <= |cs| && n <= |data| && n <= |a|
  {
    if k == 0 then 0.0
    else Grouped(cs, data, a, n, k - 1) + Spread(Members(data, a, k - 1, n), cs[k - 1].center)
  }

  /** One more pixel adds its distance to the share of its own cluster,
      when that cluster is among the first k. */
  lemma {:induction false} GroupedStep(cs: seq<Cluster>, data: seq<Pixel>, a: seq<int>, n: nat, k: nat)
    requires k <= |cs| && n < |data| && n < |a|
    ensures Grouped(cs, data, a, n + 1, k) ==
      Grouped(cs, data, a, n, k) + (if 0 <= a[n] < k then Dist(data[n], cs[a[n]].center) else 0.0)
    decreases k
  {
    if k > 0 {
      GroupedStep(cs, data, a, n, k - 1);
      if a[n] == k - 1 {
        SpreadAppend(Members(data, a, k - 1, n), data[n], cs[k - 1].center);
      }
    }
  }

  /** Before any pixel, every cluster's share is zero. */
  lemma {:induction false} GroupedEmpty(cs: seq<Cluster>, data: seq<Pixel>, a: seq<int>, k: nat)
    requires k <= |cs|
    ensures Grouped(cs, data, a, 0, k) == 0.0
    decreases k
  {
    if k > 0 {
      GroupedEmpty(cs, data, a, k - 1);
    }
  }

  /** Summing pixel by pixel and cluster by cluster gives the same total:
      every pixel belongs to exactly one cluster. */
  lemma {:induction false} ObjectiveGrouped(cs: seq<Cluster>, data: seq<Pixel>, a: seq<int>, n: nat)
    requires n <= |data| && n <= |a| && Below(a, |cs|, n)
    ensures Objective(cs, data, a, n) == Grouped(cs, data, a, n, |cs|)
    decreases n
  {
    if n == 0 {
      GroupedEmpty(cs, data, a, |cs|);
    } else {
      assert 0 <= a[n - 1] < |cs|;
      ObjectiveGrouped(cs, data, a, n - 1);
      GroupedStep(cs, data, a, n - 1, |cs|);
    }
  }

  // ---------------------------------------------------------------------
  // Reassignment
  // ---------------------------------------------------------------------

  /** Moving every pixel to its nearest centre does not raise the
      objective of any assignment in range. */
  lemma {:induction false} AssignLowersObjectivePrefix(cs: seq<Cluster>, data: seq<Pixel>, a: seq<int>, n: nat)
    requires AllFound(data, Centers(cs))
    requires |a| == |data| && Below(a, |cs|, |a|) && n <= |data|
    ensures Below(Assign(data, Centers(cs)), |cs|, n)
    ensures Objective(cs, data, Assign(data, Centers(cs)), n) <= Objective(cs, data, a, n)
    decreases n
  {
    AssignInRange(data, Centers(cs));
    if n > 0 {
      AssignLowersObjectivePrefix(cs, data, a, n - 1);
      var p := data[n - 1];
      NearestIsLowestArgmin(p, Centers(cs));
      assert Dist(p, Centers(cs)[Assign(data, Centers(cs))[n - 1]]) <= Dist(p, Centers(cs)[a[n - 1]]);
    }
  }

  /** The first half of a Lloyd pass: reassignment never raises the
      objective. */
  lemma {:induction false} AssignLowersObjective(cs: seq<Cluster>, data: seq<Pixel>, a: seq<int>)
    requires AllFound(data, Centers(cs))
    requires |a| == |data| && Below(a, |cs|, |a|)
    ensures Below(Assign(data, Centers(cs)), |cs|, |data|)
    ensures Objective(cs, data, Assign(data, Centers(cs)), |data|) <= Objective(cs, data, a, |data|)
  {
    AssignLowersObjectivePrefix(cs, data, a, |data|);
  }

  // ---------------------------------------------------------------------
  // A mean minimises the spread, one channel at a time
  // ---------------------------------------------------------------------

  /** Channel ch of a colour: 0 red, 1 green, 2 blue. */
  function Chan(p: Pixel, ch: nat): real
  {
    if ch == 0 then p.red else if ch == 1 then p.green else p.blue
  }

  /** Sum of the squared deviations of channel ch of ps from x. */
  function Dev(ps: seq<Pixel>, x: real, ch: nat): real
  {
    if ps == [] then 0.0
    else
      var y := Chan(ps[|ps| - 1], ch) - x;
      Dev(ps[..|ps| - 1], x, ch) + y * y
  }

  /** Sum of channel ch over ps. */
  function ChanSum(ps: seq<Pixel>, ch: nat): real
  {
    if ps == [] then 0.0 else ChanSum(ps[..|ps| - 1], ch) + Chan(ps[|ps| - 1], ch)
  }

  /** The spread is the sum of the three channel deviations. */
  lemma {:induction false} SpreadByChannel(ps: seq<Pixel>, c: Pixel)
    ensures Spread(ps, c) == Dev(ps, c.red, 0) + Dev(ps, c.green, 1) + Dev(ps, c.blue, 2)
    decreases |ps|
  {
    if ps != [] {
      SpreadByChannel(ps[..|ps| - 1], c);
      var p := ps[|ps| - 1];
      assert Chan(p, 0) == p.red && Chan(p, 1) == p.green && Chan(p, 2) == p.blue;
      assert Dist(p, c) == (p.red - c.red) * (p.red - c.red) + (p.green - c.green) * (p.green - c.green)
        + (p.blue - c.blue) * (p.blue - c.blue);
    }
  }

  /** Channel ch of the channel-wise sum is the sum of channel ch. */
  lemma {:induction false} ChanOfSum(ps: seq<Pixel>, ch: nat)
    ensures Chan(SumOf(ps), ch) == ChanSum(ps, ch)
    decreases |ps|
  {
    if ps != [] {
      ChanOfSum(ps[..|ps| - 1], ch);
    }
  }

  /** Moving the reference point from x to m: the deviations from x are
      those from m, plus a cross term that vanishes when m is the mean,
      plus |ps| times the squared shift. */
  lemma {:induction false} ShiftDev(ps: seq<Pixel>, ch: nat, x: real, m: real)
    ensures Dev(ps, x, ch) ==
      Dev(ps, m, ch) + 2.0 * (m - x) * (ChanSum(ps, ch) - |ps| as real * m) + |ps| as real * ((m - x) * (m - x))
    decreases |ps|
  {
    if ps != [] {
      var init := ps[..|ps| - 1];
      ShiftDev(init, ch, x, m);
      var y := Chan(ps[|ps| - 1], ch);
      var e := m - x;
      var u := y - m;
      var n := |init| as real;
      var s := ChanSum(init, ch);
      assert (y - x) * (y - x) == u * u + 2.0 * e * u + e * e;
      assert 2.0 * e * (s - n * m) + 2.0 * e * u == 2.0 * e * (s + y - (n + 1.0) * m);
      assert n * (e * e) + e * e == (n + 1.0) * (e * e);
    }
  }

  /** With m the mean (n * m == s) the cross term vanishes and the shift
      term is non-negative. */
  lemma {:induction false} DropCrossTerm(dx: real, dm: real, e: real, s: real, n: real, m: real)
    requires dx == dm + 2.0 * e * (s - n * m) + n * (e * e)
    requires n * m == s && n >= 0.0
    ensures dm <= dx
  {
    assert s - n * m == 0.0;
    assert 2.0 * e * (s - n * m) == 0.0;
    assert e * e >= 0.0;
    assert n * (e * e) >= 0.0;
  }

  /** No reference value has smaller channel deviations than the channel
      mean. */
  lemma {:induction false} ChannelMeanMinimises(ps: seq<Pixel>, ch: nat, x: real)
    requires |ps| >= 1
    ensures Dev(ps, ChanSum(ps, ch) / |ps| as real, ch) <= Dev(ps, x, ch)
  {
    var n := |ps| as real;
    var m := ChanSum(ps, ch) / n;
    ShiftDev(ps, ch, x, m);
    DropCrossTerm(Dev(ps, x, ch), Dev(ps, m, ch), m - x, ChanSum(ps, ch), n, m);
  }

  /** The mean of a non-empty list of colours has the least spread over
      it of all colours. */
  lemma {:induction false} MeanMinimisesSpread(ps: seq<Pixel>, c: Pixel)
    requires |ps| >= 1
    ensures Spread(ps, Mean(ps)) <= Spread(ps, c)
  {
    var m := Mean(ps);
    SpreadByChannel(ps, c);
    SpreadByChannel(ps, m);
    ChanOfSum(ps, 0);
    ChanOfSum(ps, 1);
    ChanOfSum(ps, 2);
    ChannelMeanMinimises(ps, 0, c.red);
    ChannelMeanMinimises(ps, 1, c.green);
    ChannelMeanMinimises(ps, 2, c.blue);
  }

  // ---------------------------------------------------------------------
  // Recentring
  // ---------------------------------------------------------------------

  /** Cluster by cluster, the recentred palette's share is no larger. */
  lemma {:induction false} RecenterLowersGrouped(cs: seq<Cluster>, data: seq<Pixel>, a: seq<int>, k: nat)
    requires |a| == |data| && Below(a, |cs|, |a|) && k <= |cs|
    ensures Grouped(Recenter(cs, data, a), data, a, |data|, k) <= Grouped(cs, data, a, |data|, k)
    decreases k
  {
    if k > 0 {
      RecenterLowersGrouped(cs, data, a, k - 1);
      RecenterMeans(cs, data, a);
      var ms := Members(data, a, k - 1, |data|);
      if |ms| != 0 {
        MeanMinimisesSpread(ms, cs[k - 1].center);
      }
    }
  }

  /** The second half of a Lloyd pass: moving every non-empty cluster to
      the mean of its pixels never raises the objective of the assignment
      it was computed from. */
  lemma {:induction false} RecenterLowersObjective(cs: seq<Cluster>, data: seq<Pixel>, a: seq<int>)
    requires |a| == |data| && Below(a, |cs|, |a|)
    ensures Objective(Recenter(cs, data, a), data, a, |data|) <= Objective(cs, data, a, |data|)
  {
    ObjectiveGrouped(cs, data, a, |data|);
    ObjectiveGrouped(Recenter(cs, data, a), data, a, |data|);
    RecenterLowersGrouped(cs, data, a, |cs|);
  }

  // ---------------------------------------------------------------------
  // Across passes
  // ---------------------------------------------------------------------

  /** The objective of a palette: every pixel's squared distance to its
      nearest centre. */
  function Distortion(cs: seq<Cluster>, data: seq<Pixel>): (e: real)
    requires AllFound(data, Centers(cs))
    ensures e >= 0.0
  {
    AssignInRange(data, Centers(cs));
    Objective(cs, data, Assign(data, Centers(cs)), |data|)
  }

  /** The palette after one pass of the loop body. */
  function Step(cs: seq<Cluster>, data: seq<Pixel>): (r: seq<Cluster>)
    requires AllFound(data, Centers(cs))
    ensures |r| == |cs|
  {
    AssignInRange(data, Centers(cs));
    Recenter(cs, data, Assign(data, Centers(cs)))
  }

  /** One pass does not raise the distortion, whenever the next pass can
      run at all. */
  lemma {:induction false} StepLowersDistortion(cs: seq<Cluster>, data: seq<Pixel>)
    requires AllFound(data, Centers(cs))
    requires AllFound(data, Centers(Step(cs, data)))
    ensures Distortion(Step(cs, data), data) <= Distortion(cs, data)
  {
    AssignInRange(data, Centers(cs));
    var a := Assign(data, Centers(cs));
    var next := Step(cs, data);
    RecenterLowersObjective(cs, data, a);
    AssignLowersObjective(next, data, a);
  }

  /** The do-while loop ends with a palette whose distortion is no larger
      than that of the palette it started from, provided the final
      palette lets every pixel find a centre. */
  lemma {:induction false} RunLowersDistortion(cs: seq<Cluster>, member: seq<int>, data: seq<Pixel>, iters: nat, maxIters: int)
    requires iters >= 1 ==> |member| == |data|
    ensures var r := Run(cs, member, data, iters, maxIters);
      r.Some? && AllFound(data, Centers(r.value.palette)) ==>
        && AllFound(data, Centers(cs))
        && Distortion(r.value.palette, data) <= Distortion(cs, data)
    decreases if iters < maxIters then maxIters - iters else 0
  {
    var r := Run(cs, member, data, iters, maxIters);
    var palette := Centers(cs);
    if AllFound(data, palette) {
      AssignInRange(data, palette);
      var a := Assign(data, palette);
      var next := Recenter(cs, data, a);
      assert next == Step(cs, data);
      var n := iters + 1;
      var changes := if n == 1 then |data| else Diff(member, a, |data|);
      if 0 < changes && n < maxIters {
        assert r == Run(next, a, data, n, maxIters);
        RunLowersDistortion(next, a, data, n, maxIters);
        if r.Some? && AllFound(data, Centers(r.value.palette)) {
          StepLowersDistortion(cs, data);
        }
      } else {
        assert r == Some(Outcome(next, n));
        if AllFound(data, Centers(next)) {
          StepLowersDistortion(cs, data);
        }
      }
    }
  }
}
