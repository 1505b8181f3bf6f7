/**
 * Lloyd's batch k-means over an image: seed the palette by maximin, then
 * repeat (at least once) a pass that assigns every pixel to its nearest
 * centre, sums the pixels of each cluster and moves every non-empty
 * cluster's centre to the mean of its pixels. The loop stops when a pass
 * changes no assignment or after max_iters passes; the first pass counts
 * every pixel as changed. Finally every pixel is mapped to its nearest
 * centre.
 */
module Lloyd {
  import opened Colors
  import opened Nearest
  import opened Maximin
  import opened Mapping

  // ---------------------------------------------------------------------
  // One pass, as functions
  // ---------------------------------------------------------------------

  /** The member array of a pass: the index the nearest-centre search
      picks for every pixel. */
  function Assign(data: seq<Pixel>, palette: seq<Pixel>): (a: seq<int>)
    ensures |a| == |data|
    ensures forall i :: 0 <= i < |data| ==> a[i] == NearestIndex(data[i], palette)
  {
    seq(|data|, i requires 0 <= i < |data| => NearestIndex(data[i], palette))
  }

  /** When every pixel finds a centre, every member index names one. */
  lemma AssignInRange(data: seq<Pixel>, palette: seq<Pixel>)
    requires AllFound(data, palette)
    ensures forall i :: 0 <= i < |data| ==> 0 <= Assign(data, palette)[i] < |palette|
  {
    forall i | 0 <= i < |data|
      ensures 0 <= Assign(data, palette)[i] < |palette|
    {
      assert Assign(data, palette)[i] == Scan(data[i], palette, |palette|).1;
    }
  }

  /** Member indices that all name one of k clusters. */
  predicate Below(a: seq<int>, k: nat, n: nat)
    requires n <= |a|
  {
    forall t :: 0 <= t < n ==> 0 <= a[t] < k
  }

  /** The accumulators tmp_clusters after the first n pixels: all zero
      after the reset, then each pixel adds itself to the channel sums of
      its cluster and one to its size. */
  function Acc(data: seq<Pixel>, a: seq<int>, k: nat, n: nat): (acc: seq<Cluster>)
    requires n <= |data| && n <= |a| && Below(a, k, n)
    ensures |acc| == k
  {
    if n == 0 then seq(k, _ => Cluster(0, Origin))
    else
      var prev := Acc(data, a, k, n - 1);
      var j := a[n - 1];
      prev[j := Cluster(prev[j].size + 1, Plus(prev[j].center, data[n - 1]))]
  }

  /** Pixel n adds itself to the accumulator of its cluster a[n]. */
  lemma AccStep(data: seq<Pixel>, a: seq<int>, k: nat, n: nat)
    requires n < |data| && n < |a| && Below(a, k, n + 1)
    ensures var prev := Acc(data, a, k, n);
      Acc(data, a, k, n + 1) == prev[a[n] := Cluster(prev[a[n]].size + 1, Plus(prev[a[n]].center, data[n]))]
  {
  }

  /** The pixels among the first n that belong to cluster j, in order. */
  function Members(data: seq<Pixel>, a: seq<int>, j: int, n: nat): seq<Pixel>
    requires n <= |data| && n <= |a|
  {
    if n == 0 then []
    else if a[n - 1] == j then Members(data, a, j, n - 1) + [data[n - 1]]
    else Members(data, a, j, n - 1)
  }

  /** Each accumulator holds the number and the channel sum of its
      cluster's pixels. */
  lemma {:induction false} AccIsMembers(data: seq<Pixel>, a: seq<int>, k: nat, n: nat)
    requires n <= |data| && n <= |a| && Below(a, k, n)
    ensures forall j :: 0 <= j < k ==>
      Acc(data, a, k, n)[j] == Cluster(|Members(data, a, j, n)|, SumOf(Members(data, a, j, n)))
    decreases n
  {
    if n > 0 {
      AccIsMembers(data, a, k, n - 1);
      forall j | 0 <= j < k
        ensures Acc(data, a, k, n)[j] == Cluster(|Members(data, a, j, n)|, SumOf(Members(data, a, j, n)))
      {
        if a[n - 1] == j {
          SumOfAppend(Members(data, a, j, n - 1), data[n - 1]);
        }
      }
    }
  }

  /** The accumulator sizes add up to the number of pixels seen: every
      pixel lands in exactly one cluster. */
  lemma {:induction false} AccSizesSum(data: seq<Pixel>, a: seq<int>, k: nat, n: nat)
    requires n <= |data| && n <= |a| && Below(a, k, n)
    ensures TotalSize(Acc(data, a, k, n)) == n
    decreases n
  {
    if n == 0 {
      ZeroSizes(k);
    } else {
      AccSizesSum(data, a, k, n - 1);
      var prev := Acc(data, a, k, n - 1);
      var j := a[n - 1];
      TotalSizeUpdate(prev, j, Cluster(prev[j].size + 1, Plus(prev[j].center, data[n - 1])));
    }
  }

  /** A palette of empty accumulators has total size 0. */
  lemma {:induction false} ZeroSizes(k: nat)
    ensures TotalSize(seq(k, _ => Cluster(0, Origin))) == 0
    decreases k
  {
    if k > 0 {
      var z := seq(k, _ => Cluster(0, Origin));
      assert z[..k - 1] == seq(k - 1, _ => Cluster(0, Origin));
      ZeroSizes(k - 1);
    }
  }

  /** The centre update: every cluster whose accumulator is non-empty gets
      the accumulator's mean as centre (its size is left alone); an empty
      cluster keeps its centre. */
  function Recentered(cs: seq<Cluster>, acc: seq<Cluster>): (r: seq<Cluster>)
    requires |acc| == |cs|
    ensures |r| == |cs|
  {
    seq(|cs|, j requires 0 <= j < |cs| =>
      if acc[j].size != 0 then Cluster(cs[j].size, Divide(acc[j].center, acc[j].size)) else cs[j])
  }

  /** The palette after a pass that assigned the pixels by a. */
  function Recenter(cs: seq<Cluster>, data: seq<Pixel>, a: seq<int>): (r: seq<Cluster>)
    requires |a| == |data| && Below(a, |cs|, |a|)
    ensures |r| == |cs|
  {
    Recentered(cs, Acc(data, a, |cs|, |data|))
  }

  /** Empty clusters keep their previous centre; every other cluster keeps
      its size and moves to the mean of the pixels assigned to it. */
  lemma RecenterMeans(cs: seq<Cluster>, data: seq<Pixel>, a: seq<int>)
    requires |a| == |data| && Below(a, |cs|, |a|)
    ensures forall j :: 0 <= j < |cs| && |Members(data, a, j, |data|)| == 0 ==>
      Recenter(cs, data, a)[j] == cs[j]
    ensures forall j :: 0 <= j < |cs| && |Members(data, a, j, |data|)| != 0 ==>
      Recenter(cs, data, a)[j] == Cluster(cs[j].size, Mean(Members(data, a, j, |data|)))
  {
    AccIsMembers(data, a, |cs|, |data|);
  }

  /** A second centre update with the same assignment changes nothing. */
  lemma RecenterIdempotent(cs: seq<Cluster>, data: seq<Pixel>, a: seq<int>)
    requires |a| == |data| && Below(a, |cs|, |a|)
    ensures Recenter(Recenter(cs, data, a), data, a) == Recenter(cs, data, a)
  {
    var acc := Acc(data, a, |cs|, |data|);
    var r := Recentered(cs, acc);
    assert Recenter(r, data, a) == Recentered(r, acc);
    forall j | 0 <= j < |cs|
      ensures Recentered(r, acc)[j] == r[j]
    {
    }
  }

  /** num_changes of a later pass: how many of the first n pixels moved
      to another cluster. */
  function Diff(prev: seq<int>, a: seq<int>, n: nat): (c: nat)
    requires n <= |prev| && n <= |a|
    ensures c <= n
  {
    if n == 0 then 0
    else Diff(prev, a, n - 1) + (if prev[n - 1] != a[n - 1] then 1 else 0)
  }

  /** No pixel changed exactly when the two assignments agree. */
  lemma {:induction false} DiffZero(prev: seq<int>, a: seq<int>, n: nat)
    requires n <= |prev| && n <= |a|
    ensures Diff(prev, a, n) == 0 <==> prev[..n] == a[..n]
    decreases n
  {
    if n > 0 {
      DiffZero(prev, a, n - 1);
      assert prev[..n] == prev[..n - 1] + [prev[n - 1]];
      assert a[..n] == a[..n - 1] + [a[n - 1]];
      if prev[..n] == a[..n] {
        assert prev[..n - 1] == prev[..n][..n - 1];
        assert a[..n - 1] == a[..n][..n - 1];
        assert prev[n - 1] == prev[..n][n - 1];
      }
    }
  }

  // ---------------------------------------------------------------------
  // The whole loop, as a function
  // ---------------------------------------------------------------------

  /** How the clustering loop ends: the palette and num_iters. */
  datatype Outcome = Outcome(palette: seq<Cluster>, iters: nat)

  /** The do-while loop from a palette cs, the member array of the last
      pass and the number of passes done so far. None where a pass meets a
      pixel for which the search finds no centre (the source would then
      index tmp_clusters[-INT_MAX]). */
  function Run(cs: seq<Cluster>, member: seq<int>, data: seq<Pixel>, iters: nat, maxIters: int): (r: Option<Outcome>)
    requires iters >= 1 ==> |member| == |data|
    ensures r.Some? ==> |r.value.palette| == |cs|
    decreases if iters < maxIters then maxIters - iters else 0
  {
    var palette := Centers(cs);
    if !AllFound(data, palette) then None
    else
      AssignInRange(data, palette);
      var a := Assign(data, palette);
      var next := Recenter(cs, data, a);
      var n := iters + 1;
      var changes := if n == 1 then |data| else Diff(member, a, |data|);
      if 0 < changes && n < maxIters then Run(next, a, data, n, maxIters)
      else Some(Outcome(next, n))
  }

  /** The loop runs at least one pass and no more than max_iters (one when
      max_iters is below 1). */
  lemma {:induction false} RunIterations(cs: seq<Cluster>, member: seq<int>, data: seq<Pixel>, iters: nat, maxIters: int)
    requires iters >= 1 ==> |member| == |data|
    ensures var r := Run(cs, member, data, iters, maxIters);
      r.Some? ==> iters < r.value.iters && (r.value.iters <= maxIters || r.value.iters == iters + 1)
    decreases if iters < maxIters then maxIters - iters else 0
  {
    var palette := Centers(cs);
    if AllFound(data, palette) {
      AssignInRange(data, palette);
      var a := Assign(data, palette);
      var n := iters + 1;
      var changes := if n == 1 then |data| else Diff(member, a, |data|);
      if 0 < changes && n < maxIters {
        RunIterations(Recenter(cs, data, a), a, data, n, maxIters);
      }
    }
  }

  /** What holds of the palette between passes: the centre update with the
      last assignment would leave it as it is. */
  predicate Settled(cs: seq<Cluster>, member: seq<int>, data: seq<Pixel>, iters: nat)
  {
    iters >= 1 ==> |member| == |data| && Below(member, |cs|, |member|) && Recenter(cs, data, member) == cs
  }

  /** A loop that stops before max_iters has reached a fixed point of
      Lloyd's iteration: every pixel still finds a centre, and a further
      pass would reassign nothing and move no centre. */
  lemma {:induction false} RunStopsAtFixedPoint(cs: seq<Cluster>, member: seq<int>, data: seq<Pixel>, iters: nat, maxIters: int)
    requires Settled(cs, member, data, iters)
    ensures var r := Run(cs, member, data, iters, maxIters);
      r.Some? && r.value.iters < maxIters ==>
        && AllFound(data, Centers(r.value.palette))
        && Below(Assign(data, Centers(r.value.palette)), |r.value.palette|, |data|)
        && Recenter(r.value.palette, data, Assign(data, Centers(r.value.palette))) == r.value.palette
    decreases if iters < maxIters then maxIters - iters else 0
  {
    var r := Run(cs, member, data, iters, maxIters);
    var palette := Centers(cs);
    if !AllFound(data, palette) {
      assert r == None;
      return;
    }
    AssignInRange(data, palette);
    var a := Assign(data, palette);
    var next := Recenter(cs, data, a);
    var n := iters + 1;
    var changes := if n == 1 then |data| else Diff(member, a, |data|);
    RecenterIdempotent(cs, data, a);
    if 0 < changes && n < maxIters {
      assert r == Run(next, a, data, n, maxIters);
      RunStopsAtFixedPoint(next, a, data, n, maxIters);
    } else {
      assert r == Some(Outcome(next, n));
      if n < maxIters {
        if n == 1 {
          assert a == [] == member[..0];
        } else {
          DiffZero(member, a, |data|);
          assert member == member[..|data|] == a[..|data|] == a;
        }
        assert next == cs;
        assert Assign(data, Centers(next)) == a;
      }
    }
  }

  // ---------------------------------------------------------------------
  // The algorithm
  // ---------------------------------------------------------------------

  /** Reset the accumulators to zero sums and sizes. */
  method ResetAccumulators(tmp: array<Cluster>)
    modifies tmp
    ensures tmp[..] == seq(tmp.Length, _ => Cluster(0, Origin))
  {
    for j := 0 to tmp.Length
      invariant forall t :: 0 <= t < j ==> tmp[t] == Cluster(0, Origin)
    {
      tmp[j] := Cluster(0, Origin);
    }
  }

  /** Record pixel i's nearest index in member; it counts as a change on
      the first pass or when it differs from the one recorded before. */
  method Record(member: array<int>, i: int, k: int, first: bool) returns (changed: bool)
    requires 0 <= i < member.Length
    modifies member
    ensures member[..] == old(member[..])[i := k]
    ensures changed <==> first || old(member[i]) != k
  {
    changed := first || member[i] != k;
    if changed {
      member[i] := k;
    }
  }

  /** Add pixel p to accumulator k: its size grows by one and p joins its
      channel sums. */
  method AddPixel(tmp: array<Cluster>, k: int, p: Pixel)
    requires 0 <= k < tmp.Length
    modifies tmp
    ensures var c := old(tmp[..])[k]; tmp[..] == old(tmp[..])[k := Cluster(c.size + 1, Plus(c.center, p))]
  {
    var c := tmp[k];
    tmp[k] := Cluster(c.size + 1, Plus(c.center, p));
  }

  /** The work of the pass for pixel i: search the palette, record the
      index and add the pixel to its accumulator. Nothing changes where
      the search finds no centre. a is the assignment of the whole pass. */
  method VisitPixel(img: Image, clusters: array<Cluster>, tmp: array<Cluster>, member: array<int>, i: int, first: bool,
                    ghost palette: seq<Pixel>, ghost a: seq<int>, ghost m: seq<int>)
    returns (k: int, changed: bool)
    requires tmp != clusters && tmp.Length == clusters.Length && 0 <= i < member.Length == |img.data| == |a|
    requires palette == Centers(clusters[..]) && a[i] == NearestIndex(img.data[i], palette)
    requires Below(a, tmp.Length, i) && tmp[..] == Acc(img.data, a, tmp.Length, i)
    requires member[..] == m
    modifies tmp, member
    ensures k == a[i]
    ensures k >= 0 ==> Below(a, tmp.Length, i + 1) && tmp[..] == Acc(img.data, a, tmp.Length, i + 1)
    ensures k >= 0 ==> member[..] == m[i := k] && changed == (first || m[i] != k)
  {
    var p := img.data[i];
    k := NearestCenter(p, clusters);
    if k < 0 {
      return k, false;
    }
    assert k == Scan(p, Centers(clusters[..]), clusters.Length).1;
    assert member[i] == m[i];
    changed := Record(member, i, k, first);
    AccStep(img.data, a, tmp.Length, i);
    AddPixel(tmp, k, p);
  }

  /** The pixel loop of a pass, from zeroed accumulators: visit the pixels
      in order until one finds no centre. a is the assignment of the whole
      pass. */
  method VisitAll(img: Image, clusters: array<Cluster>, tmp: array<Cluster>, member: array<int>, first: bool,
                  ghost palette: seq<Pixel>, ghost a: seq<int>)
    returns (changes: int, ok: bool)
    requires tmp != clusters && tmp.Length == clusters.Length && member.Length == |img.data| == |a|
    requires palette == Centers(clusters[..])
    requires forall t {:trigger NearestIndex(img.data[t], palette)} :: 0 <= t < |a| ==> a[t] == NearestIndex(img.data[t], palette)
    requires tmp[..] == Acc(img.data, a, tmp.Length, 0)
    modifies tmp, member
    ensures ok <==> forall t :: 0 <= t < |a| ==> a[t] >= 0
    ensures ok ==> Below(a, tmp.Length, |a|) && member[..] == a
    ensures ok ==> tmp[..] == Acc(img.data, a, tmp.Length, |a|)
    ensures ok ==> changes == if first then |a| else Diff(old(member[..]), a, |a|)
  {
    ghost var prev := member[..];
    var n := |img.data|;
    changes := 0;
    ghost var m := prev;
    var i := 0;
    while i < n
      invariant 0 <= i <= n
      invariant Below(a, tmp.Length, i)
      invariant member[..] == m && |m| == n
      invariant forall t :: 0 <= t < i ==> m[t] == a[t]
      invariant forall t :: i <= t < n ==> m[t] == prev[t]
      invariant tmp[..] == Acc(img.data, a, tmp.Length, i)
      invariant changes == if first then i else Diff(prev, a, i)
    {
      var k, changed := VisitPixel(img, clusters, tmp, member, i, first, palette, a, m);
      if k < 0 {
        return changes, false;
      }
      assert changed == (first || prev[i] != a[i]);
      assert Diff(prev, a, i + 1) == Diff(prev, a, i) + (if prev[i] != a[i] then 1 else 0);
      m := m[i := k];
      if changed {
        changes := changes + 1;
      }
      i := i + 1;
    }
    assert m == a;
    ok := true;
  }

  /** The assignment half of a pass: reset the accumulators, then for
      every pixel search the palette, record the index in member (counting
      it as a change on the first pass or when it differs) and add the
      pixel to its accumulator. */
  method Reassign(img: Image, clusters: array<Cluster>, tmp: array<Cluster>, member: array<int>, first: bool)
    returns (changes: int, ok: bool)
    requires tmp != clusters && tmp.Length == clusters.Length && member.Length == |img.data|
    modifies tmp, member
    ensures ok <==> AllFound(img.data, Centers(clusters[..]))
    ensures ok ==> member[..] == Assign(img.data, Centers(clusters[..]))
    ensures ok ==> Below(member[..], tmp.Length, member.Length)
    ensures ok ==> tmp[..] == Acc(img.data, member[..], tmp.Length, |img.data|)
    ensures ok ==> changes == if first then |img.data| else Diff(old(member[..]), member[..], |img.data|)
  {
    ghost var palette := Centers(clusters[..]);
    ghost var a := Assign(img.data, palette);
    ResetAccumulators(tmp);
    changes, ok := VisitAll(img, clusters, tmp, member, first, palette, a);
  }

  /** The centre half of a pass: every cluster with a non-empty
      accumulator moves to the accumulator's mean. */
  method UpdateCenters(clusters: array<Cluster>, tmp: array<Cluster>)
    requires tmp != clusters && tmp.Length == clusters.Length
    modifies clusters
    ensures clusters[..] == Recentered(old(clusters[..]), tmp[..])
  {
    for j := 0 to clusters.Length
      invariant forall t :: 0 <= t < j ==> clusters[t] == Recentered(old(clusters[..]), tmp[..])[t]
      invariant forall t :: j <= t < clusters.Length ==> clusters[t] == old(clusters[t])
    {
      var size := tmp[j].size;
      if size != 0 {
        clusters[j] := Cluster(clusters[j].size, Divide(tmp[j].center, size));
      }
    }
  }

  /** One pass of the do-while body: reassign every pixel, then move the
      centres. ok is false, where the search finds no centre for some
      pixel. */
  method LloydPass(img: Image, clusters: array<Cluster>, tmp: array<Cluster>, member: array<int>, first: bool)
    returns (changes: int, ok: bool)
    requires tmp != clusters && tmp.Length == clusters.Length && member.Length == |img.data|
    modifies clusters, tmp, member
    ensures ok <==> AllFound(img.data, Centers(old(clusters[..])))
    ensures ok ==> member[..] == Assign(img.data, Centers(old(clusters[..])))
    ensures ok ==> Below(member[..], clusters.Length, |img.data|)
    ensures ok ==> clusters[..] == Recenter(old(clusters[..]), img.data, member[..])
    ensures ok ==> changes == if first then |img.data| else Diff(old(member[..]), member[..], |img.data|)
  {
    changes, ok := Reassign(img, clusters, tmp, member, first);
    if ok {
      UpdateCenters(clusters, tmp);
    }
  }

  /** One unfolding of Run: the pass from cs, and where the loop goes next. */
  lemma RunUnfold(cs: seq<Cluster>, member: seq<int>, data: seq<Pixel>, iters: nat, maxIters: int)
    requires iters >= 1 ==> |member| == |data|
    ensures !AllFound(data, Centers(cs)) ==> Run(cs, member, data, iters, maxIters) == None
    ensures AllFound(data, Centers(cs)) ==>
      var a := Assign(data, Centers(cs));
      && Below(a, |cs|, |data|)
      && var next := Recenter(cs, data, a);
         var changes := if iters + 1 == 1 then |data| else Diff(member, a, |data|);
         Run(cs, member, data, iters, maxIters) ==
           if 0 < changes && iters + 1 < maxIters then Run(next, a, data, iters + 1, maxIters)
           else Some(Outcome(next, iters + 1))
  {
    if AllFound(data, Centers(cs)) {
      AssignInRange(data, Centers(cs));
    }
  }

  /** The do-while loop of lloyd_cluster: passes until one changes no
      assignment or max_iters passes are done. ok is false where a pass
      meets a pixel for which the search finds no centre. */
  method Iterate(img: Image, clusters: array<Cluster>, tmp: array<Cluster>, member: array<int>, maxIters: int)
    returns (numIters: nat, ok: bool)
    requires tmp != clusters && tmp.Length == clusters.Length && member.Length == |img.data|
    modifies clusters, tmp, member
    ensures var r := Run(old(clusters[..]), old(member[..]), img.data, 0, maxIters);
      (ok <==> r.Some?) && (ok ==> r.value == Outcome(clusters[..], numIters))
  {
    ghost var r := Run(clusters[..], member[..], img.data, 0, maxIters);
    numIters := 0;
    while true
      invariant numIters == 0 || numIters < maxIters
      invariant r == Run(clusters[..], member[..], img.data, numIters, maxIters)
      decreases (if maxIters >= 1 then maxIters else 1) - numIters
    {
      RunUnfold(clusters[..], member[..], img.data, numIters, maxIters);
      numIters := numIters + 1;
      var changes, found := LloydPass(img, clusters, tmp, member, numIters == 1);
      if !found {
        return numIters, false;
      }
      if !(0 < changes && numIters < maxIters) {
        return numIters, true;
      }
    }
  }

  /** lloyd_cluster: seed by maximin, run passes until one changes nothing
      or max_iters passes are done, then map the image to the palette. */
  method LloydCluster(img: Image, numColors: int, maxIters: int, mean: Pixel)
    returns (out: Image, ok: bool, ghost iters: nat, ghost palette: seq<Cluster>)
    requires WellFormed(img) && numColors >= 1
    ensures out.width == img.width && out.height == img.height && |out.data| == |img.data|
    ensures var r := Run(SeededPalette(img.data, mean, numColors), [], img.data, 0, maxIters);
      && (r.Some? ==> palette == r.value.palette && iters == r.value.iters)
      && (ok <==> r.Some? && AllFound(img.data, Centers(palette)))
    ensures ok ==> MapsTo(img.data, Centers(palette), out.data)
  {
    var clusters := new Cluster[numColors];
    var tmp := new Cluster[numColors];
    var member := new int[|img.data|];
    Maximin.Maximin(img, clusters, numColors, mean);
    assert clusters[..] == SeededPalette(img.data, mean, numColors);
    RunUnfold(clusters[..], member[..], img.data, 0, maxIters);
    RunUnfold(clusters[..], [], img.data, 0, maxIters);
    var numIters, converged := Iterate(img, clusters, tmp, member, maxIters);
    iters := numIters;
    palette := clusters[..];
    if !converged {
      out := Image(img.width, img.height, seq(|img.data|, _ => Origin));
      return out, false, iters, palette;
    }
    out, ok := MapToPalette(img, clusters);
  }
}
