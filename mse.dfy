/**
 * The error metric of the program: the mean, over the pixels of the first
 * image, of the squared RGB distance to the pixel at the same index in the
 * second image.
 */
module Mse {
  import opened Colors

  /** The channel-wise squared differences of the first n pixel pairs. */
  function SumSq(a: seq<Pixel>, b: seq<Pixel>, n: nat): (s: real)
    requires n <= |a| && n <= |b|
    ensures s >= 0.0
  {
    if n == 0 then 0.0 else SumSq(a, b, n - 1) + Dist(a[n - 1], b[n - 1])
  }

  /** The mean squared error of a against the first |a| pixels of b. */
  function MeanSquaredError(a: seq<Pixel>, b: seq<Pixel>): real
    requires 1 <= |a| <= |b|
  {
    SumSq(a, b, |a|) / |a| as real
  }

  /** The error is never negative. */
  lemma MseNonNegative(a: seq<Pixel>, b: seq<Pixel>)
    requires 1 <= |a| <= |b|
    ensures MeanSquaredError(a, b) >= 0.0
  {
    var s := SumSq(a, b, |a|);
    var n := |a| as real;
    assert s >= 0.0 && n > 0.0;
    assert s / n * n == s;
  }

  /** The sum does not depend on the order of the two images. */
  lemma {:induction false} SumSqSymmetric(a: seq<Pixel>, b: seq<Pixel>, n: nat)
    requires n <= |a| && n <= |b|
    ensures SumSq(a, b, n) == SumSq(b, a, n)
    decreases n
  {
    if n > 0 {
      SumSqSymmetric(a, b, n - 1);
      DistSymmetric(a[n - 1], b[n - 1]);
    }
  }

  /** Two images of the same size have the same error either way round. */
  lemma MseSymmetric(a: seq<Pixel>, b: seq<Pixel>)
    requires 1 <= |a| == |b|
    ensures MeanSquaredError(a, b) == MeanSquaredError(b, a)
  {
    SumSqSymmetric(a, b, |a|);
  }

  /** Pairs of equal pixels add nothing to the sum. */
  lemma {:induction false} SumSqOfEqual(a: seq<Pixel>, b: seq<Pixel>, n: nat)
    requires n <= |a| && n <= |b|
    requires a[..n] == b[..n]
    ensures SumSq(a, b, n) == 0.0
    decreases n
  {
    if n > 0 {
      assert a[..n - 1] == a[..n][..n - 1] == b[..n][..n - 1] == b[..n - 1];
      SumSqOfEqual(a, b, n - 1);
      assert a[n - 1] == a[..n][n - 1] == b[..n][n - 1] == b[n - 1];
    }
  }

  /** An image compared with itself, or with any image that starts with the
      same pixels, has error zero. */
  lemma MseOfEqual(a: seq<Pixel>, b: seq<Pixel>)
    requires 1 <= |a| <= |b|
    requires a == b[..|a|]
    ensures MeanSquaredError(a, b) == 0.0
  {
    assert a[..|a|] == a;
    SumSqOfEqual(a, b, |a|);
  }

  /** calc_MSE: add up the three squared channel differences of every pixel
      pair, then divide by the number of pixels of the first image. */
  method CalcMse(img1: Image, img2: Image) returns (mse: real)
    requires 1 <= |img1.data| <= |img2.data|
    ensures mse == MeanSquaredError(img1.data, img2.data)
  {
    var total := 0.0;
    var i := 0;
    while i < |img1.data|
      invariant 0 <= i <= |img1.data|
      invariant total == SumSq(img1.data, img2.data, i)
    {
      var p, q := img1.data[i], img2.data[i];
      var delta := p.red - q.red;
      total := total + delta * delta;
      delta := p.green - q.green;
      total := total + delta * delta;
      delta := p.blue - q.blue;
      total := total + delta * delta;
      i := i + 1;
    }
    mse := total / |img1.data| as real;
  }
}
