/**
 * Pixels, clusters and the squared RGB distance shared by every part of the
 * clustering engine. Channels are exact reals: the double rounding of the
 * original is not modelled.
 */
module Colors {

  /** Maximum possible squared RGB distance, 3 * 255 * 255; used as the
      "no match yet" sentinel of every nearest-centre search. */
  const MAX_RGB_DIST: real := 195075.0

  /** C's INT_MAX on the platforms the program targets; -INT_MAX is the
      "no centre found" index of a nearest-centre search. */
  const INT_MAX: int := 2147483647

  datatype Pixel = Pixel(red: real, green: real, blue: real)

  /** A result that may be missing: None where the source would index a
      palette entry that does not exist. */
  datatype Option<T> = None | Some(value: T)

  /** A palette entry: how many samples shaped it, and its centre. */
  datatype Cluster = Cluster(size: int, center: Pixel)

  /** An image: its dimensions and its pixels in row-major order. */
  datatype Image = Image(width: int, height: int, data: seq<Pixel>)

  /** The shape every image read by the program has. */
  predicate WellFormed(img: Image)
  {
    img.width >= 1 && img.height >= 1 && |img.data| == img.width * img.height
  }

  /** Squared Euclidean distance over the three channels. */
  function Dist(p: Pixel, q: Pixel): (d: real)
    ensures d >= 0.0
    ensures p == q ==> d == 0.0
  {
    var dr := p.red - q.red;
    var dg := p.green - q.green;
    var db := p.blue - q.blue;
    dr * dr + dg * dg + db * db
  }

  lemma DistSymmetric(p: Pixel, q: Pixel)
    ensures Dist(p, q) == Dist(q, p)
  {
  }

  /** A channel value an 8-bit image can hold. */
  predicate InRange(c: real)
  {
    0.0 <= c <= 255.0
  }

  /** A colour inside the RGB cube [0,255]^3. */
  predicate InCube(p: Pixel)
  {
    InRange(p.red) && InRange(p.green) && InRange(p.blue)
  }

  predicate AllInCube(ps: seq<Pixel>)
  {
    forall i :: 0 <= i < |ps| ==> InCube(ps[i])
  }

  lemma ChannelDistBound(a: real, b: real)
    requires InRange(a) && InRange(b)
    ensures (a - b) * (a - b) <= 255.0 * 255.0
  {
    var d := a - b;
    assert -255.0 <= d <= 255.0;
    if d >= 0.0 {
      assert d * d <= 255.0 * d <= 255.0 * 255.0;
    } else {
      assert d * d == (-d) * (-d) <= 255.0 * (-d) <= 255.0 * 255.0;
    }
  }

  /** Inside the RGB cube no two colours are further apart than the sentinel. */
  lemma DistBounded(p: Pixel, q: Pixel)
    requires InCube(p) && InCube(q)
    ensures Dist(p, q) <= MAX_RGB_DIST
  {
    ChannelDistBound(p.red, q.red);
    ChannelDistBound(p.green, q.green);
    ChannelDistBound(p.blue, q.blue);
  }

  /** The centres of a palette, in palette order. */
  function Centers(cs: seq<Cluster>): (ps: seq<Pixel>)
    ensures |ps| == |cs|
    ensures forall j :: 0 <= j < |cs| ==> ps[j] == cs[j].center
  {
    seq(|cs|, j requires 0 <= j < |cs| => cs[j].center)
  }

  /** Sum of the sizes of a palette. */
  function TotalSize(cs: seq<Cluster>): int
  {
    if cs == [] then 0 else TotalSize(cs[..|cs| - 1]) + cs[|cs| - 1].size
  }

  /** Changing one entry of a palette changes its total size by the
      difference of the two sizes. */
  lemma {:induction false} TotalSizeUpdate(cs: seq<Cluster>, j: int, c: Cluster)
    requires 0 <= j < |cs|
    ensures TotalSize(cs[j := c]) == TotalSize(cs) - cs[j].size + c.size
    decreases |cs|
  {
    var n := |cs| - 1;
    if j < n {
      assert cs[j := c][..n] == cs[..n][j := c];
      TotalSizeUpdate(cs[..n], j, c);
    } else {
      assert cs[j := c][..n] == cs[..n];
    }
  }

  /** A palette of k fresh entries of size 1 has total size k. */
  lemma {:induction false} TotalSizeOfOnes(cs: seq<Cluster>)
    requires forall j :: 0 <= j < |cs| ==> cs[j].size == 1
    ensures TotalSize(cs) == |cs|
    decreases |cs|
  {
    if cs != [] {
      TotalSizeOfOnes(cs[..|cs| - 1]);
    }
  }

  /** The colour (0, 0, 0): the value every channel sum starts from. */
  const Origin: Pixel := Pixel(0.0, 0.0, 0.0)

  /** Channel-wise sum of two colours. */
  function Plus(p: Pixel, q: Pixel): Pixel
  {
    Pixel(p.red + q.red, p.green + q.green, p.blue + q.blue)
  }

  /** Channel-wise sum of a list of colours. */
  function SumOf(ps: seq<Pixel>): Pixel
  {
    if ps == [] then Origin else Plus(SumOf(ps[..|ps| - 1]), ps[|ps| - 1])
  }

  /** A colour with every channel divided by n. */
  function Divide(p: Pixel, n: int): Pixel
    requires n != 0
  {
    Pixel(p.red / n as real, p.green / n as real, p.blue / n as real)
  }

  /** The mean colour of a non-empty list of colours. */
  function Mean(ps: seq<Pixel>): Pixel
    requires |ps| >= 1
  {
    Divide(SumOf(ps), |ps|)
  }

  lemma SumOfAppend(ps: seq<Pixel>, p: Pixel)
    ensures SumOf(ps + [p]) == Plus(SumOf(ps), p)
  {
    assert (ps + [p])[..|ps|] == ps;
  }

  /** A single colour is its own mean. */
  lemma MeanOfSingle(p: Pixel)
    ensures Mean([p]) == p
  {
    assert [p][..0] == [];
    assert SumOf([p]) == Plus(Origin, p) == p;
  }
}
