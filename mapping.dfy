/**
 * The last stage of both clustering algorithms: an output image of the
 * input's dimensions in which every pixel is replaced by the palette
 * centre the nearest-centre search picks for it.
 */
module Mapping {
  import opened Colors
  import opened Nearest

  /** out is data with every pixel replaced by the centre of palette that
      the search picks for it. */
  predicate MapsTo(data: seq<Pixel>, palette: seq<Pixel>, out: seq<Pixel>)
  {
    && |out| == |data|
    && forall i :: 0 <= i < |data| ==>
         0 <= NearestIndex(data[i], palette) && out[i] == palette[NearestIndex(data[i], palette)]
  }

  /** Every output pixel is one of the palette colours, and no palette
      colour is closer to the input pixel it replaces. */
  lemma MappedPixelsAreNearestCentres(data: seq<Pixel>, palette: seq<Pixel>, out: seq<Pixel>)
    requires MapsTo(data, palette, out)
    ensures forall i :: 0 <= i < |out| ==> out[i] in palette
    ensures forall i, j :: 0 <= i < |out| && 0 <= j < |palette| ==> Dist(data[i], out[i]) <= Dist(data[i], palette[j])
  {
    forall i | 0 <= i < |out|
      ensures out[i] in palette
      ensures forall j :: 0 <= j < |palette| ==> Dist(data[i], out[i]) <= Dist(data[i], palette[j])
    {
      NearestIsLowestArgmin(data[i], palette);
    }
  }

  /** The quantisation loop: search the palette for every pixel and copy
      the centre it finds. Where the search finds none the source would
      read entry -INT_MAX of the palette; the model stops there with ok
      false. */
  method MapToPalette(img: Image, clusters: array<Cluster>) returns (out: Image, ok: bool)
    ensures out.width == img.width && out.height == img.height && |out.data| == |img.data|
    ensures ok <==> AllFound(img.data, Centers(clusters[..]))
    ensures ok ==> MapsTo(img.data, Centers(clusters[..]), out.data)
  {
    ghost var palette := Centers(clusters[..]);
    var n := |img.data|;
    var outData := new Pixel[n];
    ok := true;
    var i := 0;
    while i < n
      invariant 0 <= i <= n
      invariant forall t :: 0 <= t < i ==>
        0 <= NearestIndex(img.data[t], palette) && outData[t] == palette[NearestIndex(img.data[t], palette)]
    {
      var k := NearestCenter(img.data[i], clusters);
      if k < 0 {
        ok := false;
        assert NearestIndex(img.data[i], palette) < 0;
        break;
      }
      outData[i] := clusters[k].center;
      i := i + 1;
    }
    out := Image(img.width, img.height, outData[..]);
  }
}
