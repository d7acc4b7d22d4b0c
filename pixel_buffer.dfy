/**
 * The H x W x 3 uint8 array the pipeline passes from stage to stage. Pixels are
 * stored row-major; a pixel holds its three samples by array index (c0, c1, c2),
 * whatever colour each index stands for in a given stage. cv2.split and cv2.merge
 * become Channel and Merge.
 */
module PixelBuffer {
  import opened Numeric

  type ChannelIndex = k: int | 0 <= k < 3

  datatype Pixel = Pixel(c0: Sample, c1: Sample, c2: Sample)

  /** The sample at array index k of a pixel. */
  function Get(p: Pixel, k: ChannelIndex): Sample
  {
    if k == 0 then p.c0 else if k == 1 then p.c1 else p.c2
  }

  datatype Image = Image(height: nat, width: nat, pixels: seq<Pixel>)

  /** An image whose pixel list fills its height x width grid. */
  type Buffer = img: Image | |img.pixels| == img.height * img.width witness Image(0, 0, [])

  predicate SameShape(a: Image, b: Image)
  {
    a.height == b.height && a.width == b.width && |a.pixels| == |b.pixels|
  }

  /** cv2.split: the plane of samples at index k, in pixel order. */
  function Channel(img: Image, k: ChannelIndex): (c: seq<Sample>)
    ensures |c| == |img.pixels|
    ensures forall i :: 0 <= i < |c| ==> c[i] == Get(img.pixels[i], k)
  {
    seq(|img.pixels|, i requires 0 <= i < |img.pixels| => Get(img.pixels[i], k))
  }

  /** cv2.merge([c0, c1, c2]): plane j becomes array index j of every pixel. */
  function Merge(height: nat, width: nat, c0: seq<Sample>, c1: seq<Sample>, c2: seq<Sample>): (img: Buffer)
    requires |c0| == height * width && |c1| == |c0| && |c2| == |c0|
    ensures img.height == height && img.width == width && |img.pixels| == |c0|
    ensures forall i :: 0 <= i < |c0| ==> img.pixels[i] == Pixel(c0[i], c1[i], c2[i])
  {
    Image(height, width, seq(|c0|, i requires 0 <= i < |c0| => Pixel(c0[i], c1[i], c2[i])))
  }

  /** Splitting a buffer and merging its planes back in the same order gives the buffer. */
  lemma SplitThenMerge(img: Buffer)
    ensures Merge(img.height, img.width, Channel(img, 0), Channel(img, 1), Channel(img, 2)) == img
  {
    var m := Merge(img.height, img.width, Channel(img, 0), Channel(img, 1), Channel(img, 2));
    forall i | 0 <= i < |img.pixels|
      ensures m.pixels[i] == img.pixels[i]
    {
    }
  }

  /** Each plane of a merged buffer is the plane that was merged at that index. */
  lemma MergeThenSplit(height: nat, width: nat, c0: seq<Sample>, c1: seq<Sample>, c2: seq<Sample>)
    requires |c0| == height * width && |c1| == |c0| && |c2| == |c0|
    ensures Channel(Merge(height, width, c0, c1, c2), 0) == c0
    ensures Channel(Merge(height, width, c0, c1, c2), 1) == c1
    ensures Channel(Merge(height, width, c0, c1, c2), 2) == c2
  {
  }

  /** The smallest sample of a plane (0 for an empty plane). */
  function SeqMin(c: seq<Sample>): (m: Sample)
    ensures forall i :: 0 <= i < |c| ==> m <= c[i]
    ensures |c| > 0 ==> exists i :: 0 <= i < |c| && c[i] == m
  {
    if |c| == 0 then 0
    else if |c| == 1 then c[0]
    else
      var rest := SeqMin(c[1..]);
      assert forall i :: 1 <= i < |c| ==> c[i] == c[1..][i - 1];
      if c[0] <= rest then c[0] else rest
  }

  /** The largest sample of a plane (0 for an empty plane). */
  function SeqMax(c: seq<Sample>): (m: Sample)
    ensures forall i :: 0 <= i < |c| ==> c[i] <= m
    ensures |c| > 0 ==> exists i :: 0 <= i < |c| && c[i] == m
  {
    if |c| == 0 then 0
    else if |c| == 1 then c[0]
    else
      var rest := SeqMax(c[1..]);
      assert forall i :: 1 <= i < |c| ==> c[i] == c[1..][i - 1];
      if c[0] >= rest then c[0] else rest
  }

  /** All samples of all pixels, pixel after pixel, index 0 to 2 within a pixel: the
      single-channel view OpenCV takes of a multi-channel array without a mask. */
  function Samples(px: seq<Pixel>): (s: seq<Sample>)
    ensures |s| == 3 * |px|
  {
    seq(3 * |px|, j requires 0 <= j < 3 * |px| => Get(px[j / 3], j % 3))
  }

  lemma SampleAt(px: seq<Pixel>, i: int, k: ChannelIndex)
    requires 0 <= i < |px|
    ensures 0 <= 3 * i + k < |Samples(px)| && Samples(px)[3 * i + k] == Get(px[i], k)
  {
    assert (3 * i + k) / 3 == i && (3 * i + k) % 3 == k;
  }

  /** A bound on, and an occurrence of, a value of the flat view carry over to the pixels. */
  lemma FlatViewExtreme(px: seq<Pixel>, m: Sample, below: bool)
    requires forall j :: 0 <= j < |Samples(px)| ==> if below then m <= Samples(px)[j] else Samples(px)[j] <= m
    requires |px| > 0 ==> exists j :: 0 <= j < |Samples(px)| && Samples(px)[j] == m
    ensures forall i, k: ChannelIndex :: 0 <= i < |px| ==> if below then m <= Get(px[i], k) else Get(px[i], k) <= m
    ensures |px| > 0 ==> exists i, k: ChannelIndex :: 0 <= i < |px| && Get(px[i], k) == m
  {
    forall i, k: ChannelIndex | 0 <= i < |px|
      ensures if below then m <= Get(px[i], k) else Get(px[i], k) <= m
    {
      SampleAt(px, i, k);
    }
    if |px| > 0 {
      var j :| 0 <= j < |Samples(px)| && Samples(px)[j] == m;
      var i, k: ChannelIndex := j / 3, j % 3;
      assert Samples(px)[j] == Get(px[i], k);
    }
  }

  /** Smallest sample over every pixel and every channel of a buffer. */
  function GlobalMin(img: Image): (m: Sample)
    ensures forall i, k: ChannelIndex :: 0 <= i < |img.pixels| ==> m <= Get(img.pixels[i], k)
    ensures |img.pixels| > 0 ==> exists i, k: ChannelIndex :: 0 <= i < |img.pixels| && Get(img.pixels[i], k) == m
  {
    var m := SeqMin(Samples(img.pixels));
    FlatViewExtreme(img.pixels, m, true);
    m
  }

  /** Largest sample over every pixel and every channel of a buffer. */
  function GlobalMax(img: Image): (m: Sample)
    ensures forall i, k: ChannelIndex :: 0 <= i < |img.pixels| ==> Get(img.pixels[i], k) <= m
    ensures |img.pixels| > 0 ==> exists i, k: ChannelIndex :: 0 <= i < |img.pixels| && Get(img.pixels[i], k) == m
  {
    var m := SeqMax(Samples(img.pixels));
    FlatViewExtreme(img.pixels, m, false);
    m
  }

  /** Every pixel of the image is the same pixel. */
  predicate Solid(img: Image)
  {
    forall i, j :: 0 <= i < |img.pixels| && 0 <= j < |img.pixels| ==> img.pixels[i] == img.pixels[j]
  }

  /** Every sample of the image, in every channel, is v. */
  predicate Flat(img: Image, v: Sample)
  {
    forall i :: 0 <= i < |img.pixels| ==> img.pixels[i] == Pixel(v, v, v)
  }

  lemma FlatIsSolid(img: Image, v: Sample)
    requires Flat(img, v)
    ensures Solid(img)
  {
  }

  /** Every sample of a plane is v. */
  predicate Constant(c: seq<Sample>, v: Sample)
  {
    forall i :: 0 <= i < |c| ==> c[i] == v
  }
}
