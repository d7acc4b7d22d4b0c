/**
 * Stage 3: cv2.normalize(clipped, None, 0, 245, cv2.NORM_MINMAX) on the whole
 * three-channel buffer. OpenCV takes the smallest and largest sample over all
 * channels, scales by (245 - 0) / (max - min) (by 0 when max == min), shifts so
 * that the minimum lands on 0, and stores each value with saturate_cast<uchar>,
 * which rounds half to even and saturates to [0, 255].
 */
module Normalization {
  import opened Numeric
  import opened PixelBuffer

  /** The alpha and beta arguments of the normalize call. */
  const TargetLow: int := 0
  const TargetHigh: int := 245

  /** The NORM_MINMAX scale factor; 0 when the source is flat, so nothing is divided by zero. */
  function Scale(smin: Sample, smax: Sample): (s: real)
    ensures s >= 0.0
    ensures smax > smin ==> s * (smax - smin) as real == (TargetHigh - TargetLow) as real
    ensures smax <= smin ==> s == 0.0
  {
    if smax > smin then (TargetHigh - TargetLow) as real / (smax - smin) as real else 0.0
  }

  /** The value convertTo computes before rounding: v * scale + shift, with the shift chosen
      so that the minimum lands on 0. */
  function Scaled(v: Sample, smin: Sample, smax: Sample): (x: real)
    ensures x == (v - smin) as real * Scale(smin, smax)
  {
    var scale := Scale(smin, smax);
    v as real * scale + (TargetLow as real - smin as real * scale)
  }

  lemma ScaledMonotone(x: Sample, y: Sample, smin: Sample, smax: Sample)
    requires x <= y
    ensures Scaled(x, smin, smax) <= Scaled(y, smin, smax)
  {
    MulNonNegative((y - x) as real, Scale(smin, smax));
  }

  /** Between the global minimum and maximum, the scaled value lies in [0, 245]. */
  lemma ScaledRange(v: Sample, smin: Sample, smax: Sample)
    requires smin <= v <= smax
    ensures 0.0 <= Scaled(v, smin, smax) <= 245.0
  {
    ScaledMonotone(smin, v, smin, smax);
    ScaledMonotone(v, smax, smin, smax);
  }

  /** An integer within one half of x, where x * d == a, lies within d / 2 of a / d after scaling. */
  lemma WithinHalfScaled(x: real, n: int, d: real, a: real)
    requires d > 0.0 && x * d == a && x - 0.5 <= n as real <= x + 0.5
    ensures (n as real - 0.5) * d <= a <= (n as real + 0.5) * d
  {
    MulNonNegative(x + 0.5 - n as real, d);
    MulNonNegative(n as real + 0.5 - x, d);
    assert (x + 0.5 - n as real) * d == a - (n as real - 0.5) * d;
    assert (n as real + 0.5 - x) * d == (n as real + 0.5) * d - a;
  }

  /** What rounding the scaled value gives for a sample between the minimum and maximum. */
  lemma RoundedScaled(v: Sample, smin: Sample, smax: Sample)
    ensures smin <= v <= smax ==> 0 <= RoundHalfEven(Scaled(v, smin, smax)) <= 245
    ensures smin <= v <= smax && smin < smax ==>
              var n := RoundHalfEven(Scaled(v, smin, smax)) as real;
              (n - 0.5) * (smax - smin) as real <= (v - smin) as real * 245.0 <= (n + 0.5) * (smax - smin) as real
  {
    if smin <= v <= smax {
      ScaledRange(v, smin, smax);
    }
    if smin <= v <= smax && smin < smax {
      var x, d := Scaled(v, smin, smax), (smax - smin) as real;
      assert x * d == (v - smin) as real * 245.0 by {
        assert x * d == (v - smin) as real * (Scale(smin, smax) * d);
      }
      WithinHalfScaled(x, RoundHalfEven(x), d, (v - smin) as real * 245.0);
    }
  }

  /** One output sample, given the global minimum and maximum of the source: the nearest
      integer to (v - min) * 245 / (max - min), or 0 for a flat source. */
  function NormalizeSample(v: Sample, smin: Sample, smax: Sample): (r: Sample)
    ensures smax <= smin ==> r == 0
    ensures smin <= v <= smax ==> 0 <= r <= 245
    ensures smin < smax && smin <= v <= smax ==>
              (r as real - 0.5) * (smax - smin) as real <= (v - smin) as real * 245.0
                                                        <= (r as real + 0.5) * (smax - smin) as real
  {
    RoundedScaled(v, smin, smax);
    Saturate(RoundHalfEven(Scaled(v, smin, smax)))
  }

  function NormalizePixel(p: Pixel, smin: Sample, smax: Sample): Pixel
  {
    Pixel(NormalizeSample(p.c0, smin, smax), NormalizeSample(p.c1, smin, smax), NormalizeSample(p.c2, smin, smax))
  }

  /** Every sample is rescaled with the minimum and maximum taken over the whole buffer. */
  function Normalize(img: Buffer): (r: Buffer)
    ensures SameShape(r, img)
    ensures forall i, k: ChannelIndex :: 0 <= i < |img.pixels| ==>
              Get(r.pixels[i], k) == NormalizeSample(Get(img.pixels[i], k), GlobalMin(img), GlobalMax(img))
  {
    var lo, hi := GlobalMin(img), GlobalMax(img);
    Image(img.height, img.width,
          seq(|img.pixels|, i requires 0 <= i < |img.pixels| => NormalizePixel(img.pixels[i], lo, hi)))
  }

  /** The rescaling is order-preserving. */
  lemma NormalizeSampleMonotone(x: Sample, y: Sample, smin: Sample, smax: Sample)
    requires x <= y
    ensures NormalizeSample(x, smin, smax) <= NormalizeSample(y, smin, smax)
  {
    ScaledMonotone(x, y, smin, smax);
    RoundHalfEvenMonotone(Scaled(x, smin, smax), Scaled(y, smin, smax));
    SaturateMonotone(RoundHalfEven(Scaled(x, smin, smax)), RoundHalfEven(Scaled(y, smin, smax)));
  }

  /** The source minimum goes to 0 and, unless the source is flat, the maximum goes to 245. */
  lemma NormalizeSampleEnds(smin: Sample, smax: Sample)
    ensures NormalizeSample(smin, smin, smax) == 0
    ensures smin < smax ==> NormalizeSample(smax, smin, smax) == 245
  {
    assert Scaled(smin, smin, smax) == 0.0;
    RoundHalfEvenOfInteger(0);
    if smin < smax {
      assert Scaled(smax, smin, smax) == 245.0;
      RoundHalfEvenOfInteger(245);
    }
  }

  /** After normalization every sample lies in [0, 245]. */
  lemma NormalizeRange(img: Buffer)
    ensures forall i, k: ChannelIndex :: 0 <= i < |img.pixels| ==> 0 <= Get(Normalize(img).pixels[i], k) <= 245
  {
  }

  /** Samples equal to the global minimum become 0; when the buffer is not flat, samples equal to
      the global maximum become 245. So a non-empty buffer always contains a 0, and a 245 unless
      it is flat. */
  lemma NormalizeExtremes(img: Buffer)
    ensures forall i, k: ChannelIndex :: 0 <= i < |img.pixels| && Get(img.pixels[i], k) == GlobalMin(img) ==>
              Get(Normalize(img).pixels[i], k) == 0
    ensures GlobalMin(img) < GlobalMax(img) ==>
              forall i, k: ChannelIndex :: 0 <= i < |img.pixels| && Get(img.pixels[i], k) == GlobalMax(img) ==>
                Get(Normalize(img).pixels[i], k) == 245
    ensures |img.pixels| > 0 ==> exists i, k: ChannelIndex :: 0 <= i < |img.pixels| && Get(Normalize(img).pixels[i], k) == 0
    ensures |img.pixels| > 0 && GlobalMin(img) < GlobalMax(img) ==>
              exists i, k: ChannelIndex :: 0 <= i < |img.pixels| && Get(Normalize(img).pixels[i], k) == 245
  {
    NormalizeSampleEnds(GlobalMin(img), GlobalMax(img));
    if |img.pixels| > 0 {
      var i, k: ChannelIndex :| 0 <= i < |img.pixels| && Get(img.pixels[i], k) == GlobalMin(img);
      assert Get(Normalize(img).pixels[i], k) == 0;
      var j, l: ChannelIndex :| 0 <= j < |img.pixels| && Get(img.pixels[j], l) == GlobalMax(img);
      if GlobalMin(img) < GlobalMax(img) {
        assert Get(Normalize(img).pixels[j], l) == 245;
      }
    }
  }

  /** If one input sample is at most another, so are their normalized values, wherever in the
      buffer and in whichever channels they sit. */
  lemma NormalizeOrderPreserving(img: Buffer, i: int, k: ChannelIndex, j: int, l: ChannelIndex)
    requires 0 <= i < |img.pixels| && 0 <= j < |img.pixels|
    requires Get(img.pixels[i], k) <= Get(img.pixels[j], l)
    ensures Get(Normalize(img).pixels[i], k) <= Get(Normalize(img).pixels[j], l)
  {
    NormalizeSampleMonotone(Get(img.pixels[i], k), Get(img.pixels[j], l), GlobalMin(img), GlobalMax(img));
  }

  /** A flat buffer (one value in every sample) normalizes to all zeros. */
  lemma NormalizeFlat(img: Buffer, v: Sample)
    requires |img.pixels| > 0 && Flat(img, v)
    ensures Flat(Normalize(img), 0)
  {
    assert Get(img.pixels[0], 0) == v;
    assert GlobalMin(img) == v && GlobalMax(img) == v;
  }

  /** Normalization works sample by sample, so a solid image stays solid. */
  lemma NormalizeSolid(img: Buffer)
    requires Solid(img)
    ensures Solid(Normalize(img))
  {
  }
}
