/**
 * Stage 2, clip_histogram: the buffer is split into its three planes, each plane
 * is histogram-equalized, its percentile window is taken after equalization, every
 * sample is clamped into that window and truncated back to uint8, and the planes
 * are merged in the order they were split. The source names the planes b, g, r by
 * array index 0, 1, 2, and each takes the percentile arguments of its name.
 */
module HistogramClip {
  import opened Numeric
  import opened PixelBuffer
  import opened Foreign

  /** The keyword arguments of clip_histogram, by plane name. */
  datatype ClipPercentiles = ClipPercentiles(
    rLow: Percent, rHigh: Percent,
    gLow: Percent, gHigh: Percent,
    bLow: Percent, bHigh: Percent)

  /** clip_histogram's defaults, which process_image does not override. */
  const DefaultPercentiles := ClipPercentiles(5.0, 99.0, 5.0, 99.0, 5.0, 99.0)

  /** The low percentile used for array index k (index 0 is the plane named b). */
  function LowFor(p: ClipPercentiles, k: ChannelIndex): Percent
  {
    if k == 0 then p.bLow else if k == 1 then p.gLow else p.rLow
  }

  /** The high percentile used for array index k (index 2 is the plane named r). */
  function HighFor(p: ClipPercentiles, k: ChannelIndex): Percent
  {
    if k == 0 then p.bHigh else if k == 1 then p.gHigh else p.rHigh
  }

  predicate InByteRange(x: real)
  {
    0.0 <= x <= 255.0
  }

  /** np.clip(v, lo, hi).astype(np.uint8) on one sample whose bounds are floats. */
  function ClipSample(v: Sample, lo: real, hi: real): (r: Sample)
    requires InByteRange(lo) && InByteRange(hi)
    ensures lo <= hi ==> lo.Floor <= r <= hi.Floor
    ensures lo <= hi ==> r == if (v as real) < lo then lo.Floor else if (v as real) > hi then hi.Floor else v
    ensures lo > hi ==> r == hi.Floor
  {
    Trunc(Clip(v as real, lo, hi))
  }

  /** Clamping one plane into [lo, hi]; the bounds matter only when the plane has samples. */
  function ClipChannel(c: seq<Sample>, lo: real, hi: real): (r: seq<Sample>)
    requires |c| > 0 ==> InByteRange(lo) && InByteRange(hi)
    ensures |r| == |c|
    ensures forall i :: 0 <= i < |c| ==> r[i] == ClipSample(c[i], lo, hi)
  {
    seq(|c|, i requires 0 <= i < |c| => ClipSample(c[i], lo, hi))
  }

  datatype Window = Window(lo: real, hi: real)

  /** np.percentile(e, [low, high]) on an equalized plane. */
  function PercentileWindow(lib: Library, e: seq<Sample>, low: Percent, high: Percent): (w: Window)
    requires Conforms(lib)
    ensures |e| > 0 ==> SeqMin(e) as real <= w.lo <= SeqMax(e) as real
    ensures |e| > 0 ==> SeqMin(e) as real <= w.hi <= SeqMax(e) as real
    ensures |e| > 0 && low <= high ==> w.lo <= w.hi
  {
    Window(lib.percentile(e, low), lib.percentile(e, high))
  }

  /** One plane of clip_histogram: equalize it, then clamp it to its percentile window. */
  function EqualizeAndClip(lib: Library, c: seq<Sample>, low: Percent, high: Percent): (r: seq<Sample>)
    requires Conforms(lib)
    ensures |r| == |c|
  {
    var e := lib.equalizeHist(c);
    var w := PercentileWindow(lib, e, low, high);
    ClipChannel(e, w.lo, w.hi)
  }

  /** The equalized plane at index k, and the window it is clamped to. */
  function Equalized(lib: Library, img: Buffer, k: ChannelIndex): (e: seq<Sample>)
    requires Conforms(lib)
    ensures |e| == |img.pixels|
  {
    lib.equalizeHist(Channel(img, k))
  }

  function WindowAt(lib: Library, img: Buffer, p: ClipPercentiles, k: ChannelIndex): Window
    requires Conforms(lib)
  {
    PercentileWindow(lib, Equalized(lib, img, k), LowFor(p, k), HighFor(p, k))
  }

  function ClipHistogram(img: Buffer, lib: Library, p: ClipPercentiles): (r: Buffer)
    requires Conforms(lib)
    ensures SameShape(r, img)
  {
    var b := EqualizeAndClip(lib, Channel(img, 0), p.bLow, p.bHigh);
    var g := EqualizeAndClip(lib, Channel(img, 1), p.gLow, p.gHigh);
    var r := EqualizeAndClip(lib, Channel(img, 2), p.rLow, p.rHigh);
    Merge(img.height, img.width, b, g, r)
  }

  /** The planes of the result, by index, as clip_histogram merges them. */
  lemma ClipHistogramPlanes(img: Buffer, lib: Library, p: ClipPercentiles)
    requires Conforms(lib)
    ensures Channel(ClipHistogram(img, lib, p), 0) == EqualizeAndClip(lib, Channel(img, 0), p.bLow, p.bHigh)
    ensures Channel(ClipHistogram(img, lib, p), 1) == EqualizeAndClip(lib, Channel(img, 1), p.gLow, p.gHigh)
    ensures Channel(ClipHistogram(img, lib, p), 2) == EqualizeAndClip(lib, Channel(img, 2), p.rLow, p.rHigh)
  {
    var b := EqualizeAndClip(lib, Channel(img, 0), p.bLow, p.bHigh);
    var g := EqualizeAndClip(lib, Channel(img, 1), p.gLow, p.gHigh);
    var r := EqualizeAndClip(lib, Channel(img, 2), p.rLow, p.rHigh);
    MergeThenSplit(img.height, img.width, b, g, r);
  }

  /** Each plane is processed on its own and merged back at the index it was split from:
      the plane at index k of the result is the equalized plane at index k of the input,
      clamped to that plane's own window. */
  lemma ClipHistogramPerChannel(img: Buffer, lib: Library, p: ClipPercentiles, k: ChannelIndex)
    requires Conforms(lib)
    ensures Channel(ClipHistogram(img, lib, p), k)
            == ClipChannel(Equalized(lib, img, k), WindowAt(lib, img, p, k).lo, WindowAt(lib, img, p, k).hi)
  {
    ClipHistogramPlanes(img, lib, p);
    if k == 0 {
      assert LowFor(p, k) == p.bLow && HighFor(p, k) == p.bHigh;
    } else if k == 1 {
      assert LowFor(p, k) == p.gLow && HighFor(p, k) == p.gHigh;
    } else {
      assert LowFor(p, k) == p.rLow && HighFor(p, k) == p.rHigh;
    }
  }

  /** With a low percentile not above the high one, every sample of the result lies in its
      plane's window, truncated to integers. */
  lemma ClipHistogramBounds(img: Buffer, lib: Library, p: ClipPercentiles, i: int, k: ChannelIndex)
    requires Conforms(lib)
    requires 0 <= i < |img.pixels|
    requires LowFor(p, k) <= HighFor(p, k)
    ensures WindowAt(lib, img, p, k).lo <= WindowAt(lib, img, p, k).hi
    ensures WindowAt(lib, img, p, k).lo.Floor <= Get(ClipHistogram(img, lib, p).pixels[i], k)
                                              <= WindowAt(lib, img, p, k).hi.Floor
  {
    ClipHistogramPerChannel(img, lib, p, k);
    var c := Channel(ClipHistogram(img, lib, p), k);
    assert c[i] == Get(ClipHistogram(img, lib, p).pixels[i], k);
  }

  /** The default window 5..99 is ordered for every plane. */
  lemma DefaultWindowsOrdered(img: Buffer, lib: Library, k: ChannelIndex)
    requires Conforms(lib)
    requires |img.pixels| > 0
    ensures WindowAt(lib, img, DefaultPercentiles, k).lo <= WindowAt(lib, img, DefaultPercentiles, k).hi
  {
  }

  /** A sample already inside the window is left as it is. */
  lemma ClipChannelKeepsInside(c: seq<Sample>, lo: real, hi: real, i: int)
    requires |c| > 0 ==> InByteRange(lo) && InByteRange(hi)
    requires 0 <= i < |c| && lo <= c[i] as real <= hi
    ensures ClipChannel(c, lo, hi)[i] == c[i]
  {
  }

  /** Clamping a clamped plane again changes nothing. */
  lemma ClipChannelIdempotent(c: seq<Sample>, lo: real, hi: real)
    requires |c| > 0 ==> InByteRange(lo) && InByteRange(hi)
    ensures ClipChannel(ClipChannel(c, lo, hi), lo, hi) == ClipChannel(c, lo, hi)
  {
    var once := ClipChannel(c, lo, hi);
    forall i | 0 <= i < |c|
      ensures ClipSample(once[i], lo, hi) == once[i]
    {
      if lo <= hi {
        // once[i] is v, lo.Floor or hi.Floor; the last two may fall below lo and are
        // then taken to lo.Floor again.
        assert lo.Floor as real <= lo && hi.Floor as real <= hi;
      }
    }
  }

  /** The number of samples of a plane outside [lo, hi], i.e. the ones the clamp moves to a bound. */
  function CountOutside(c: seq<Sample>, lo: real, hi: real): (n: nat)
    ensures n <= |c|
  {
    if |c| == 0 then 0
    else (if (c[0] as real) < lo || (c[0] as real) > hi then 1 else 0) + CountOutside(c[1..], lo, hi)
  }

  /** A wider window never has more samples outside it. */
  lemma {:induction false} WiderWindowClipsFewer(c: seq<Sample>, lo: real, hi: real, lo': real, hi': real)
    requires lo' <= lo && hi <= hi'
    ensures CountOutside(c, lo', hi') <= CountOutside(c, lo, hi)
  {
    if |c| > 0 {
      WiderWindowClipsFewer(c[1..], lo, hi, lo', hi');
    }
  }

  /** Widening the percentile ranks (a lower low rank, a higher high rank) never increases
      the number of samples of an equalized plane that get clipped. */
  lemma WiderPercentilesClipFewer(lib: Library, e: seq<Sample>, low: Percent, high: Percent, low': Percent, high': Percent)
    requires Conforms(lib)
    requires |e| > 0 && low' <= low && high <= high'
    ensures CountOutside(e, PercentileWindow(lib, e, low', high').lo, PercentileWindow(lib, e, low', high').hi)
            <= CountOutside(e, PercentileWindow(lib, e, low, high).lo, PercentileWindow(lib, e, low, high).hi)
  {
    var w, w' := PercentileWindow(lib, e, low, high), PercentileWindow(lib, e, low', high');
    assert w'.lo == lib.percentile(e, low') <= lib.percentile(e, low) == w.lo;
    assert w.hi == lib.percentile(e, high) <= lib.percentile(e, high') == w'.hi;
    WiderWindowClipsFewer(e, w.lo, w.hi, w'.lo, w'.hi);
  }

  /** Loosening the default ranks 5 / 99 to 1 / 99.9 never clips more samples of a plane. */
  lemma LooserRanksClipFewer(lib: Library, e: seq<Sample>)
    requires Conforms(lib)
    requires |e| > 0
    ensures CountOutside(e, PercentileWindow(lib, e, 1.0, 99.9).lo, PercentileWindow(lib, e, 1.0, 99.9).hi)
            <= CountOutside(e, PercentileWindow(lib, e, 5.0, 99.0).lo, PercentileWindow(lib, e, 5.0, 99.0).hi)
  {
    WiderPercentilesClipFewer(lib, e, 5.0, 99.0, 1.0, 99.9);
  }

  /** A constant plane survives equalization and clamping unchanged: equalization keeps it, its
      percentiles all equal its one value, and that value lies in the window. */
  lemma ConstantPlaneUnchanged(lib: Library, c: seq<Sample>, v: Sample, low: Percent, high: Percent)
    requires Conforms(lib)
    requires Constant(c, v)
    ensures EqualizeAndClip(lib, c, low, high) == c
  {
    var e := lib.equalizeHist(c);
    assert e == c;
    if |c| > 0 {
      assert SeqMin(c) == v && SeqMax(c) == v;
      var w := PercentileWindow(lib, e, low, high);
      assert w.lo == v as real && w.hi == v as real;
      forall i | 0 <= i < |c|
        ensures ClipChannel(e, w.lo, w.hi)[i] == c[i]
      {
      }
    }
  }

  /** A solid image (every pixel the same) passes clip_histogram unchanged. */
  lemma ClipHistogramSolid(img: Buffer, lib: Library, p: ClipPercentiles)
    requires Conforms(lib)
    requires Solid(img)
    ensures ClipHistogram(img, lib, p) == img
  {
    if |img.pixels| > 0 {
      var p0 := img.pixels[0];
      ConstantPlaneUnchanged(lib, Channel(img, 0), p0.c0, p.bLow, p.bHigh);
      ConstantPlaneUnchanged(lib, Channel(img, 1), p0.c1, p.gLow, p.gHigh);
      ConstantPlaneUnchanged(lib, Channel(img, 2), p0.c2, p.rLow, p.rHigh);
    } else {
      assert Constant(Channel(img, 0), 0) && Constant(Channel(img, 1), 0) && Constant(Channel(img, 2), 0);
      ConstantPlaneUnchanged(lib, Channel(img, 0), 0, p.bLow, p.bHigh);
      ConstantPlaneUnchanged(lib, Channel(img, 1), 0, p.gLow, p.gHigh);
      ConstantPlaneUnchanged(lib, Channel(img, 2), 0, p.rLow, p.rHigh);
    }
    SplitThenMerge(img);
  }
}
