/**
 * Stage 4, balance_colors: the buffer is split as b, g, r by array index 0, 1, 2;
 * each plane is multiplied by its factor, clipped to [0, 255] and truncated to
 * uint8; the planes are merged back at the indices they came from. The buffer the
 * pipeline hands in is RGB, so blue_factor lands on index 0 whatever colour that
 * index holds; the model keeps to the indices. The function's keyword defaults
 * (0.9, 1.0, 1.2) are not modelled as constants: process_image passes 0.9, 0.85, 1.0.
 */
module ColorBalance {
  import opened Numeric
  import opened PixelBuffer

  /** np.clip(v * factor, 0, 255).astype(np.uint8) on one sample. */
  function BalanceSample(v: Sample, factor: real): (r: Sample)
    ensures r as real <= Clip(v as real * factor, 0.0, 255.0) < r as real + 1.0
    ensures factor == 1.0 ==> r == v
    ensures factor <= 1.0 ==> r <= v
  {
    ClippedAtMost(v, factor);
    Trunc(Clip(v as real * factor, 0.0, 255.0))
  }

  lemma ClippedAtMost(v: Sample, factor: real)
    ensures factor <= 1.0 ==> Clip(v as real * factor, 0.0, 255.0) <= v as real
  {
    if factor <= 1.0 {
      var x := v as real * factor;
      ScaleDown(v as real, factor);
      if x < 0.0 {
        assert Clip(x, 0.0, 255.0) == 0.0;
      } else {
        assert x <= v as real <= 255.0;
        assert Clip(x, 0.0, 255.0) == x;
      }
    }
  }

  /** With a non-negative factor, balancing is order-preserving. */
  lemma BalanceSampleMonotone(v: Sample, w: Sample, factor: real)
    requires v <= w && factor >= 0.0
    ensures BalanceSample(v, factor) <= BalanceSample(w, factor)
  {
    assert v as real * factor <= w as real * factor by {
      MulNonNegative((w - v) as real, factor);
      assert (w - v) as real * factor == w as real * factor - v as real * factor;
    }
    ClipMonotone(v as real * factor, w as real * factor, 0.0, 255.0);
    TruncMonotone(Clip(v as real * factor, 0.0, 255.0), Clip(w as real * factor, 0.0, 255.0));
  }

  /** Index 0 is scaled by blue_factor, index 1 by green_factor and index 2 by red_factor, and each
      result is written back at the index it was read from. */
  function BalanceColors(img: Buffer, redFactor: real, greenFactor: real, blueFactor: real): (r: Buffer)
    ensures SameShape(r, img)
    ensures forall i :: 0 <= i < |img.pixels| ==>
              Get(r.pixels[i], 0) == BalanceSample(Get(img.pixels[i], 0), blueFactor)
              && Get(r.pixels[i], 1) == BalanceSample(Get(img.pixels[i], 1), greenFactor)
              && Get(r.pixels[i], 2) == BalanceSample(Get(img.pixels[i], 2), redFactor)
  {
    var c0 := seq(|img.pixels|, i requires 0 <= i < |img.pixels| => BalanceSample(img.pixels[i].c0, blueFactor));
    var c1 := seq(|img.pixels|, i requires 0 <= i < |img.pixels| => BalanceSample(img.pixels[i].c1, greenFactor));
    var c2 := seq(|img.pixels|, i requires 0 <= i < |img.pixels| => BalanceSample(img.pixels[i].c2, redFactor));
    Merge(img.height, img.width, c0, c1, c2)
  }

  /** Factors of at most 1 never brighten a sample, and a factor of exactly 1 keeps its plane. */
  lemma BalanceNeverBrightens(img: Buffer, redFactor: real, greenFactor: real, blueFactor: real, i: int)
    requires 0 <= i < |img.pixels|
    ensures var p, q := img.pixels[i], BalanceColors(img, redFactor, greenFactor, blueFactor).pixels[i];
            (blueFactor <= 1.0 ==> q.c0 <= p.c0) && (blueFactor == 1.0 ==> q.c0 == p.c0)
            && (greenFactor <= 1.0 ==> q.c1 <= p.c1) && (greenFactor == 1.0 ==> q.c1 == p.c1)
            && (redFactor <= 1.0 ==> q.c2 <= p.c2) && (redFactor == 1.0 ==> q.c2 == p.c2)
  {
    var q := BalanceColors(img, redFactor, greenFactor, blueFactor).pixels[i];
    assert q.c0 == Get(q, 0) && q.c1 == Get(q, 1) && q.c2 == Get(q, 2);
  }

  /** With the factors process_image passes (red 0.9, green 0.85, blue 1.0), index 0 is left as it
      is, index 1 becomes the integer part of 85% of its value and index 2 that of 90%. */
  lemma PipelineFactors(img: Buffer, i: int)
    requires 0 <= i < |img.pixels|
    ensures var p, q := img.pixels[i], BalanceColors(img, 0.9, 0.85, 1.0).pixels[i];
            q.c0 == p.c0
            && q.c1 == (p.c1 as real * 0.85).Floor && q.c1 <= p.c1
            && q.c2 == (p.c2 as real * 0.9).Floor && q.c2 <= p.c2
  {
    var p, q := img.pixels[i], BalanceColors(img, 0.9, 0.85, 1.0).pixels[i];
    assert q.c0 == Get(q, 0) && q.c1 == Get(q, 1) && q.c2 == Get(q, 2);
    assert 0.0 <= p.c1 as real * 0.85 <= 255.0;
    assert 0.0 <= p.c2 as real * 0.9 <= 255.0;
  }

  /** Black stays black whatever the factors. */
  lemma BalanceBlack(img: Buffer, redFactor: real, greenFactor: real, blueFactor: real)
    requires Flat(img, 0)
    ensures Flat(BalanceColors(img, redFactor, greenFactor, blueFactor), 0)
  {
    var r := BalanceColors(img, redFactor, greenFactor, blueFactor);
    forall i | 0 <= i < |img.pixels|
      ensures r.pixels[i] == Pixel(0, 0, 0)
    {
      assert img.pixels[i] == Pixel(0, 0, 0);
      assert Get(r.pixels[i], 0) == 0 && Get(r.pixels[i], 1) == 0 && Get(r.pixels[i], 2) == 0;
    }
  }

  /** Balancing works pixel by pixel, so a solid image stays solid. */
  lemma BalanceSolid(img: Buffer, redFactor: real, greenFactor: real, blueFactor: real)
    requires Solid(img)
    ensures Solid(BalanceColors(img, redFactor, greenFactor, blueFactor))
  {
    var r := BalanceColors(img, redFactor, greenFactor, blueFactor);
    forall i, j | 0 <= i < |img.pixels| && 0 <= j < |img.pixels|
      ensures r.pixels[i] == r.pixels[j]
    {
      assert img.pixels[i] == img.pixels[j];
    }
  }
}
