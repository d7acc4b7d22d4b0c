/**
 * Stage 5, desaturate_red_and_yellow_lab: the buffer is converted with
 * COLOR_BGR2LAB and split into l, a, b; a and b are copied into int16 arrays,
 * which are updated in place where they exceed their threshold (128 for a*,
 * yellow_threshold for b*), clipped back to uint8, merged with l and converted
 * back with COLOR_LAB2BGR. The keyword defaults (0.5, 0.5, 135) are not modelled
 * as constants: process_image passes 0.6, 0.9 and 100.
 */
module ChromaCorrection {
  import opened Numeric
  import opened PixelBuffer
  import opened Foreign

  /** The neutral value of the 8-bit a* encoding; a sample above it is red. */
  const RedMidpoint: int := 128

  /** What the masked assignment stores for a sample above the threshold:
      threshold + (v - threshold) * intensity, truncated toward zero into the int16 array. */
  function ScaleExcess(v: int, threshold: int, intensity: real): int
  {
    Trunc(threshold as real + (v - threshold) as real * intensity)
  }

  /** The attenuation rule: samples at or below the threshold are untouched; above it, the excess
      over the threshold is scaled by the intensity and its integer part is added back. */
  function Attenuate(v: int, threshold: int, intensity: real): (r: int)
    ensures v <= threshold ==> r == v
    ensures v > threshold && threshold >= 0 && intensity >= 0.0 ==>
              r == threshold + ((v - threshold) as real * intensity).Floor
    ensures v > threshold && threshold >= 0 && 0.0 <= intensity <= 1.0 ==> threshold <= r <= v
  {
    if v > threshold then
      var excess := (v - threshold) as real * intensity;
      assert intensity >= 0.0 ==> excess >= 0.0 by {
        if intensity >= 0.0 {
          MulNonNegative((v - threshold) as real, intensity);
        }
      }
      assert intensity <= 1.0 ==> excess <= (v - threshold) as real by {
        if intensity <= 1.0 {
          ScaleDown((v - threshold) as real, intensity);
        }
      }
      ScaleExcess(v, threshold, intensity)
    else
      v
  }

  /** a[mask] = threshold + (a[mask] - threshold) * intensity with mask = a > threshold,
      done in place on the int16 array: each element above the threshold is replaced, the
      others are left alone. */
  method AttenuateAbove(a: array<int>, threshold: int, intensity: real)
    modifies a
    ensures forall j :: 0 <= j < a.Length ==> a[j] == Attenuate(old(a[j]), threshold, intensity)
  {
    var i := 0;
    while i < a.Length
      invariant 0 <= i <= a.Length
      invariant forall j :: 0 <= j < i ==> a[j] == Attenuate(old(a[j]), threshold, intensity)
      invariant forall j :: i <= j < a.Length ==> a[j] == old(a[j])
    {
      if a[i] > threshold {
        a[i] := ScaleExcess(a[i], threshold, intensity);
      }
      i := i + 1;
    }
  }

  /** The correction of one LAB pixel: lightness kept, a* and b* attenuated and clipped to uint8. */
  function CorrectChroma(lab: Pixel, redIntensity: real, yellowIntensity: real, yellowThreshold: int): (r: Pixel)
    ensures r.c0 == lab.c0
    ensures lab.c1 <= RedMidpoint ==> r.c1 == lab.c1
    ensures lab.c1 > RedMidpoint && 0.0 <= redIntensity <= 1.0 ==>
              r.c1 == RedMidpoint + ((lab.c1 - RedMidpoint) as real * redIntensity).Floor
              && RedMidpoint <= r.c1 <= lab.c1
    ensures lab.c2 <= yellowThreshold ==> r.c2 == lab.c2
    ensures lab.c2 > yellowThreshold >= 0 && 0.0 <= yellowIntensity <= 1.0 ==>
              r.c2 == yellowThreshold + ((lab.c2 - yellowThreshold) as real * yellowIntensity).Floor
              && yellowThreshold <= r.c2 <= lab.c2
  {
    Pixel(lab.c0,
          Saturate(Attenuate(lab.c1, RedMidpoint, redIntensity)),
          Saturate(Attenuate(lab.c2, yellowThreshold, yellowIntensity)))
  }

  /** The whole stage on values: convert, correct, convert back, pixel by pixel. */
  function Desaturated(img: Buffer, lib: Library, redIntensity: real, yellowIntensity: real, yellowThreshold: int): (r: Buffer)
    ensures SameShape(r, img)
  {
    var px := seq(|img.pixels|, i requires 0 <= i < |img.pixels| =>
                lib.labToBgr(CorrectChroma(lib.bgrToLab(img.pixels[i]), redIntensity, yellowIntensity, yellowThreshold)));
    assert |px| == img.height * img.width;
    Image(img.height, img.width, px)
  }

  /** np.clip(x, 0, 255).astype(np.uint8) on an int16 plane. */
  function ToUint8(s: seq<int>): (r: seq<Sample>)
    ensures |r| == |s| && forall i :: 0 <= i < |s| ==> r[i] == Saturate(s[i])
  {
    seq(|s|, i requires 0 <= i < |s| => Saturate(s[i]))
  }

  method DesaturateRedAndYellowLab(image: Buffer, lib: Library, redIntensity: real, yellowIntensity: real,
                                   yellowThreshold: int) returns (result: Buffer)
    ensures result == Desaturated(image, lib, redIntensity, yellowIntensity, yellowThreshold)
  {
    var n := |image.pixels|;
    // lab = cv2.cvtColor(image, cv2.COLOR_BGR2LAB); l, a, b = cv2.split(lab)
    var lab := seq(n, i requires 0 <= i < n => lib.bgrToLab(image.pixels[i]));
    var l := seq(n, i requires 0 <= i < n => lab[i].c0);
    // Red: a.astype(np.int16), masked update, clip back to uint8
    var a := new int[n](i requires 0 <= i < n => lab[i].c1);
    AttenuateAbove(a, RedMidpoint, redIntensity);
    var a8 := ToUint8(a[..]);
    // Yellow: the same on b with the yellow threshold and intensity
    var b := new int[n](i requires 0 <= i < n => lab[i].c2);
    AttenuateAbove(b, yellowThreshold, yellowIntensity);
    var b8 := ToUint8(b[..]);
    // cv2.merge([l, a, b]), then cv2.cvtColor(..., cv2.COLOR_LAB2BGR)
    var labModified := Merge(image.height, image.width, l, a8, b8);
    result := Image(image.height, image.width,
                    seq(n, i requires 0 <= i < n => lib.labToBgr(labModified.pixels[i])));
    forall i | 0 <= i < n
      ensures labModified.pixels[i] == CorrectChroma(lab[i], redIntensity, yellowIntensity, yellowThreshold)
    {
    }
  }

  /** The boundary cases of the red rule with the pipeline's intensity 0.6: 128 is untouched,
      129 comes back to 128, and the full-scale 255 drops to 204. */
  lemma RedBoundary()
    ensures Attenuate(128, RedMidpoint, 0.6) == 128
    ensures Attenuate(129, RedMidpoint, 0.6) == 128
    ensures Attenuate(255, RedMidpoint, 0.6) == 204
  {
    assert (127 as real * 0.6).Floor == 76;
  }

  /** The boundary cases of the yellow rule with the pipeline's threshold 100 and intensity 0.9:
      100 is untouched, 101 comes back to 100, and 128 (neutral b*) drops to 125. */
  lemma YellowBoundary()
    ensures Attenuate(100, 100, 0.9) == 100
    ensures Attenuate(101, 100, 0.9) == 100
    ensures Attenuate(128, 100, 0.9) == 125
  {
    assert (28 as real * 0.9).Floor == 25;
  }

  /** The stage works pixel by pixel, so a solid image stays solid. */
  lemma DesaturatedSolid(img: Buffer, lib: Library, redIntensity: real, yellowIntensity: real, yellowThreshold: int)
    requires Solid(img)
    ensures Solid(Desaturated(img, lib, redIntensity, yellowIntensity, yellowThreshold))
  {
    var r := Desaturated(img, lib, redIntensity, yellowIntensity, yellowThreshold);
    forall i, j | 0 <= i < |img.pixels| && 0 <= j < |img.pixels|
      ensures r.pixels[i] == r.pixels[j]
    {
      assert img.pixels[i] == img.pixels[j];
    }
  }
}
