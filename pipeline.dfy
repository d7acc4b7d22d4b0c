/**
 * process_image: the decoded RGB image is inverted, clipped, normalized, balanced and
 * chroma-corrected, in that order, each stage taking the previous stage's buffer.
 * Decoding the input file and encoding the result are outside the model: the method
 * starts from the decoded buffer and returns the buffer handed to the encoder.
 */
module Pipeline {
  import opened Numeric
  import opened PixelBuffer
  import opened Foreign
  import opened Inversion
  import opened HistogramClip
  import opened Normalization
  import opened ColorBalance
  import opened ChromaCorrection

  /** The arguments process_image passes to balance_colors. */
  const RedFactor: real := 0.9
  const GreenFactor: real := 0.85
  const BlueFactor: real := 1.0

  /** The arguments process_image passes to desaturate_red_and_yellow_lab. */
  const RedIntensity: real := 0.6
  const YellowIntensity: real := 0.9
  const YellowThreshold: int := 100

  /** The buffer after inversion, clipping and normalization. */
  function Normalized(decoded: Buffer, lib: Library): (r: Buffer)
    requires Conforms(lib)
    ensures SameShape(r, decoded)
  {
    Normalize(ClipHistogram(Invert(decoded), lib, DefaultPercentiles))
  }

  /** The buffer after the balance stage. */
  function Balanced(decoded: Buffer, lib: Library): (r: Buffer)
    requires Conforms(lib)
    ensures SameShape(r, decoded)
  {
    BalanceColors(Normalized(decoded, lib), RedFactor, GreenFactor, BlueFactor)
  }

  /** The buffer process_image hands to Image.fromarray. */
  function Processed(decoded: Buffer, lib: Library): (r: Buffer)
    requires Conforms(lib)
    ensures SameShape(r, decoded)
  {
    Desaturated(Balanced(decoded, lib), lib, RedIntensity, YellowIntensity, YellowThreshold)
  }

  method ProcessImage(decoded: Buffer, lib: Library) returns (processed: Buffer)
    requires Conforms(lib)
    ensures processed == Processed(decoded, lib)
    ensures processed.height == decoded.height && processed.width == decoded.width
  {
    var na := Invert(decoded);
    var clipped := ClipHistogram(na, lib, DefaultPercentiles);
    var normalized := Normalize(clipped);
    var balanced := BalanceColors(normalized, RedFactor, GreenFactor, BlueFactor);
    processed := DesaturateRedAndYellowLab(balanced, lib, RedIntensity, YellowIntensity, YellowThreshold);
  }

  /** Going into the chroma stage, every sample is at most 245: normalization bounds them, index 0
      passes the balance stage unchanged (factor 1.0) and indices 1 and 2 only shrink. */
  lemma BalancedBounds(decoded: Buffer, lib: Library, i: int)
    requires Conforms(lib)
    requires 0 <= i < |decoded.pixels|
    ensures var n, b := Normalized(decoded, lib).pixels[i], Balanced(decoded, lib).pixels[i];
            n.c0 <= 245 && n.c1 <= 245 && n.c2 <= 245
            && b.c0 == n.c0 && b.c1 <= n.c1 && b.c2 <= n.c2
  {
    var n := Normalized(decoded, lib).pixels[i];
    NormalizeRange(ClipHistogram(Invert(decoded), lib, DefaultPercentiles));
    assert Get(n, 0) <= 245 && Get(n, 1) <= 245 && Get(n, 2) <= 245;
    PipelineFactors(Normalized(decoded, lib), i);
  }

  /** A solid input (one colour everywhere) gives a solid output. */
  lemma ProcessedSolid(decoded: Buffer, lib: Library)
    requires Conforms(lib)
    requires Solid(decoded)
    ensures Solid(Processed(decoded, lib))
  {
    InvertSolid(decoded);
    ClipHistogramSolid(Invert(decoded), lib, DefaultPercentiles);
    NormalizeSolid(ClipHistogram(Invert(decoded), lib, DefaultPercentiles));
    BalanceSolid(Normalized(decoded, lib), RedFactor, GreenFactor, BlueFactor);
    DesaturatedSolid(Balanced(decoded, lib), lib, RedIntensity, YellowIntensity, YellowThreshold);
  }

  /** A flat grey input (every sample the same value v) stays flat through inversion and clipping,
      normalizes to black and stays black through balancing. */
  lemma FlatGreyBalancesToBlack(decoded: Buffer, lib: Library, v: Sample)
    requires Conforms(lib)
    requires |decoded.pixels| > 0 && Flat(decoded, v)
    ensures Flat(Balanced(decoded, lib), 0)
  {
    var inverted := Invert(decoded);
    InvertSolid(decoded);
    FlatIsSolid(inverted, 255 - v);
    ClipHistogramSolid(inverted, lib, DefaultPercentiles);
    var normalized := Normalize(inverted);
    assert normalized == Normalized(decoded, lib);
    NormalizeFlat(inverted, 255 - v);
    BalanceBlack(normalized, RedFactor, GreenFactor, BlueFactor);
  }

  /** So every output pixel of a flat grey input is the conversion of black, corrected in LAB:
      a constant that depends on the LAB conversions alone. */
  lemma ProcessedFlatGrey(decoded: Buffer, lib: Library, v: Sample)
    requires Conforms(lib)
    requires |decoded.pixels| > 0 && Flat(decoded, v)
    ensures forall i :: 0 <= i < |decoded.pixels| ==>
              Processed(decoded, lib).pixels[i]
              == lib.labToBgr(CorrectChroma(lib.bgrToLab(Pixel(0, 0, 0)), RedIntensity, YellowIntensity, YellowThreshold))
  {
    FlatGreyBalancesToBlack(decoded, lib, v);
  }

  /** With the pipeline's parameters, a neutral LAB pixel (a* = b* = 128, as the 8-bit encoding
      stores grey) keeps its lightness and a*, while b* is pulled from 128 down to 125. */
  lemma NeutralLabCorrection(l: Sample)
    ensures CorrectChroma(Pixel(l, 128, 128), RedIntensity, YellowIntensity, YellowThreshold) == Pixel(l, 128, 125)
  {
    YellowBoundary();
  }
}
