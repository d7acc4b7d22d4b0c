# Negative-restoration pixel pipeline, modelled in Dafny

This project models the pixel-correction pipeline of `app/services/image_processing.py`.
The service turns a scanned photographic negative into a positive image
(`process_image`). Once the file is decoded, the image is an `H × W × 3` grid of
8-bit samples, and it goes through five stages in a fixed order:

1. inversion (`255 − v` on every sample);
2. `clip_histogram`: per-plane histogram equalization, then a clamp to the 5th–99th
   percentile window of the equalized plane;
3. `cv2.normalize(..., 0, 245, NORM_MINMAX)` over the whole buffer;
4. `balance_colors`: a per-plane gain, clamped to `[0, 255]` and truncated;
5. `desaturate_red_and_yellow_lab`: in LAB, `a*` above 128 and `b*` above a threshold
   are pulled back toward the threshold. The masked assignments are done in place on
   int16 arrays.

## Layout

| file | module | contents |
|---|---|---|
| `numeric.dfy` | `Numeric` | `Sample` (0..255); numpy's `clip`; truncation toward zero (`astype` on non-negative values); `saturate_cast<uchar>` (saturate, round half to even) |
| `pixel_buffer.dfy` | `PixelBuffer` | `Pixel`, `Image`/`Buffer` (`|pixels| == height * width`); `cv2.split`/`cv2.merge` as `Channel`/`Merge`; global minimum and maximum over all samples |
| `foreign.dfy` | `Foreign` | the OpenCV/numpy calls whose internals are not modelled (`equalizeHist`, `percentile`, BGR⇄LAB), as a `Library` value and the contract `Conforms` they are assumed to meet |
| `inversion.dfy` | `Inversion` | stage 1 |
| `histogram_clip.dfy` | `HistogramClip` | stage 2 |
| `normalization.dfy` | `Normalization` | stage 3 |
| `color_balance.dfy` | `ColorBalance` | stage 4 |
| `chroma.dfy` | `ChromaCorrection` | stage 5, including the in-place masked update as a method over an `array<int>` |
| `pipeline.dfy` | `Pipeline` | the stage order and arguments of `process_image`, and properties of the composed pipeline |

Decisions that follow the code rather than the colour names:

- The buffer built from the decoded image is RGB. `balance_colors` and `clip_histogram`
  split it as `b, g, r`, so index 0 (red) is scaled by `blue_factor` and takes the `b_*`
  percentiles. The model keeps to array indices: `BalanceColors` applies `blueFactor`
  to index 0. With the pipeline's arguments, that means the factor 1.0 applies to index 0
  and the factor 0.9 applies to index 2.
- `desaturate_red_and_yellow_lab` converts with `COLOR_BGR2LAB` whatever the buffer holds.
  The conversions are properties of the `Library` value, applied to the pixel as stored.
- The balance gain is truncated, not rounded (`astype(np.uint8)` after `np.clip`).
- The masked assignment into the int16 arrays truncates toward zero.
- Real factors are exact rationals (0.9, 0.85, 1.0, 0.6, 0.9).
- Percentile ranks are real numbers in [0, 100], as `np.percentile` accepts them. The defaults are 5 and 99.
- `cv2.normalize` with `NORM_MINMAX` is modelled as OpenCV computes it:
  - min and max are taken over all three channels together;
  - scale = 245 / (max − min), or 0 when max == min;
  - shift = −min · scale;
  - each value is stored with `saturate_cast<uchar>`, which rounds half to even.
  A flat buffer, where every sample has the same value, therefore normalizes to all zeros.

## Model

| member | source | states |
|---|---|---|
| `Numeric.Clip` | app/services/image_processing.py:15 | numpy's `clip` as minimum(maximum(x, lo), hi): an ordered window contains the result, a value inside the window is kept, and values below or above it go to the bound, as does every value when lo > hi |
| `Numeric.Trunc` | app/services/image_processing.py:15 | conversion of a float to an integer type: the integer part, rounding toward zero for either sign |
| `Numeric.Saturate` | app/services/image_processing.py:50 | the clip to 0..255 before `astype(np.uint8)`: values in range are kept, negative values become 0, and values above 255 become 255 |
| `Numeric.RoundHalfEven` | app/services/image_processing.py:73 | the rounding `saturate_cast<uchar>` applies in normalize: within one half of x, and even on an exact tie |
| `Inversion.InvertSample` | app/services/image_processing.py:65 | the inverted sample and the input sample add up to 255, so the result stays in 0..255 |
| `Inversion.Invert` | app/services/image_processing.py:65 | `Image.eval(img, lambda x: 255 - x)`: the shape is kept, and every sample of every pixel becomes 255 minus the input sample |
| `Inversion.InvertInvolution` | app/services/image_processing.py:65 | inverting twice gives back exactly the original buffer |
| `Inversion.InvertSolid` | app/services/image_processing.py:65 | a buffer of one colour inverts to a buffer of one colour, and a flat grey v inverts to a flat grey 255 − v |
| `PixelBuffer.Channel` | app/services/image_processing.py:22 | `cv2.split`: plane k has one entry per pixel, and that entry is the pixel's sample at index k |
| `PixelBuffer.Merge` | app/services/image_processing.py:32 | `cv2.merge([c0, c1, c2])`: pixel i is (c0[i], c1[i], c2[i]) in a buffer of the given height and width |
| `PixelBuffer.SplitThenMerge` | app/services/image_processing.py:22-32 | merging the three split planes gives back the buffer |
| `PixelBuffer.MergeThenSplit` | app/services/image_processing.py:22-32 | splitting a merged buffer gives back the three planes in the positions they were merged into |
| `PixelBuffer.GlobalMin` | app/services/image_processing.py:73 | the minimum normalize uses: no sample of any channel is below it, and a non-empty buffer has a sample equal to it |
| `PixelBuffer.GlobalMax` | app/services/image_processing.py:73 | the maximum normalize uses: no sample of any channel is above it, and a non-empty buffer has a sample equal to it |
| `HistogramClip.ClipSample` | app/services/image_processing.py:27 | `np.clip(v, lo, hi).astype(np.uint8)` on one sample, for an ordered window: a sample below the window becomes ⌊lo⌋, one above becomes ⌊hi⌋, and one inside it is unchanged, so the result lies in [⌊lo⌋, ⌊hi⌋]. For a crossed window (lo > hi) every sample becomes ⌊hi⌋, as numpy's minimum(maximum(·)) gives |
| `HistogramClip.ClipChannel` | app/services/image_processing.py:27-31 | the clamp keeps the plane's length and works sample by sample |
| `HistogramClip.PercentileWindow` | app/services/image_processing.py:26-30 | both percentile bounds lie between the smallest and the largest sample of the equalized plane, and low rank ≤ high rank gives lo ≤ hi |
| `HistogramClip.ClipHistogram` | app/services/image_processing.py:20-32 | the result has the height, width and pixel count of the input |
| `HistogramClip.ClipHistogramPlanes` | app/services/image_processing.py:22-32 | plane 0 of the result is plane 0 of the input, equalized and clipped with the `b_*` percentiles; plane 1 uses the `g_*` percentiles and plane 2 the `r_*` percentiles |
| `HistogramClip.ClipHistogramPerChannel` | app/services/image_processing.py:22-32 | each plane is processed on its own: plane k of the result is the equalized plane k of the input, clamped to plane k's own percentile window |
| `HistogramClip.ClipHistogramBounds` | app/services/image_processing.py:26-31 | when the low rank is at most the high rank, the window is ordered and every sample of plane k lies between the truncated bounds of that plane's window |
| `HistogramClip.DefaultWindowsOrdered` | app/services/image_processing.py:20 | with the defaults 5 and 99, every plane's lower bound is at most its upper bound |
| `HistogramClip.ClipChannelKeepsInside` | app/services/image_processing.py:27-31 | an integer sample already inside the window is unchanged |
| `HistogramClip.ClipChannelIdempotent` | app/services/image_processing.py:27-31 | clamping an already clamped plane again changes nothing |
| `HistogramClip.WiderWindowClipsFewer` | app/services/image_processing.py:27-31 | a window containing another has no more samples outside it |
| `HistogramClip.WiderPercentilesClipFewer` | app/services/image_processing.py:26-31 | a lower low rank and a higher high rank never increase the number of samples the clamp moves |
| `HistogramClip.LooserRanksClipFewer` | app/services/image_processing.py:20-31 | loosening the default ranks 5 / 99 to 1 / 99.9 never increases the number of samples of a plane that get clipped |
| `HistogramClip.ConstantPlaneUnchanged` | app/services/image_processing.py:23-31 | a plane of one value comes out of equalization and clamping unchanged |
| `HistogramClip.ClipHistogramSolid` | app/services/image_processing.py:20-32 | a buffer of one colour passes `clip_histogram` unchanged |
| `Normalization.Scale` | app/services/image_processing.py:73 | the NORM_MINMAX scale is non-negative; times (max − min) it gives 245 (= 245 − 0); it is 0 for a flat source |
| `Normalization.Scaled` | app/services/image_processing.py:73 | the value before rounding is (v − min) · scale, i.e. the shift puts the minimum at 0 |
| `Normalization.NormalizeSample` | app/services/image_processing.py:73 | a flat source gives 0; between min and max the result lies in [0, 245] and is the nearest integer to (v − min) · 245 / (max − min): it is within one half of that value |
| `Normalization.Normalize` | app/services/image_processing.py:73 | the shape is kept, and every sample is rescaled with the minimum and maximum taken over the whole buffer, all channels together |
| `Normalization.NormalizeSampleMonotone` | app/services/image_processing.py:73 | the rescaling is order-preserving |
| `Normalization.NormalizeSampleEnds` | app/services/image_processing.py:73 | the minimum goes to 0, and for a source that is not flat the maximum goes to 245 |
| `Normalization.NormalizeRange` | app/services/image_processing.py:73 | every normalized sample lies in [0, 245] |
| `Normalization.NormalizeExtremes` | app/services/image_processing.py:73 | samples equal to the global minimum become 0, and samples equal to the global maximum become 245 unless the buffer is flat; a non-empty output contains a 0, and also a 245 unless the buffer is flat |
| `Normalization.NormalizeOrderPreserving` | app/services/image_processing.py:73 | for any two samples of the buffer, in any positions and channels, x ≤ y on input gives out(x) ≤ out(y) |
| `Normalization.NormalizeFlat` | app/services/image_processing.py:73 | a non-empty flat buffer normalizes to all zeros |
| `Normalization.NormalizeSolid` | app/services/image_processing.py:73 | a buffer of one colour normalizes to a buffer of one colour |
| `ColorBalance.BalanceSample` | app/services/image_processing.py:15-17 | `np.clip(v * f, 0, 255).astype(np.uint8)`: the result is the integer part of the clamped product; a factor of 1.0 leaves the sample unchanged; a factor ≤ 1 never increases it |
| `ColorBalance.ClippedAtMost` | app/services/image_processing.py:15-17 | with a factor ≤ 1, the clamped product is at most the sample |
| `ColorBalance.BalanceSampleMonotone` | app/services/image_processing.py:15-17 | with a non-negative factor, balancing is order-preserving |
| `ColorBalance.BalanceColors` | app/services/image_processing.py:13-18 | the shape is kept; index 0 is scaled by `blue_factor`, index 1 by `green_factor` and index 2 by `red_factor`, and each result is written back at the index it was read from |
| `ColorBalance.BalanceNeverBrightens` | app/services/image_processing.py:13-18 | on each index, a factor ≤ 1 never increases the sample and a factor of exactly 1 keeps it |
| `ColorBalance.PipelineFactors` | app/services/image_processing.py:14-18 | with (0.9, 0.85, 1.0): index 0 is unchanged, index 1 becomes ⌊0.85 · v⌋ and index 2 becomes ⌊0.9 · v⌋, neither above v |
| `ColorBalance.BalanceBlack` | app/services/image_processing.py:13-18 | black stays black whatever the factors |
| `ColorBalance.BalanceSolid` | app/services/image_processing.py:13-18 | a buffer of one colour stays a buffer of one colour |
| `ChromaCorrection.Attenuate` | app/services/image_processing.py:48-49 | a value at or below the threshold is untouched; above it, the value becomes threshold + ⌊(v − threshold) · intensity⌋, which lies in [threshold, v] for an intensity in [0, 1] |
| `ChromaCorrection.AttenuateAbove` | app/services/image_processing.py:48-49 | `a[a > t] = t + (a[a > t] - t) * k` in place: every element of the array becomes the attenuation of its old value: elements above the threshold are replaced and the others are left as they were |
| `ChromaCorrection.CorrectChroma` | app/services/image_processing.py:44-58 | L is kept; an a* at most 128 is kept, and a larger one becomes 128 + ⌊(a − 128) · red_intensity⌋ ∈ [128, a]; b* follows the same rule with the yellow threshold and intensity |
| `ChromaCorrection.ToUint8` | app/services/image_processing.py:50 | `np.clip(x, 0, 255).astype(np.uint8)`: every entry is saturated into 0..255 |
| `ChromaCorrection.Desaturated` | app/services/image_processing.py:34-60 | the stage keeps the shape of the buffer |
| `ChromaCorrection.DesaturateRedAndYellowLab` | app/services/image_processing.py:43-60 | the method does the conversion, takes copies of a* and b* as arrays, does the masked updates in place, clips them to uint8, merges and converts back; every output pixel is then the LAB→BGR conversion of `CorrectChroma` applied to that pixel's BGR→LAB conversion |
| `ChromaCorrection.RedBoundary` | app/services/image_processing.py:47-50 | with red intensity 0.6, a* = 128 is unchanged, 129 becomes 128, and 255 becomes 204 |
| `ChromaCorrection.YellowBoundary` | app/services/image_processing.py:53-56 | with threshold 100 and intensity 0.9, b* = 100 is unchanged, 101 becomes 100, and 128 becomes 125 |
| `ChromaCorrection.DesaturatedSolid` | app/services/image_processing.py:43-60 | a buffer of one colour stays a buffer of one colour |
| `Pipeline.Normalized` | app/services/image_processing.py:65-73 | inversion, clipping and normalization keep the shape |
| `Pipeline.Balanced` | app/services/image_processing.py:65-76 | shape kept through the balance stage |
| `Pipeline.Processed` | app/services/image_processing.py:65-79 | the processed buffer has the decoded buffer's shape |
| `Pipeline.ProcessImage` | app/services/image_processing.py:63-83 | the stages are called in the source's order, with the source's arguments (default percentiles; 0.9/0.85/1.0; 0.6/0.9/100), and the result keeps the height and width of the decoded image |
| `Pipeline.BalancedBounds` | app/services/image_processing.py:73-76 | going into the chroma stage, every normalized sample is at most 245; index 0 passes balancing unchanged and indices 1 and 2 only shrink |
| `Pipeline.ProcessedSolid` | app/services/image_processing.py:63-79 | an input of one colour gives an output of one colour |
| `Pipeline.FlatGreyBalancesToBlack` | app/services/image_processing.py:65-76 | a flat grey input (one value in every sample) becomes black after balancing |
| `Pipeline.ProcessedFlatGrey` | app/services/image_processing.py:63-79 | every output pixel of a flat grey input is the chroma-corrected LAB conversion of black, whatever the grey |
| `Pipeline.NeutralLabCorrection` | app/services/image_processing.py:79 | with the pipeline's parameters, a neutral LAB pixel (a* = b* = 128) keeps its L and a*, and its b* drops to 125 |

## Left out

- Decoding and encoding are file I/O through PIL and are outside the model: `Image.open(...).convert('RGB')` and `np.array` (lines 64, 66), and `Image.fromarray(...).save` (lines 83-84). `ProcessImage` starts from the decoded buffer and returns the buffer handed to the encoder.
- The internals of `cv2.equalizeHist`, `np.percentile` and the BGR⇄LAB conversions are library code with floating-point arithmetic. The model passes them in as a `Library` value. Its `Conforms` predicate states what the model relies on:
  - equalization keeps the plane's length;
  - equalization leaves a constant plane unchanged, which is OpenCV's special case for a single-valued histogram;
  - percentiles lie between the plane's minimum and maximum;
  - percentiles are monotone in the rank.
  Nothing is assumed about the LAB conversions.
- `adjust_channel_curve_lab` (lines 5-11) is a CLAHE wrapper over OpenCV that `process_image` never calls.
- `app/routes.py` (HTTP routes, uploads, JSON files), `app/utils/cleanup.py` (a filesystem sweep) and `main.py` (application wiring) are not part of this model.
- `Normalization.NormalizeSample`: the model computes the scaled value exactly. `cv::normalize` computes scale and shift in double precision, but the uint8-to-uint8 `convertTo` evaluates v · scale + shift in single precision before rounding. Only values lying exactly on a rounding tie can round differently there: the model rounds them half to even, while the single-precision value may fall just above or below the tie.
- `ChromaCorrection.Attenuate`: the int16 intermediate is an unbounded integer here. For the 8-bit inputs and the intensities in [0, 1] that the pipeline uses, it never leaves the int16 range. Intensities large enough to overflow int16 are not modelled.
- `HistogramClip.PercentileWindow`: numpy raises an error on the percentile of an empty plane. For an empty buffer the model's window is unconstrained instead, and no sample is clamped, so the result is the same empty buffer.
- `ColorBalance.BalanceSample` and `ChromaCorrection.Attenuate`: the factors are exact rationals, while numpy multiplies in double precision. A float product lying just below an integer could truncate one lower than the exact product does.
