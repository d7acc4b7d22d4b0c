/**
 * The OpenCV and numpy routines the pipeline calls but whose floating-point
 * internals are not modelled: cv2.equalizeHist, np.percentile and the two
 * cv2.cvtColor conversions between the BGR and 8-bit LAB encodings. They are
 * passed to the stages as a record of functions, and Conforms states all the
 * model relies on about them.
 */
module Foreign {
  import opened Numeric
  import opened PixelBuffer

  /** A percentile rank, as np.percentile accepts it: any real number from 0 to 100. */
  type Percent = q: real | 0.0 <= q <= 100.0

  datatype Library = Library(
    /** cv2.equalizeHist on one uint8 plane. */
    equalizeHist: seq<Sample> -> seq<Sample>,
    /** np.percentile(plane, q) with linear interpolation, as a float. */
    percentile: (seq<Sample>, Percent) -> real,
    /** cv2.cvtColor(..., COLOR_BGR2LAB) on one pixel of a uint8 image. */
    bgrToLab: Pixel -> Pixel,
    /** cv2.cvtColor(..., COLOR_LAB2BGR) on one pixel of a uint8 image. */
    labToBgr: Pixel -> Pixel)

  /** What the library routines guarantee and the model uses:
      equalization keeps the length of a plane and leaves a constant plane as it is
      (OpenCV sets every sample to the single occupied histogram bin); a percentile of a
      non-empty plane lies between its smallest and largest sample and does not decrease
      as the rank grows. Sample ranges hold by the types. */
  ghost predicate Conforms(lib: Library)
  {
    (forall c: seq<Sample> :: |lib.equalizeHist(c)| == |c|)
    && (forall c: seq<Sample>, v: Sample :: Constant(c, v) ==> lib.equalizeHist(c) == c)
    && (forall c: seq<Sample>, q: Percent :: |c| > 0 ==>
          SeqMin(c) as real <= lib.percentile(c, q) <= SeqMax(c) as real)
    && (forall c: seq<Sample>, q1: Percent, q2: Percent :: |c| > 0 && q1 <= q2 ==>
          lib.percentile(c, q1) <= lib.percentile(c, q2))
  }
}
