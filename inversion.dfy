/**
 * Stage 1 of process_image: Image.eval(img, lambda x: 255 - x) on the decoded
 * RGB image, applied to every band of every pixel.
 */
module Inversion {
  import opened Numeric
  import opened PixelBuffer

  /** The tonal complement of one sample. */
  function InvertSample(v: Sample): (r: Sample)
    ensures r + v == 255
  {
    255 - v
  }

  function InvertPixel(p: Pixel): (r: Pixel)
    ensures forall k: ChannelIndex :: Get(r, k) == InvertSample(Get(p, k))
  {
    Pixel(InvertSample(p.c0), InvertSample(p.c1), InvertSample(p.c2))
  }

  /** Every sample of the result is 255 minus the sample at the same pixel and index. */
  function Invert(img: Buffer): (r: Buffer)
    ensures r.height == img.height && r.width == img.width && |r.pixels| == |img.pixels|
    ensures forall i, k: ChannelIndex :: 0 <= i < |img.pixels| ==>
              Get(r.pixels[i], k) == 255 - Get(img.pixels[i], k)
  {
    Image(img.height, img.width,
          seq(|img.pixels|, i requires 0 <= i < |img.pixels| => InvertPixel(img.pixels[i])))
  }

  /** Inverting twice gives back the original buffer exactly. */
  lemma InvertInvolution(img: Buffer)
    ensures Invert(Invert(img)) == img
  {
    var twice := Invert(Invert(img));
    forall i | 0 <= i < |img.pixels|
      ensures twice.pixels[i] == img.pixels[i]
    {
      var p, q := img.pixels[i], twice.pixels[i];
      assert Get(q, 0) == Get(p, 0) && Get(q, 1) == Get(p, 1) && Get(q, 2) == Get(p, 2);
    }
  }

  /** Inversion maps a solid image to a solid image, and a flat image of v to one of 255 - v. */
  lemma InvertSolid(img: Buffer)
    ensures Solid(img) ==> Solid(Invert(img))
    ensures forall v: Sample :: Flat(img, v) ==> Flat(Invert(img), 255 - v)
  {
  }
}
