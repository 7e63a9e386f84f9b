/**
 * The optional upscaling step after generation. Only image dimensions
 * are modelled; the resampling filter's pixels are not.
 */
module Upscale {

  datatype Image = Image(width: nat, height: nat)

  lemma MulMonotone(x: nat, y: nat, f: nat)
    requires x <= y
    ensures x * f <= y * f
  {
  }

  /** Multiplying by a positive factor and dividing by it again is the identity. */
  lemma MulDivCancel(a: nat, f: nat)
    requires f > 0
    ensures (a * f) / f == a
  {
    var q := (a * f) / f;
    var r := (a * f) % f;
    assert q * f + r == a * f;
    if q < a {
      assert (q + 1) * f == q * f + f;
      MulMonotone(q + 1, a, f);
    }
  }

  /** The size an image is resized to for a factor above one. */
  function Scaled(img: Image, factor: nat): Image {
    Image(img.width * factor, img.height * factor)
  }

  /**
   * What becomes of image `i` when resizing is requested: the resized
   * image, or the original one when the resize raised.
   */
  function UpscaledOrOriginal(img: Image, factor: nat, resized: bool): Image {
    if resized then Scaled(img, factor) else img
  }

  /** The images after the upscaling step. */
  function UpscaleImages(images: seq<Image>, factor: int, resized: nat -> bool): seq<Image> {
    if factor <= 1 then images
    else seq(|images|, i requires 0 <= i < |images| => UpscaledOrOriginal(images[i], factor, resized(i)))
  }

  /**
   * The upscaling step. For a factor above one every image is resized
   * (the `resized` oracle says whether image `i`'s resize succeeded) and
   * a failed resize keeps the original; otherwise the images are left
   * alone.
   */
  method UpscaleAll(images: seq<Image>, factor: int, resized: nat -> bool) returns (out: seq<Image>)
    ensures out == UpscaleImages(images, factor, resized)
    ensures |out| == |images|
    ensures factor <= 1 ==> out == images
    ensures factor > 1 ==> forall i :: 0 <= i < |images| ==>
      out[i] == (if resized(i) then Image(images[i].width * factor, images[i].height * factor) else images[i])
  {
    if factor <= 1 {
      return images;
    }
    var upscaled: seq<Image> := [];
    var i := 0;
    while i < |images|
      invariant 0 <= i <= |images|
      invariant |upscaled| == i
      invariant forall k :: 0 <= k < i ==> upscaled[k] == UpscaledOrOriginal(images[k], factor, resized(k))
    {
      upscaled := upscaled + [UpscaledOrOriginal(images[i], factor, resized(i))];
      i := i + 1;
    }
    out := upscaled;
  }

  /**
   * With every resize succeeding, dividing the dimensions by the factor
   * recovers the generated images: the step only scales.
   */
  lemma UpscaleInvertible(images: seq<Image>, out: seq<Image>, factor: nat, resized: nat -> bool)
    requires factor > 1 && |out| == |images|
    requires forall i :: 0 <= i < |images| ==> resized(i)
    requires forall i :: 0 <= i < |images| ==> out[i] == UpscaledOrOriginal(images[i], factor, resized(i))
    ensures forall i :: 0 <= i < |images| ==>
      Image(out[i].width / factor, out[i].height / factor) == images[i]
  {
    forall i | 0 <= i < |images|
      ensures Image(out[i].width / factor, out[i].height / factor) == images[i]
    {
      MulDivCancel(images[i].width, factor);
      MulDivCancel(images[i].height, factor);
    }
  }
}
