/**
 * `pixelate_image`: shrink the image by `pixel_size`, then scale it back to
 * its own size. The resampling itself is OpenCV's; what is modelled here is
 * the size arithmetic, the method branch and the errors each path can raise.
 */
module Pixelation {
  import opened Images
  import opened Outcomes
  import opened OpenCv

  /**
   * Python's `a // b`: the floor of the exact quotient. Dafny's `/` is
   * Euclidean and differs from it when `b` is negative.
   */
  function FloorDiv(a: int, b: int): (q: int)
    requires b != 0
    ensures b > 0 ==> q * b <= a < q * b + b
    ensures b < 0 ==> q * b >= a > q * b + b
  {
    if b > 0 then a / b else (-a) / (-b)
  }

  /** A natural number times a positive one is at least the first factor. */
  lemma {:induction false} ProductAtLeast(q: nat, p: nat)
    requires p >= 1
    ensures q * p >= q
    decreases p
  {
    if p > 1 {
      ProductAtLeast(q, p - 1);
      assert q * p == q * (p - 1) + q;
    }
  }

  /**
   * For a positive divisor, `d // p` counts the whole blocks of `p` in `d`:
   * it lies between 0 and `d`, and is 0 exactly when `p` exceeds `d`.
   */
  lemma {:induction false} WholeBlocks(d: nat, p: int)
    requires p >= 1
    ensures var q := FloorDiv(d, p);
      q * p <= d < q * p + p && 0 <= q <= d && (q == 0 <==> p > d)
  {
    var q := FloorDiv(d, p);
    assert q == d / p;
    ProductAtLeast(q, p);
    if q >= 1 {
      ProductAtLeast(p, q);
    }
  }

  function Max(a: int, b: int): int {
    if a >= b then a else b
  }

  /**
   * `max(1, d // pixel_size)`: one side of the shrunken image. A zero
   * `pixel_size` raises ZeroDivisionError.
   */
  function ReducedSize(d: nat, pixelSize: int): (r: Result<nat>)
    ensures r.Err? <==> pixelSize == 0
    ensures r.Err? ==> r.error == ZeroDivisionError
    ensures r.Ok? ==> r.value >= 1
    ensures r.Ok? && d >= 1 ==> r.value <= d
    ensures r.Ok? && (pixelSize > d || pixelSize < 0) ==> r.value == 1
    ensures r.Ok? && 1 <= pixelSize <= d ==> r.value * pixelSize <= d < r.value * pixelSize + pixelSize
  {
    if pixelSize == 0 then Err(ZeroDivisionError)
    else
      var q := FloorDiv(d, pixelSize);
      if pixelSize >= 1 then
        WholeBlocks(d, pixelSize);
        Ok(Max(1, q))
      else
        assert q <= 0;
        Ok(Max(1, q))
  }

  /**
   * `pixelate_image(image, pixel_size, method)`. The width is reduced first,
   * so a zero `pixel_size` fails there. "average" shrinks with area
   * interpolation and enlarges with nearest-neighbour; "gaussian" blurs with
   * a (pixel_size + 1)-square kernel, shrinks with area interpolation and
   * enlarges with cubic interpolation. Any other method leaves `pixelated`
   * unassigned and the final `return` raises UnboundLocalError.
   * The source's `method` parameter is named `mode` here, since `method` is
   * a Dafny keyword.
   */
  function PixelateImage(image: Image, pixelSize: int, mode: string, lib: Library): (r: Result<Image>)
    ensures pixelSize == 0 ==> r == Err(ZeroDivisionError)
    ensures pixelSize != 0 && mode != "average" && mode != "gaussian" ==> r == Err(UnboundLocalError)
    ensures r.Err? ==> r.error in {ZeroDivisionError, UnboundLocalError, OpenCvError}
    ensures r == Err(UnboundLocalError) ==> mode != "average" && mode != "gaussian"
    ensures Lawful(lib) ==>
      (r.Ok? <==> pixelSize != 0 &&
                  (mode == "average" ||
                   (mode == "gaussian" &&
                    (SinglePixel(image) || (pixelSize + 1 > 0 && (pixelSize + 1) % 2 == 1)))))
    ensures Lawful(lib) && r.Ok? ==> SameShape(r.value, image)
  {
    var height, width := |image|, Width(image);
    var newWidth :- ReducedSize(width, pixelSize);
    // the same divisor, so the height cannot fail once the width did not
    var newHeight := ReducedSize(height, pixelSize).value;
    if mode == "average" then
      var small := lib.resize(image, newWidth, newHeight, Area);
      Ok(lib.resize(small, width, height, Nearest))
    else if mode == "gaussian" then
      match lib.gaussianBlur(image, pixelSize + 1)
      case None => Err(OpenCvError)
      case Some(blurred) =>
        var small := lib.resize(blurred, newWidth, newHeight, Area);
        Ok(lib.resize(small, width, height, Cubic))
    else
      Err(UnboundLocalError)
  }

  /**
   * The shrunken image is at most as large as the original and at least one
   * pixel in each direction; with `pixel_size` larger than a side, that side
   * shrinks to a single pixel.
   */
  lemma {:induction false} ShrunkenSize(image: Image, pixelSize: int, lib: Library)
    requires Lawful(lib) && pixelSize != 0
    ensures var w, h := ReducedSize(Width(image), pixelSize).value, ReducedSize(|image|, pixelSize).value;
      var small := lib.resize(image, w, h, Area);
      1 <= |small| <= |image| && 1 <= Width(small) <= Width(image) &&
      (pixelSize > |image| ==> |small| == 1) && (pixelSize > Width(image) ==> Width(small) == 1)
  {
  }

  /**
   * With the "gaussian" method an odd `pixel_size` gives an even kernel,
   * which OpenCV rejects for any image larger than one pixel, so the call
   * fails.
   */
  lemma {:induction false} GaussianOddSizeFails(image: Image, pixelSize: int, lib: Library)
    requires Lawful(lib) && pixelSize % 2 == 1 && !SinglePixel(image)
    ensures PixelateImage(image, pixelSize, "gaussian", lib) == Err(OpenCvError)
  {
    assert lib.gaussianBlur(image, pixelSize + 1).None?;
  }

  /**
   * A single-pixel image passes the "gaussian" method for every non-zero
   * `pixel_size`, even kernel or not, and comes back as one pixel.
   */
  lemma {:induction false} GaussianSinglePixel(image: Image, pixelSize: int, lib: Library)
    requires Lawful(lib) && SinglePixel(image) && pixelSize != 0
    ensures PixelateImage(image, pixelSize, "gaussian", lib).Ok?
    ensures SinglePixel(PixelateImage(image, pixelSize, "gaussian", lib).value)
  {
    assert lib.gaussianBlur(image, pixelSize + 1) == Some(image);
  }
}
