/**
 * The stage sequence shared by the upload handler `pixelate_image_api` and
 * the batch loop `process_local_images`: pixelate, then quantise colours,
 * then dither, each stage gated by the request's parameters. An exception in
 * any stage ends the processing of that image.
 */
module Pipeline {
  import opened Images
  import opened Outcomes
  import opened OpenCv
  import opened Pixelation
  import opened ColorQuantizer
  import opened DitherSweep
  import opened DitherProperties

  /**
   * The processing parameters of one request (or of one batch run). The
   * source's `method` is named `mode`, since `method` is a Dafny keyword.
   */
  datatype Request = Request(pixelSize: int, mode: string, numColors: Option<int>, dither: bool)

  /** `method in ["average", "gaussian"]`: the caller runs pixelation only for these. */
  predicate Pixelates(mode: string) {
    mode == "average" || mode == "gaussian"
  }

  /** `num_colors and num_colors > 0`: `None` and `0` are falsy, negatives fail the comparison. */
  predicate Quantizes(numColors: Option<int>) {
    numColors.Some? && numColors.value != 0 && numColors.value > 0
  }

  /** The pixelation stage, skipped for any other method. */
  function PixelateStage(image: Image, req: Request, lib: Library): (r: Result<Image>)
    ensures !Pixelates(req.mode) ==> r == Ok(image)
    ensures r != Err(UnboundLocalError)
    ensures Lawful(lib) && r.Ok? ==> SameShape(r.value, image)
  {
    if Pixelates(req.mode) then PixelateImage(image, req.pixelSize, req.mode, lib) else Ok(image)
  }

  /** The colour-quantisation stage, skipped unless `num_colors` is a positive number. */
  function QuantizeStage(image: Image, req: Request, lib: Library): (r: Result<Image>)
    ensures !Quantizes(req.numColors) ==> r == Ok(image)
    ensures r.Ok? ==> SameShape(r.value, image)
    ensures r.Err? ==> r.error in {OpenCvError, ReshapeError}
  {
    if Quantizes(req.numColors) then QuantizeColors(image, req.numColors.value, lib) else Ok(image)
  }

  /** The dithering stage, run only when `dither` is set; it cannot fail. */
  function DitherStage(image: Image, req: Request): (r: Image)
    ensures SameShape(r, image)
    ensures !req.dither ==> r == image
  {
    if req.dither then DitherImage(image) else image
  }

  /** One image through the three stages, in their fixed order. */
  function ProcessImage(image: Image, req: Request, lib: Library): (r: Result<Image>)
    ensures r != Err(UnboundLocalError)
    ensures !Pixelates(req.mode) && !Quantizes(req.numColors) && !req.dither ==> r == Ok(image)
    ensures Pixelates(req.mode) && req.pixelSize == 0 ==> r == Err(ZeroDivisionError)
    ensures Lawful(lib) && r.Ok? ==> SameShape(r.value, image)
  {
    var pixelated :- PixelateStage(image, req, lib);
    var quantized :- QuantizeStage(pixelated, req, lib);
    Ok(DitherStage(quantized, req))
  }

  /**
   * Dithering runs last: turning it on changes nothing but applying
   * `apply_dithering` to the otherwise finished image.
   */
  lemma {:induction false} DitherRunsLast(image: Image, req: Request, lib: Library)
    ensures var without := ProcessImage(image, req.(dither := false), lib);
      var with := ProcessImage(image, req.(dither := true), lib);
      with.Ok? == without.Ok? &&
      (with.Ok? ==> with.value == DitherImage(without.value)) &&
      (with.Err? ==> with.error == without.error)
  {
    var off, on := req.(dither := false), req.(dither := true);
    assert PixelateStage(image, on, lib) == PixelateStage(image, off, lib);
    var p := PixelateStage(image, off, lib);
    if p.Ok? {
      assert QuantizeStage(p.value, on, lib) == QuantizeStage(p.value, off, lib);
    }
  }

  /**
   * Quantisation runs after pixelation and before dithering: with it turned
   * on, the result is the quantisation of the pixelated image, dithered if
   * requested.
   */
  lemma {:induction false} QuantizeRunsSecond(image: Image, req: Request, lib: Library)
    requires Quantizes(req.numColors)
    ensures var pixelated := ProcessImage(image, req.(numColors := None, dither := false), lib);
      var r := ProcessImage(image, req, lib);
      (pixelated.Err? ==> r == pixelated) &&
      (pixelated.Ok? ==>
        r == match QuantizeColors(pixelated.value, req.numColors.value, lib)
             case Ok(q) => Ok(DitherStage(q, req))
             case Err(e) => Err(e))
  {
    var bare := req.(numColors := None, dither := false);
    assert PixelateStage(image, bare, lib) == PixelateStage(image, req, lib);
  }

  /**
   * With dithering on, every channel of every pixel outside the last row
   * and column of the result is one of the nine dither levels.
   */
  lemma {:induction false} DitheredLevels(image: Image, req: Request, lib: Library, i: nat, j: nat, c: nat)
    requires req.dither && ProcessImage(image, req, lib).Ok?
    requires var out := ProcessImage(image, req, lib).value;
      i < |out| - 1 && j < Width(out) - 1 && c < 3
    ensures ProcessImage(image, req, lib).value[i][j][c] in {0, 32, 64, 96, 128, 160, 192, 224, 255}
  {
    var pixelated := PixelateStage(image, req, lib).value;
    var quantized := QuantizeStage(pixelated, req, lib).value;
    DitherImageLevels(quantized, i, j, c);
  }

  /**
   * Quantising without dithering leaves at most `num_colors` colours in the
   * result.
   */
  lemma {:induction false} QuantizedPaletteSize(image: Image, req: Request, lib: Library)
    requires Lawful(lib) && Quantizes(req.numColors) && !req.dither
    requires ProcessImage(image, req, lib).Ok?
    ensures |Colors(ProcessImage(image, req, lib).value)| <= req.numColors.value
  {
    var pixelated := PixelateStage(image, req, lib).value;
    PaletteSize(pixelated, req.numColors.value, lib);
  }

  /** The defaults of the upload endpoint: pixel size 8, "average", no quantisation, no dithering. */
  const ApiDefaults := Request(8, "average", None, false)

  /** The defaults of the batch run: pixel size 8, "average", 16 colours, no dithering. */
  const BatchDefaults := Request(8, "average", Some(16), false)

  /** With the endpoint's defaults every image is processed, keeping its size. */
  lemma {:induction false} ApiDefaultsSucceed(image: Image, lib: Library)
    requires Lawful(lib)
    ensures ProcessImage(image, ApiDefaults, lib).Ok?
    ensures SameShape(ProcessImage(image, ApiDefaults, lib).value, image)
  {
  }

  /**
   * With the batch defaults an image succeeds exactly when it has at least
   * 16 pixels (k-means needs as many points as clusters), and then keeps its
   * size and uses at most 16 colours.
   */
  lemma {:induction false} BatchDefaultsOutcome(image: Image, lib: Library)
    requires Lawful(lib)
    ensures ProcessImage(image, BatchDefaults, lib).Ok? <==> |image| * Width(image) >= 16
    ensures ProcessImage(image, BatchDefaults, lib).Ok? ==>
      SameShape(ProcessImage(image, BatchDefaults, lib).value, image) &&
      |Colors(ProcessImage(image, BatchDefaults, lib).value)| <= 16
  {
    var pixelated := PixelateStage(image, BatchDefaults, lib);
    assert pixelated.Ok? && SameShape(pixelated.value, image);
    if ProcessImage(image, BatchDefaults, lib).Ok? {
      QuantizedPaletteSize(image, BatchDefaults, lib);
    }
  }
}
