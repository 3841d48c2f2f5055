# Pixel-art converter: a verified model of its image pipeline

The converter turns an image into pixel art in up to three stages, which
both the upload endpoint and the batch command run in the same order:

1. `pixelate_image` shrinks the image by the pixel size and scales it back.
   It has two methods, "average" and "gaussian".
2. `quantize_colors` clusters the colours with k-means in Lab space and
   repaints every pixel with its cluster's centre.
3. `apply_dithering` runs a Floyd–Steinberg error-diffusion sweep with
   quantisation steps of 32.

This project models those stages in Dafny and proves what they guarantee.

- **The dithering sweep** (`DitherSweep`) is modelled in full.
  - `VisitPixel`, `SweepRow`, `SweepRows` and `Dither` specify it statement
    by statement, as pure functions over one channel.
  - `DitherChannel` runs the same nested loops in place on an
    `array2<real>`, and is proved to produce `Dither`.
  - `ApplyDithering` copies each channel into such a buffer, sweeps it, and
    clips and truncates the result to bytes.
- **The sweep's properties** are proved in `DitherProperties`:
  - error flows only forward in row-major order;
  - a visited pixel keeps its quantised level;
  - working values stay within [−16, 271];
  - the nine levels 0, 32, …, 256 come out as 0, 32, …, 224 and 255;
  - the buffer total is conserved, except for the share dropped at the left
    edge;
  - a one-pixel-thin image passes through unchanged.
- **The scalar arithmetic** is in `Rounding`: numpy's round-half-to-even,
  quantisation to multiples of 32, and the clip-then-truncate to `uint8`.
- **Pixelation** (`Pixelation`) covers three parts:
  - the reduced size `max(1, d // pixel_size)`, using Python's floor
    division;
  - the method branch, including the unassigned `pixelated` that a third
    method would hit;
  - the errors each path raises.
- **Quantisation** (`ColorQuantizer`) covers:
  - the row-major flattening and the reshape back, which are proved to be
    inverses;
  - the `centers[labels]` gather and the truncation to bytes;
  - the result that the output uses at most `num_colors` colours.
- **The stage gating** (`Pipeline`) covers:
  - the `method in [...]` and `num_colors and num_colors > 0` tests;
  - the fixed order of the three stages;
  - the defaults of the endpoint and of the batch command.

OpenCV's `resize`, `GaussianBlur`, `cvtColor` and `kmeans` are parameters,
collected in `OpenCv.Library`. `OpenCv.Lawful` states the facts OpenCV
documents or asserts for them:

- the output sizes;
- that the blur copies a single-pixel image whatever the kernel, and
  otherwise needs a positive odd kernel;
- that k-means needs between 1 and |points| clusters, labels every point and
  returns k centres.

Two further facts are built into the types of every library, lawful or not:

- `OpenCv.Center`: every component of a k-means centre lies in [0, 255].
- `OpenCv.Clustering`: every label indexes one of the centres.

Three behaviours of the code are worth knowing:

- The code does not reject a pixel size of zero or below before resampling.
  Zero raises ZeroDivisionError. A negative size silently shrinks every side
  to 1 (`Pixelation.ReducedSize`).
- The "gaussian" method does not force an odd kernel. An odd pixel size gives
  an even kernel size, which OpenCV refuses for every image larger than one
  pixel (`Pixelation.GaussianOddSizeFails`). A single-pixel image is copied
  by the blur and succeeds whatever the kernel (`Pixelation.GaussianSinglePixel`).
- The quantisation step 32 gives nine levels, not the eight that the comment
  at `main.py:89` names. The level 256 is produced for inputs from 240 up, and
  the clip turns it into 255. So the output bytes of the visited pixels (every
  row but the last, every column but the last) are 0, 32, …, 224 and 255, and
  255 is not a multiple of 32. The last row and the last column are never
  quantised and can hold any byte (`DitherProperties.DitherImageEdges`).

## Model

| member | source | states |
|---|---|---|
| Images.MapPixels | main.py:63 | a per-pixel colour conversion keeps the shape and converts each pixel on its own |
| Rounding.RoundHalfEven | main.py:89 | `np.round`: the result is within 1/2 of the argument, and an exact half goes to the even neighbour |
| Rounding.RoundHalfEvenUnique | main.py:89 | those two conditions determine the rounded value: any integer meeting them is `RoundHalfEven` |
| Rounding.Quantize | main.py:89 | `np.round(v / 32) * 32` is a multiple of 32 within 16 of `v`; at an exact tie it is the multiple with an even quotient |
| Rounding.QuantizeInRange | main.py:89 | a value in [−16, 271] quantises to one of the nine levels 0, 32, …, 256 |
| Rounding.QuantizeReachesTop | main.py:89 | every byte value from 240 to 255 quantises to 256, the ninth level |
| Rounding.ToByte | main.py:104 | clip to [0, 255], then truncate: 0 at or below 0, 255 at or above 255, the floor in between |
| Rounding.ToByteOfByte | main.py:104 | clipping and truncating a byte value gives it back |
| Rounding.LevelToByte | main.py:104 | the nine levels become the bytes 0, 32, …, 224, 255, and only level 256 becomes 255 |
| DitherSweep.AddInside | main.py:95-102 | a guarded `+=` keeps the grid's shape; it adds only when the target lies inside the grid |
| DitherSweep.DiffuseTap | main.py:95-102 | one of the four guarded neighbour updates keeps the grid's shape |
| DitherSweep.Diffuse | main.py:95-102 | the four guarded neighbour updates, in source order, keep the grid's shape |
| DitherSweep.VisitPixel | main.py:88-102 | the loop body keeps the grid's shape; its effect on each pixel is `DitherProperties.VisitPixelAt` |
| DitherSweep.SweepRow | main.py:87-102 | the inner loop's first x iterations keep the grid's shape |
| DitherSweep.SweepRows | main.py:86-102 | the outer loop's first y iterations keep the grid's shape |
| DitherSweep.Dither | main.py:86-102 | the whole sweep over rows 0..H−2 and columns 0..W−2 keeps the grid's shape |
| DitherSweep.SetAt | main.py:90 | writing the quantised value into the buffer makes it hold the grid with that one entry replaced |
| DitherSweep.AddAt | main.py:96-102 | an in-place `+=` makes the buffer hold `Add` of the grid it held |
| DitherSweep.DiffuseInPlace | main.py:95-102 | the four `if`-guarded in-place updates leave the buffer holding `Diffuse` of the grid it held |
| DitherSweep.VisitInPlace | main.py:88-102 | the in-place loop body leaves the buffer holding `VisitPixel` of the grid it held |
| DitherSweep.SweepRowInPlace | main.py:87-102 | the inner `for x` loop leaves the buffer holding `SweepRow` of the grid it held, for the whole row |
| DitherSweep.DitherChannel | main.py:86-102 | the nested loops, run in place, leave the buffer holding `Dither` of the grid it held |
| DitherSweep.Snapshot | main.py:104 | the grid read back from a buffer is the grid the buffer holds |
| DitherSweep.Channel | main.py:82 | the float copy of one channel has the image's shape and each entry equals that channel's byte |
| DitherSweep.ClipToBytes | main.py:104 | the final clip and `astype(uint8)` is applied entry by entry to the three swept channels |
| DitherSweep.DitherImage | main.py:80-104 | the dithered image has the input's height and width, and every channel is a byte |
| DitherSweep.ApplyDithering | main.py:80-104 | the method that sweeps three buffers in place returns exactly `DitherImage(image)` |
| DitherProperties.AddInsideAt | main.py:95-102 | a guarded update changes its target pixel alone, and only when the target is inside the grid |
| DitherProperties.DiffuseAt | main.py:95-102 | diffusion adds to each pixel its share of the error: 7/16 right, 5/16 below, 1/16 below-right, 3/16 below-left, each only inside the grid |
| DitherProperties.VisitPixelAt | main.py:88-102 | one loop step quantises (y, x) and adds to every other pixel its share of `old − new` |
| DitherProperties.VisitPixelKeepsEarlier | main.py:86-102 | a step at (y, x) leaves every pixel before (y, x) in row-major order unchanged |
| DitherProperties.SweepRowKeepsEarlier | main.py:87-102 | later steps of a row leave the pixels before the cursor unchanged |
| DitherProperties.SweepRowsKeepsEarlier | main.py:86-102 | later rows leave every earlier row unchanged |
| DitherProperties.DitherKeepsQuantised | main.py:86-104 | a visited pixel ends the sweep as the quantisation of the value it had when the cursor reached it |
| DitherProperties.Received | main.py:95-102 | the sixteenths of error a pixel can have received from visited neighbours never exceed 16 |
| DitherProperties.ReceivedAfterVisit | main.py:95-102 | a visit adds exactly sixteen times each other pixel's share to what that pixel has received |
| DitherProperties.InvariantStep | main.py:88-102 | one loop step keeps the invariant: visited pixels hold a level, the rest drifted by at most what they received |
| DitherProperties.InvariantRowWrap | main.py:86-87 | the invariant at the end of a row is the invariant at the start of the next |
| DitherProperties.InvariantSweepRow | main.py:87-102 | the inner loop keeps the invariant |
| DitherProperties.InvariantSweepRows | main.py:86-102 | the outer loop keeps the invariant, starting from a byte-valued channel |
| DitherProperties.WorkingValuesBounded | main.py:86-102 | at every point of the sweep every working value lies within [−16, 271] |
| DitherProperties.DitherRange | main.py:86-102 | after the sweep: visited pixels hold a level; the last row and column drift by at most 16; all values are in [−16, 271] |
| DitherProperties.TotalAddInside | main.py:95-102 | a guarded update adds its amount to the buffer's total exactly when its target is inside |
| DitherProperties.DiffuseTotal | main.py:95-102 | from a visited pixel the four updates hand on all the error at x ≥ 1, and 13/16 of it at x = 0 |
| DitherProperties.VisitPixelTotal | main.py:88-102 | a step keeps the buffer's total at x ≥ 1, and changes it by −3/16 of the error at x = 0 |
| DitherProperties.SweepRowsThin | main.py:87 | with one column the inner loop never runs, so the rows are unchanged |
| DitherProperties.DitherThin | main.py:86-87 | with one row or one column the sweep changes nothing |
| DitherProperties.ChannelInByteRange | main.py:82 | the float copy of a channel lies in [0, 255] |
| DitherProperties.DitherImageThin | main.py:80-104 | `apply_dithering` on a one-pixel-thin image returns the image unchanged |
| DitherProperties.DitherImageLevels | main.py:86-104 | every channel of a visited pixel in the output is one of 0, 32, …, 224, 255 |
| DitherProperties.DitherImageEdges | main.py:86-104 | last-row and last-column output channels differ from the input by at most 16 |
| Pixelation.FloorDiv | main.py:42-43 | Python's `//`: the floor of the exact quotient, for either sign of divisor |
| Pixelation.WholeBlocks | main.py:42-43 | for a positive pixel size, `d // p` counts the whole blocks: q·p ≤ d < q·p + p, 0 ≤ q ≤ d, and q = 0 exactly when p > d |
| Pixelation.ReducedSize | main.py:42-43 | `max(1, d // p)`: ZeroDivisionError exactly when p = 0; otherwise at least 1 and at most d; 1 when p > d or p < 0; the largest count of whole blocks when 1 ≤ p ≤ d |
| Pixelation.PixelateImage | main.py:37-57 | p = 0 raises ZeroDivisionError and another method raises UnboundLocalError; with lawful OpenCV it succeeds exactly for "average", or for "gaussian" with a positive odd kernel or a single-pixel image, and keeps the image's size |
| Pixelation.ShrunkenSize | main.py:42-49 | the shrunken image is between 1 and the original in each direction, and 1 wide where p exceeds that side |
| Pixelation.GaussianOddSizeFails | main.py:53 | with "gaussian", an odd pixel size gives an even kernel, which fails on every image larger than one pixel |
| Pixelation.GaussianSinglePixel | main.py:51-55 | with "gaussian", a single-pixel image succeeds for every non-zero pixel size and stays one pixel |
| ColorQuantizer.Flatten | main.py:64 | the flattened image has H·W pixels |
| ColorQuantizer.FlattenAt | main.py:64 | pixel (i, j) is entry i·W + j of the flattening |
| ColorQuantizer.RowOf | main.py:72 | each row cut from the flat pixels has w entries |
| ColorQuantizer.Reshape | main.py:72 | reshaping h·w pixels gives h rows of w |
| ColorQuantizer.ReshapeAt | main.py:72 | entry (i, j) of the reshaped grid is entry i·w + j of the sequence |
| ColorQuantizer.ReshapeFlatten | main.py:64-72 | reshaping the flattening to the image's shape gives the image back |
| ColorQuantizer.FlattenReshape | main.py:64-72 | flattening a reshaped sequence gives the sequence back |
| ColorQuantizer.Truncate | main.py:75 | `astype(uint8)` on a centre in [0, 255] is the floor of each component |
| ColorQuantizer.QuantizeColors | main.py:60-77 | fails only with an OpenCV or reshape error; with lawful OpenCV it succeeds exactly when 1 ≤ num_colors ≤ H·W; the result keeps the image's size |
| ColorQuantizer.QuantizedPixel | main.py:71-72 | output pixel (i, j) is the converted centre of the cluster k-means assigned to that same pixel's Lab value |
| ColorQuantizer.Palette | main.py:71-75 | there is one palette colour per cluster centre |
| ColorQuantizer.PixelInPalette | main.py:71-75 | every output pixel is a palette colour |
| ColorQuantizer.PaletteSize | main.py:71-75 | the quantised image uses at most `num_colors` distinct colours |
| Pipeline.PixelateStage | main.py:130-133 | methods other than "average" and "gaussian" pass the image through; the stage never raises UnboundLocalError |
| Pipeline.QuantizeStage | main.py:136-137 | unless `num_colors` is a positive number the image passes through; the stage keeps the size and fails only with an OpenCV or reshape error |
| Pipeline.DitherStage | main.py:140-141 | dithering keeps the size, and without `dither` the image passes through |
| Pipeline.ProcessImage | main.py:130-141 | never UnboundLocalError; all stages off returns the input; pixelating with p = 0 raises ZeroDivisionError; with lawful OpenCV the size is kept |
| Pipeline.DitherRunsLast | main.py:202-213 | turning `dither` on only applies `apply_dithering` to the otherwise finished result; failures are unchanged |
| Pipeline.QuantizeRunsSecond | main.py:202-213 | with quantisation on, the result is the quantisation of the pixelated image, dithered if requested |
| Pipeline.DitheredLevels | main.py:130-141 | with `dither`, every channel outside the last row and column is one of 0, 32, …, 224, 255 |
| Pipeline.QuantizedPaletteSize | main.py:136-137 | quantising without dithering leaves at most `num_colors` colours |
| Pipeline.ApiDefaultsSucceed | main.py:108-113 | with the endpoint's defaults every image is processed and keeps its size |
| Pipeline.BatchDefaultsOutcome | main.py:177 | with the batch defaults an image succeeds exactly when it has at least 16 pixels, and then keeps its size and uses at most 16 colours |

## Left out

- OpenCV's numerics: resampling, blur, colour conversion and k-means are not part of this model. They are abstract function parameters, constrained by the shape and argument facts in `OpenCv.Lawful` and by the `OpenCv.Center` and `OpenCv.Clustering` types. The randomness of `KMEANS_RANDOM_CENTERS` is absorbed by the arbitrary `kmeans` parameter.
- OpenCv.Center, OpenCv.Clustering: every k-means centre component is assumed to lie in [0, 255], and every label to index a centre, for every library. OpenCV's documentation does not state this. It follows from how OpenCV computes the final centres, as means of the labelled 8-bit points. This assumption lets `ColorQuantizer.Truncate` model `astype(np.uint8)` at main.py:75 as a floor. numpy's cast of an out-of-range float is not a floor, and that case is not modelled.
- `float32`: the sweep is modelled over exact reals, so float rounding of the diffused shares is not captured.
- DitherSweep.ApplyDithering: the source sweeps one H×W×3 buffer, and the model sweeps the three channels one after another in separate buffers. No update reads another channel, so the values are the same, but the interleaved layout is not modelled.
- DitherSweep.DiffuseInPlace: the guards are modelled as "the target lies inside the grid". Inside the sweep this is exactly what `x + 1 < width`, `y + 1 < height` and `x - 1 >= 0` test, and the right and below guards always hold there.
- ColorQuantizer.QuantizeColors: the reshape is applied to the truncated bytes rather than to the float centres before truncation. Both act entry by entry, so the result is the same.
- ColorQuantizer.PaletteSize: the bound is stated for the colours after the Lab-to-BGR conversion. The same bound on the truncated Lab centres before conversion is not stated as a separate lemma.
- HTTP and file I/O: the upload endpoint's content-type check, decoding, file writing, logging and error-to-500 mapping are not modelled; nor are the download and root endpoints, app setup, CORS or the directory creation.
- The batch loop in `process_local_images`: its globbing, `imread`/`imwrite`, printing and per-file `try`/`except` are not modelled, beyond the stage sequence it shares with the endpoint (`Pipeline.ProcessImage`).
- The `__main__` launcher, `run.py` (starts the web server) and `script.js` (browser UI) are not part of this model.
