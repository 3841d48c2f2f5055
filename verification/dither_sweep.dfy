/**
 * `apply_dithering`: the Floyd-Steinberg error-diffusion sweep.
 *
 * One channel is a grid of reals (the source's float32 working copy, taken
 * exact here). The functions below specify the sweep statement by statement:
 * `VisitPixel` is one pass of the loop body, `SweepRow` the inner loop over
 * x, `SweepRows` the outer loop over y. `DitherChannel` runs the same sweep
 * in place on an `array2<real>` and is proved to produce `Dither`.
 * `ApplyDithering` copies the image, sweeps each channel and clips.
 */
module DitherSweep {
  import opened Images
  import opened Rounding

  /** One channel of the working buffer, indexed [y][x]. */
  type Grid = seq<seq<real>>

  /** How many indices `range(n - 1)` yields. */
  function Span(n: nat): nat {
    if n == 0 then 0 else n - 1
  }

  /** `g[i][j] += d` */
  function Add(g: Grid, i: nat, j: nat, d: real): (r: Grid)
    requires Rectangular(g) && i < |g| && j < Width(g)
    ensures Rectangular(r) && |r| == |g| && Width(r) == Width(g)
  {
    g[i := g[i][j := g[i][j] + d]]
  }

  /**
   * `g[i][j] += d` when (i, j) lies inside the grid, else nothing. Each of the
   * source's four guards (`x + 1 < width`, `y + 1 < height`, both, and
   * `x - 1 >= 0 and y + 1 < height`) is exactly this test for its neighbour.
   */
  function AddInside(g: Grid, i: int, j: int, d: real): (r: Grid)
    requires Rectangular(g)
    ensures Rectangular(r) && |r| == |g| && Width(r) == Width(g)
  {
    if 0 <= i < |g| && 0 <= j < Width(g) then Add(g, i, j, d) else g
  }

  /** How many neighbours the error of a pixel is handed on to. */
  const Taps: nat := 4

  /**
   * The k-th update of the loop body: Floyd-Steinberg's right (7/16), below
   * (5/16), below-right (1/16) and below-left (3/16) neighbours, in that order.
   */
  function DiffuseTap(g: Grid, y: nat, x: nat, error: real, k: nat): (r: Grid)
    requires Rectangular(g) && k < Taps
    ensures Rectangular(r) && |r| == |g| && Width(r) == Width(g)
  {
    match k
    case 0 => AddInside(g, y, x + 1, error * 7.0 / 16.0)
    case 1 => AddInside(g, y + 1, x, error * 5.0 / 16.0)
    case 2 => AddInside(g, y + 1, x + 1, error * 1.0 / 16.0)
    case 3 => AddInside(g, y + 1, x - 1, error * 3.0 / 16.0)
  }

  /** The first n updates of the loop body, handing on shares of the error of (y, x). */
  function Diffuse(g: Grid, y: nat, x: nat, error: real, n: nat): (r: Grid)
    requires Rectangular(g) && n <= Taps
    ensures Rectangular(r) && |r| == |g| && Width(r) == Width(g)
  {
    if n == 0 then g else DiffuseTap(Diffuse(g, y, x, error, n - 1), y, x, error, n - 1)
  }

  /** The loop body at (y, x): quantise the pixel, then diffuse its error over the whole kernel. */
  function VisitPixel(g: Grid, y: nat, x: nat): (r: Grid)
    requires Rectangular(g) && y < |g| && x < Width(g)
    ensures Rectangular(r) && |r| == |g| && Width(r) == Width(g)
  {
    var oldPixel := g[y][x];
    var newPixel := Quantize(oldPixel);
    Diffuse(g[y := g[y][x := newPixel]], y, x, oldPixel - newPixel, Taps)
  }

  /** The inner loop of row y after its first x iterations. */
  function SweepRow(g: Grid, y: nat, x: nat): (r: Grid)
    requires Rectangular(g) && y < Span(|g|) && x <= Span(Width(g))
    ensures Rectangular(r) && |r| == |g| && Width(r) == Width(g)
  {
    if x == 0 then g else VisitPixel(SweepRow(g, y, x - 1), y, x - 1)
  }

  /** The outer loop after its first y iterations. */
  function SweepRows(g: Grid, y: nat): (r: Grid)
    requires Rectangular(g) && y <= Span(|g|)
    ensures Rectangular(r) && |r| == |g| && Width(r) == Width(g)
  {
    if y == 0 then g else SweepRow(SweepRows(g, y - 1), y - 1, Span(Width(g)))
  }

  /** The whole sweep: rows 0 .. H-2, and in each of them columns 0 .. W-2. */
  function Dither(g: Grid): (r: Grid)
    requires Rectangular(g)
    ensures Rectangular(r) && |r| == |g| && Width(r) == Width(g)
  {
    SweepRows(g, Span(|g|))
  }

  /** The buffer `a` currently holds the grid `g`. */
  ghost predicate Holds(a: array2<real>, g: Grid)
    reads a
  {
    Rectangular(g) && a.Length0 == |g| && a.Length1 == Width(g) &&
    forall i, j | 0 <= i < a.Length0 && 0 <= j < a.Length1 :: a[i, j] == g[i][j]
  }

  /** `a[i, j] = v` */
  method SetAt(a: array2<real>, ghost g: Grid, i: nat, j: nat, v: real)
    requires Holds(a, g) && i < a.Length0 && j < a.Length1
    modifies a
    ensures Holds(a, g[i := g[i][j := v]])
  {
    a[i, j] := v;
  }

  /** `a[i, j] += d` */
  method AddAt(a: array2<real>, ghost g: Grid, i: nat, j: nat, d: real)
    requires Holds(a, g) && i < a.Length0 && j < a.Length1
    modifies a
    ensures Holds(a, Add(g, i, j, d))
  {
    a[i, j] := a[i, j] + d;
  }

  /** The second half of the loop body: the four guarded updates, in place. */
  method DiffuseInPlace(a: array2<real>, ghost g: Grid, y: nat, x: nat, error: real)
    requires Holds(a, g) && y < a.Length0 && x < a.Length1
    modifies a
    ensures Holds(a, Diffuse(g, y, x, error, Taps))
  {
    var height, width := a.Length0, a.Length1;
    ghost var d1, d2, d3 := Diffuse(g, y, x, error, 1), Diffuse(g, y, x, error, 2), Diffuse(g, y, x, error, 3);
    assert Diffuse(g, y, x, error, 0) == g;
    if x + 1 < width {
      AddAt(a, g, y, x + 1, error * 7.0 / 16.0);
    }
    assert d1 == AddInside(g, y, x + 1, error * 7.0 / 16.0);
    if y + 1 < height {
      AddAt(a, d1, y + 1, x, error * 5.0 / 16.0);
    }
    assert d2 == AddInside(d1, y + 1, x, error * 5.0 / 16.0);
    if x + 1 < width && y + 1 < height {
      AddAt(a, d2, y + 1, x + 1, error * 1.0 / 16.0);
    }
    assert d3 == AddInside(d2, y + 1, x + 1, error * 1.0 / 16.0);
    if x - 1 >= 0 && y + 1 < height {
      AddAt(a, d3, y + 1, x - 1, error * 3.0 / 16.0);
    }
    assert Diffuse(g, y, x, error, Taps) == AddInside(d3, y + 1, x - 1, error * 3.0 / 16.0);
  }

  /** The loop body of the sweep at (y, x), in place. */
  method VisitInPlace(a: array2<real>, ghost g: Grid, y: nat, x: nat)
    requires Holds(a, g) && y < Span(a.Length0) && x < Span(a.Length1)
    modifies a
    ensures Holds(a, VisitPixel(g, y, x))
  {
    var oldPixel := a[y, x];
    var newPixel := Quantize(oldPixel);
    var error := oldPixel - newPixel;
    SetAt(a, g, y, x, newPixel);
    DiffuseInPlace(a, g[y := g[y][x := newPixel]], y, x, error);
    assert oldPixel == g[y][x];
  }

  /** The inner loop of the sweep: row y, in place. */
  method SweepRowInPlace(a: array2<real>, ghost g: Grid, y: nat)
    requires Holds(a, g) && y < Span(a.Length0)
    modifies a
    ensures Holds(a, SweepRow(g, y, Span(Width(g))))
  {
    var width := a.Length1;
    var x := 0;
    while x < width - 1
      invariant 0 <= x <= Span(width)
      invariant Holds(a, SweepRow(g, y, x))
    {
      VisitInPlace(a, SweepRow(g, y, x), y, x);
      x := x + 1;
    }
  }

  /** The sweep, run in place on one channel of the working buffer. */
  method DitherChannel(a: array2<real>, ghost g: Grid)
    requires Holds(a, g)
    modifies a
    ensures Holds(a, Dither(g))
  {
    var height := a.Length0;
    var y := 0;
    while y < height - 1
      invariant 0 <= y <= Span(height)
      invariant Holds(a, SweepRows(g, y))
    {
      SweepRowInPlace(a, SweepRows(g, y), y);
      y := y + 1;
    }
  }

  /** The grid a buffer holds. */
  function Snapshot(a: array2<real>): (g: Grid)
    requires a.Length0 >= 1
    reads a
    ensures Holds(a, g)
  {
    seq(a.Length0, i requires 0 <= i < a.Length0 reads a =>
      seq(a.Length1, j requires 0 <= j < a.Length1 reads a => a[i, j]))
  }

  /** One channel of an image, widened to reals (`image.copy().astype(np.float32)`). */
  function Channel(image: Image, c: nat): (g: Grid)
    requires c < 3
    ensures Rectangular(g) && |g| == |image| && Width(g) == Width(image)
    ensures forall i, j | 0 <= i < |image| && 0 <= j < Width(image) :: g[i][j] == image[i][j][c] as real
  {
    seq(|image|, i requires 0 <= i < |image| =>
      seq(Width(image), j requires 0 <= j < Width(image) => image[i][j][c] as real))
  }

  /** `np.clip(result, 0, 255).astype(np.uint8)` on the three swept channels. */
  function ClipToBytes(d0: Grid, d1: Grid, d2: Grid): (r: seq<seq<Pixel>>)
    requires Rectangular(d0) && Rectangular(d1) && Rectangular(d2)
    requires |d1| == |d0| && |d2| == |d0| && Width(d1) == Width(d0) && Width(d2) == Width(d0)
    ensures |r| == |d0| && forall i | 0 <= i < |r| :: |r[i]| == Width(d0)
    ensures forall i, j | 0 <= i < |d0| && 0 <= j < Width(d0) ::
      r[i][j] == [ToByte(d0[i][j]), ToByte(d1[i][j]), ToByte(d2[i][j])]
  {
    seq(|d0|, i requires 0 <= i < |d0| =>
      seq(Width(d0), j requires 0 <= j < Width(d0) =>
        [ToByte(d0[i][j]), ToByte(d1[i][j]), ToByte(d2[i][j])]))
  }

  /** What `apply_dithering` returns: each channel swept, then clipped and truncated to bytes. */
  function DitherImage(image: Image): (r: Image)
    ensures SameShape(r, image)
  {
    var r := ClipToBytes(Dither(Channel(image, 0)), Dither(Channel(image, 1)), Dither(Channel(image, 2)));
    assert IsRaster(r);
    r
  }

  /**
   * `apply_dithering(image)`. The source sweeps the three channels of a pixel
   * together in one H x W x 3 buffer; no update reads another channel, so
   * sweeping them one after another in their own buffers gives the same values.
   */
  method ApplyDithering(image: Image) returns (result: Image)
    ensures result == DitherImage(image)
  {
    var height, width := |image|, Width(image);
    var swept: seq<Grid> := [];
    for c := 0 to 3
      invariant |swept| == c
      invariant forall k | 0 <= k < c :: swept[k] == Dither(Channel(image, k))
    {
      var buffer := new real[height, width]((i, j) requires 0 <= i < height && 0 <= j < width =>
        image[i][j][c] as real);
      assert Holds(buffer, Channel(image, c));
      DitherChannel(buffer, Channel(image, c));
      var g := Snapshot(buffer);
      assert g == Dither(Channel(image, c)) by {
        var d := Dither(Channel(image, c));
        assert |g| == |d|;
        forall i | 0 <= i < |g| ensures g[i] == d[i] {
          assert |g[i]| == |d[i]|;
        }
      }
      swept := swept + [g];
    }
    result := ClipToBytes(swept[0], swept[1], swept[2]);
  }
}
