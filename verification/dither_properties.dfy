/**
 * What the dithering sweep guarantees: error only flows forward in row-major
 * order, a quantised pixel keeps its level to the end, the working values
 * stay within [-16, 271], a step keeps the buffer's total except for the
 * share dropped at the left edge, and a one-pixel-thin image passes through.
 */
module DitherProperties {
  import opened Images
  import opened Rounding
  import opened DitherSweep

  /**
   * The fraction of the error at (y, x) that pixel (i, j) receives in
   * VisitPixel, guards included.
   */
  function Share(height: nat, width: nat, y: int, x: int, i: int, j: int): real {
    if i == y && j == x + 1 && x + 1 < width then 7.0 / 16.0
    else if i == y + 1 && j == x && y + 1 < height then 5.0 / 16.0
    else if i == y + 1 && j == x + 1 && x + 1 < width && y + 1 < height then 1.0 / 16.0
    else if i == y + 1 && j == x - 1 && x - 1 >= 0 && y + 1 < height then 3.0 / 16.0
    else 0.0
  }

  /** A guarded update changes its target pixel alone, and only when the target lies inside the grid. */
  lemma {:induction false} AddInsideAt(g: Grid, i: int, j: int, d: real, p: int, q: int)
    requires Rectangular(g) && 0 <= p < |g| && 0 <= q < Width(g)
    ensures AddInside(g, i, j, d)[p][q] == g[p][q] + (if p == i && q == j then d else 0.0)
  {
  }

  /** Diffusion, pixel by pixel: every pixel gains its share of the error. */
  lemma {:induction false} DiffuseAt(g: Grid, y: nat, x: nat, e: real, i: int, j: int)
    requires Rectangular(g) && y < |g| && x < Width(g)
    requires 0 <= i < |g| && 0 <= j < Width(g)
    ensures Diffuse(g, y, x, e, Taps)[i][j] == g[i][j] + Share(|g|, Width(g), y, x, i, j) * e
  {
    var d1, d2, d3 := Diffuse(g, y, x, e, 1), Diffuse(g, y, x, e, 2), Diffuse(g, y, x, e, 3);
    assert Diffuse(g, y, x, e, 0) == g;
    assert d1 == DiffuseTap(Diffuse(g, y, x, e, 0), y, x, e, 0);
    assert DiffuseTap(g, y, x, e, 0) == AddInside(g, y, x + 1, e * 7.0 / 16.0);
    assert d1 == AddInside(g, y, x + 1, e * 7.0 / 16.0);
    assert d2 == AddInside(d1, y + 1, x, e * 5.0 / 16.0);
    assert d3 == AddInside(d2, y + 1, x + 1, e * 1.0 / 16.0);
    assert Diffuse(g, y, x, e, Taps) == AddInside(d3, y + 1, x - 1, e * 3.0 / 16.0);
    AddInsideAt(g, y, x + 1, e * 7.0 / 16.0, i, j);
    AddInsideAt(d1, y + 1, x, e * 5.0 / 16.0, i, j);
    AddInsideAt(d2, y + 1, x + 1, e * 1.0 / 16.0, i, j);
    AddInsideAt(d3, y + 1, x - 1, e * 3.0 / 16.0, i, j);
  }

  /** One loop step, pixel by pixel: (y, x) is quantised, every other pixel gains its share of the error. */
  lemma {:induction false} VisitPixelAt(g: Grid, y: nat, x: nat, i: int, j: int)
    requires Rectangular(g) && y < |g| && x < Width(g)
    requires 0 <= i < |g| && 0 <= j < Width(g)
    ensures VisitPixel(g, y, x)[i][j] ==
      if i == y && j == x then Quantize(g[y][x])
      else g[i][j] + Share(|g|, Width(g), y, x, i, j) * (g[y][x] - Quantize(g[y][x]))
  {
    var e := g[y][x] - Quantize(g[y][x]);
    var g0 := g[y := g[y][x := Quantize(g[y][x])]];
    DiffuseAt(g0, y, x, e, i, j);
    assert Share(|g|, Width(g), y, x, y, x) == 0.0;
  }

  /** (i, j) comes strictly before (y, x) in row-major order. */
  predicate Before(i: int, j: int, y: int, x: int) {
    i < y || (i == y && j < x)
  }

  /** A step at (y, x) changes no pixel that comes before (y, x): error only flows forward. */
  lemma {:induction false} VisitPixelKeepsEarlier(g: Grid, y: nat, x: nat)
    requires Rectangular(g) && y < |g| && x < Width(g)
    ensures forall i, j | 0 <= i < |g| && 0 <= j < Width(g) && Before(i, j, y, x) ::
      VisitPixel(g, y, x)[i][j] == g[i][j]
  {
    forall i, j | 0 <= i < |g| && 0 <= j < Width(g) && Before(i, j, y, x)
      ensures VisitPixel(g, y, x)[i][j] == g[i][j]
    {
      VisitPixelAt(g, y, x, i, j);
    }
  }

  /** Later steps of a row leave the pixels before the cursor alone. */
  lemma {:induction false} SweepRowKeepsEarlier(g: Grid, y: nat, x0: nat, x1: nat, i: int, j: int)
    requires Rectangular(g) && y < Span(|g|) && x0 <= x1 <= Span(Width(g))
    requires 0 <= i < |g| && 0 <= j < Width(g) && Before(i, j, y, x0)
    ensures SweepRow(g, y, x1)[i][j] == SweepRow(g, y, x0)[i][j]
    decreases x1
  {
    if x1 > x0 {
      var prev, next := SweepRow(g, y, x1 - 1), SweepRow(g, y, x1);
      SweepRowKeepsEarlier(g, y, x0, x1 - 1, i, j);
      assert next == VisitPixel(prev, y, x1 - 1);
      VisitPixelKeepsEarlier(prev, y, x1 - 1);
      assert Before(i, j, y, x1 - 1);
      assert next[i][j] == prev[i][j];
    }
  }

  /** Later rows leave the rows above them alone. */
  lemma {:induction false} SweepRowsKeepsEarlier(g: Grid, y0: nat, y1: nat, i: int, j: int)
    requires Rectangular(g) && y0 <= y1 <= Span(|g|)
    requires 0 <= i < y0 && 0 <= j < Width(g)
    ensures SweepRows(g, y1)[i][j] == SweepRows(g, y0)[i][j]
    decreases y1
  {
    if y1 > y0 {
      SweepRowsKeepsEarlier(g, y0, y1 - 1, i, j);
      SweepRowKeepsEarlier(SweepRows(g, y1 - 1), y1 - 1, 0, Span(Width(g)), i, j);
    }
  }

  /**
   * Every pixel the sweep visits ends up as the quantisation of the value it
   * had when the cursor reached it: nothing changes it afterwards.
   */
  lemma {:induction false} DitherKeepsQuantised(g: Grid, i: nat, j: nat)
    requires Rectangular(g) && i < Span(|g|) && j < Span(Width(g))
    ensures Dither(g)[i][j] == Quantize(SweepRow(SweepRows(g, i), i, j)[i][j])
  {
    var s := SweepRows(g, i);
    var before, after := SweepRow(s, i, j), SweepRow(s, i, j + 1);
    assert after == VisitPixel(before, i, j);
    VisitPixelAt(before, i, j, i, j);
    var rowDone := SweepRow(s, i, Span(Width(g)));
    SweepRowKeepsEarlier(s, i, j + 1, Span(Width(g)), i, j);
    assert rowDone[i][j] == Quantize(before[i][j]);
    assert SweepRows(g, i + 1) == rowDone;
    SweepRowsKeepsEarlier(g, i + 1, Span(|g|), i, j);
  }

  /** With the cursor at (y, x), pixel (i, j) has already been quantised. */
  predicate Visited(height: nat, width: nat, y: int, x: int, i: int, j: int) {
    0 <= i < height - 1 && 0 <= j < width - 1 && Before(i, j, y, x)
  }

  /**
   * How much error, in sixteenths of the largest possible error, pixel (i, j)
   * has received with the cursor at (y, x): one term per neighbour that
   * diffuses into it and has already been visited.
   */
  function Received(height: nat, width: nat, y: int, x: int, i: int, j: int): (n: nat)
    ensures n <= 16
  {
    (if Visited(height, width, y, x, i, j - 1) then 7 else 0) +
    (if Visited(height, width, y, x, i - 1, j) then 5 else 0) +
    (if Visited(height, width, y, x, i - 1, j - 1) then 1 else 0) +
    (if Visited(height, width, y, x, i - 1, j + 1) then 3 else 0)
  }

  /** Every value of a grid lies in the byte range, as a fresh copy of an 8-bit channel does. */
  predicate InByteRange(g: Grid) {
    forall i, j | 0 <= i < |g| && 0 <= j < |g[i]| :: 0.0 <= g[i][j] <= 255.0
  }

  /**
   * The sweep's invariant at pixel (i, j) with the cursor at (y, x): a
   * visited pixel holds one of the nine levels, any other pixel has drifted
   * from its input value by no more than the error it has received.
   */
  ghost predicate PixelBound(g0: Grid, g: Grid, y: int, x: int, i: int, j: int)
    requires 0 <= i < |g| && 0 <= j < |g[i]| && i < |g0| && j < |g0[i]|
  {
    if Visited(|g|, Width(g), y, x, i, j) then IsLevel(g[i][j])
    else -(Received(|g|, Width(g), y, x, i, j) as real) <= g[i][j] - g0[i][j]
           <= Received(|g|, Width(g), y, x, i, j) as real
  }

  /** The sweep's invariant with the cursor at (y, x): PixelBound holds everywhere. */
  ghost predicate SweepInvariant(g0: Grid, g: Grid, y: int, x: int) {
    Rectangular(g0) && Rectangular(g) && |g| == |g0| && Width(g) == Width(g0) &&
    forall i, j | 0 <= i < |g| && 0 <= j < Width(g) :: PixelBound(g0, g, y, x, i, j)
  }

  /** Visiting (y, x) adds exactly sixteen times its share to what each other pixel has received. */
  lemma {:induction false} ReceivedAfterVisit(height: nat, width: nat, y: int, x: int, i: int, j: int)
    requires 0 <= y < height - 1 && 0 <= x < width - 1
    requires 0 <= i < height && 0 <= j < width && !(i == y && j == x)
    ensures Received(height, width, y, x + 1, i, j) as real ==
      Received(height, width, y, x, i, j) as real + 16.0 * Share(height, width, y, x, i, j)
  {
  }

  /** A share of an error of at most 16 is at most sixteen times the share. */
  lemma {:induction false} ShareOfError(s: real, e: real)
    requires 0.0 <= s && -16.0 <= e <= 16.0
    ensures -16.0 * s <= s * e <= 16.0 * s
  {
    assert s * e + 16.0 * s == s * (e + 16.0);
    assert 16.0 * s - s * e == s * (16.0 - e);
  }

  lemma {:induction false} InvariantStep(g0: Grid, g: Grid, y: nat, x: nat)
    requires InByteRange(g0) && SweepInvariant(g0, g, y, x)
    requires y < Span(|g|) && x < Span(Width(g))
    ensures SweepInvariant(g0, VisitPixel(g, y, x), y, x + 1)
  {
    var height, width := |g|, Width(g);
    var r := VisitPixel(g, y, x);
    var e := g[y][x] - Quantize(g[y][x]);
    var next := x + 1;
    forall i, j | 0 <= i < height && 0 <= j < width
      ensures PixelBound(g0, r, y, next, i, j)
    {
      assert PixelBound(g0, g, y, x, i, j);
      VisitPixelAt(g, y, x, i, j);
      if i == y && j == x {
        assert -16.0 <= g[y][x] <= 271.0;
        QuantizeInRange(g[y][x]);
      } else if Visited(height, width, y, x, i, j) {
        assert Share(height, width, y, x, i, j) == 0.0;
      } else {
        ReceivedAfterVisit(height, width, y, x, i, j);
        ShareOfError(Share(height, width, y, x, i, j), e);
      }
    }
  }

  /** The end of a row and the start of the next one are the same cursor position. */
  lemma {:induction false} VisitedWrap(height: nat, width: nat, y: int, i: int, j: int)
    requires 0 <= y < height - 1
    ensures Visited(height, width, y, Span(width), i, j) == Visited(height, width, y + 1, 0, i, j)
  {
  }

  lemma {:induction false} InvariantRowWrap(g0: Grid, g: Grid, y: nat)
    requires SweepInvariant(g0, g, y, Span(Width(g))) && y < Span(|g|)
    ensures SweepInvariant(g0, g, y + 1, 0)
  {
    var height, width := |g|, Width(g);
    var nextRow := y + 1;
    forall i: int, j: int | 0 <= i < height && 0 <= j < width
      ensures PixelBound(g0, g, nextRow, 0, i, j)
    {
      assert PixelBound(g0, g, y, Span(width), i, j);
      VisitedWrap(height, width, y, i, j);
      VisitedWrap(height, width, y, i, j - 1);
      VisitedWrap(height, width, y, i - 1, j);
      VisitedWrap(height, width, y, i - 1, j - 1);
      VisitedWrap(height, width, y, i - 1, j + 1);
    }
  }

  lemma {:induction false} InvariantSweepRow(g0: Grid, g: Grid, y: nat, x: nat)
    requires InByteRange(g0) && SweepInvariant(g0, g, y, 0)
    requires y < Span(|g|) && x <= Span(Width(g))
    ensures SweepInvariant(g0, SweepRow(g, y, x), y, x)
    decreases x
  {
    if x > 0 {
      InvariantSweepRow(g0, g, y, x - 1);
      InvariantStep(g0, SweepRow(g, y, x - 1), y, x - 1);
      assert SweepRow(g, y, x) == VisitPixel(SweepRow(g, y, x - 1), y, x - 1);
    }
  }

  lemma {:induction false} InvariantSweepRows(g0: Grid, y: nat)
    requires Rectangular(g0) && InByteRange(g0) && y <= Span(|g0|)
    ensures SweepInvariant(g0, SweepRows(g0, y), y, 0)
    decreases y
  {
    if y == 0 {
      forall i, j | 0 <= i < |g0| && 0 <= j < Width(g0)
        ensures PixelBound(g0, g0, 0, 0, i, j)
      {
      }
    } else {
      InvariantSweepRows(g0, y - 1);
      var s := SweepRows(g0, y - 1);
      InvariantSweepRow(g0, s, y - 1, Span(Width(g0)));
      InvariantRowWrap(g0, SweepRow(s, y - 1, Span(Width(g0))), y - 1);
    }
  }

  /**
   * At every point of the sweep (after row y's first x steps) each working
   * value lies within [-16, 271]: a pixel receives error with weights summing
   * to at most 1, and no error exceeds 16 in magnitude.
   */
  lemma {:induction false} WorkingValuesBounded(g0: Grid, y: nat, x: nat)
    requires Rectangular(g0) && InByteRange(g0) && y < Span(|g0|) && x <= Span(Width(g0))
    ensures forall i, j | 0 <= i < |g0| && 0 <= j < Width(g0) ::
      -16.0 <= SweepRow(SweepRows(g0, y), y, x)[i][j] <= 271.0
  {
    InvariantSweepRows(g0, y);
    var g := SweepRow(SweepRows(g0, y), y, x);
    InvariantSweepRow(g0, SweepRows(g0, y), y, x);
    forall i, j | 0 <= i < |g0| && 0 <= j < Width(g0)
      ensures -16.0 <= g[i][j] <= 271.0
    {
      assert PixelBound(g0, g, y, x, i, j);
    }
  }

  /**
   * After the sweep: every visited pixel (row <= H-2, column <= W-2) holds one
   * of the nine levels 0, 32, ..., 256; the last row and the last column were
   * never quantised and differ from the input only by the error they received,
   * at most 16; and every value lies within [-16, 271].
   */
  lemma {:induction false} DitherRange(g0: Grid)
    requires Rectangular(g0) && InByteRange(g0)
    ensures forall i, j | 0 <= i < Span(|g0|) && 0 <= j < Span(Width(g0)) :: IsLevel(Dither(g0)[i][j])
    ensures forall i, j | 0 <= i < |g0| && 0 <= j < Width(g0) && (i == |g0| - 1 || j == Width(g0) - 1) ::
      -16.0 <= Dither(g0)[i][j] - g0[i][j] <= 16.0
    ensures forall i, j | 0 <= i < |g0| && 0 <= j < Width(g0) :: -16.0 <= Dither(g0)[i][j] <= 271.0
  {
    var g := Dither(g0);
    InvariantSweepRows(g0, Span(|g0|));
    forall i, j | 0 <= i < |g0| && 0 <= j < Width(g0)
      ensures i < Span(|g0|) && j < Span(Width(g0)) ==> IsLevel(g[i][j])
      ensures i == |g0| - 1 || j == Width(g0) - 1 ==> -16.0 <= g[i][j] - g0[i][j] <= 16.0
      ensures -16.0 <= g[i][j] <= 271.0
    {
      assert PixelBound(g0, g, Span(|g0|), 0, i, j);
    }
  }

  /** Sum of a row. */
  function Sum(s: seq<real>): real {
    if s == [] then 0.0 else s[0] + Sum(s[1..])
  }

  /** Sum of every value in a grid. */
  function Total(g: Grid): real {
    if g == [] then 0.0 else Sum(g[0]) + Total(g[1..])
  }

  lemma {:induction false} SumUpdate(s: seq<real>, j: nat, v: real)
    requires j < |s|
    ensures Sum(s[j := v]) == Sum(s) - s[j] + v
  {
    if j == 0 {
      assert s[j := v][1..] == s[1..];
    } else {
      assert s[j := v][1..] == s[1..][j - 1 := v];
      SumUpdate(s[1..], j - 1, v);
    }
  }

  lemma {:induction false} TotalUpdate(g: Grid, i: nat, row: seq<real>)
    requires i < |g|
    ensures Total(g[i := row]) == Total(g) - Sum(g[i]) + Sum(row)
  {
    if i == 0 {
      assert g[i := row][1..] == g[1..];
    } else {
      assert g[i := row][1..] == g[1..][i - 1 := row];
      TotalUpdate(g[1..], i - 1, row);
    }
  }

  /** A guarded update adds its amount to the total when its target lies inside the grid. */
  lemma {:induction false} TotalAddInside(g: Grid, i: int, j: int, d: real)
    requires Rectangular(g)
    ensures Total(AddInside(g, i, j, d)) ==
      Total(g) + (if 0 <= i < |g| && 0 <= j < Width(g) then d else 0.0)
  {
    if 0 <= i < |g| && 0 <= j < Width(g) {
      var row := g[i][j := g[i][j] + d];
      TotalUpdate(g, i, row);
      SumUpdate(g[i], j, g[i][j] + d);
    }
  }

  /**
   * Diffusing from a pixel that is neither in the last row nor in the last
   * column hands on all 16 sixteenths of the error when x >= 1; at x == 0 the
   * below-left neighbour is missing and only 13 sixteenths arrive.
   */
  lemma {:induction false} DiffuseTotal(g: Grid, y: nat, x: nat, error: real)
    requires Rectangular(g) && y < Span(|g|) && x < Span(Width(g))
    ensures Total(Diffuse(g, y, x, error, Taps)) ==
      Total(g) + (if x == 0 then error * 13.0 / 16.0 else error)
  {
    var d1, d2, d3 := Diffuse(g, y, x, error, 1), Diffuse(g, y, x, error, 2), Diffuse(g, y, x, error, 3);
    assert Diffuse(g, y, x, error, 0) == g;
    assert d1 == AddInside(g, y, x + 1, error * 7.0 / 16.0);
    TotalAddInside(g, y, x + 1, error * 7.0 / 16.0);
    assert Total(d1) == Total(g) + error * 7.0 / 16.0;
    assert d2 == AddInside(d1, y + 1, x, error * 5.0 / 16.0);
    TotalAddInside(d1, y + 1, x, error * 5.0 / 16.0);
    assert Total(d2) == Total(d1) + error * 5.0 / 16.0;
    assert d3 == AddInside(d2, y + 1, x + 1, error * 1.0 / 16.0);
    TotalAddInside(d2, y + 1, x + 1, error * 1.0 / 16.0);
    assert Total(d3) == Total(d2) + error * 1.0 / 16.0;
    assert Diffuse(g, y, x, error, Taps) == AddInside(d3, y + 1, x - 1, error * 3.0 / 16.0);
    TotalAddInside(d3, y + 1, x - 1, error * 3.0 / 16.0);
  }

  /**
   * A step inside the sweep keeps the buffer's total when x >= 1: the right
   * and below guards always hold there, so 7 + 5 + 1 + 3 sixteenths of the
   * error are handed on. At x == 0 the below-left share is dropped and the
   * total changes by -3/16 of the error.
   */
  lemma {:induction false} VisitPixelTotal(g: Grid, y: nat, x: nat)
    requires Rectangular(g) && y < Span(|g|) && x < Span(Width(g))
    ensures Total(VisitPixel(g, y, x)) ==
      Total(g) - (if x == 0 then 3.0 / 16.0 * (g[y][x] - Quantize(g[y][x])) else 0.0)
  {
    var oldPixel := g[y][x];
    var newPixel := Quantize(oldPixel);
    var g1 := g[y := g[y][x := newPixel]];
    TotalUpdate(g, y, g[y][x := newPixel]);
    SumUpdate(g[y], x, newPixel);
    DiffuseTotal(g1, y, x, oldPixel - newPixel);
  }

  lemma {:induction false} SweepRowsThin(g: Grid, y: nat)
    requires Rectangular(g) && Width(g) <= 1 && y <= Span(|g|)
    ensures SweepRows(g, y) == g
    decreases y
  {
    if y > 0 {
      SweepRowsThin(g, y - 1);
    }
  }

  /** With one row or one column the loops run zero times: the sweep changes nothing. */
  lemma {:induction false} DitherThin(g: Grid)
    requires Rectangular(g) && (|g| <= 1 || Width(g) <= 1)
    ensures Dither(g) == g
  {
    if Width(g) <= 1 {
      SweepRowsThin(g, Span(|g|));
    }
  }

  lemma {:induction false} ChannelInByteRange(image: Image, c: nat)
    requires c < 3
    ensures InByteRange(Channel(image, c))
  {
  }

  /** `apply_dithering` on a one-pixel-thin image returns the image unchanged. */
  lemma {:induction false} DitherImageThin(image: Image)
    requires |image| == 1 || Width(image) == 1
    ensures DitherImage(image) == image
  {
    var r := DitherImage(image);
    DitherThin(Channel(image, 0));
    DitherThin(Channel(image, 1));
    DitherThin(Channel(image, 2));
    forall i | 0 <= i < |image| ensures r[i] == image[i] {
      forall j | 0 <= j < Width(image) ensures r[i][j] == image[i][j] {
        ToByteOfByte(image[i][j][0]);
        ToByteOfByte(image[i][j][1]);
        ToByteOfByte(image[i][j][2]);
      }
    }
  }

  /**
   * Every channel of a pixel the sweep visited is one of nine bytes:
   * 0, 32, ..., 224, and 255 (the level 256 after the clip).
   */
  lemma {:induction false} DitherImageLevels(image: Image, i: nat, j: nat, c: nat)
    requires i < |image| - 1 && j < Width(image) - 1 && c < 3
    ensures DitherImage(image)[i][j][c] in {0, 32, 64, 96, 128, 160, 192, 224, 255}
  {
    ChannelInByteRange(image, c);
    DitherRange(Channel(image, c));
    LevelToByte(Dither(Channel(image, c))[i][j]);
  }

  /**
   * The last row and the last column are never quantised: each of their
   * output channels is within 16 of the input, the error they received.
   */
  lemma {:induction false} DitherImageEdges(image: Image, i: nat, j: nat, c: nat)
    requires i < |image| && j < Width(image) && c < 3
    requires i == |image| - 1 || j == Width(image) - 1
    ensures -16 <= DitherImage(image)[i][j][c] as int - image[i][j][c] as int <= 16
  {
    ChannelInByteRange(image, c);
    DitherRange(Channel(image, c));
  }
}
