/**
 * `quantize_colors`: convert to Lab, cluster every pixel with k-means,
 * replace each pixel by the centre of its cluster and convert back. The
 * clustering itself is OpenCV's; what is modelled here is the data flow
 * around it: the row-major flattening, the `centers[labels]` gather, the
 * reshape back to the image and the truncation to bytes.
 */
module ColorQuantizer {
  import opened Images
  import opened Outcomes
  import opened OpenCv

  /** Multiplying by the same width keeps the order. */
  lemma {:induction false} MulMonotone(a: nat, b: nat, w: nat)
    requires a <= b
    ensures a * w <= b * w
    decreases b - a
  {
    if a < b {
      MulMonotone(a + 1, b, w);
      assert (a + 1) * w == a * w + w;
    }
  }

  /** Row-major entries of an `h` by `w` grid lie below `h * w`. */
  lemma {:induction false} RowMajorBound(i: nat, j: nat, h: nat, w: nat)
    requires i < h && j < w
    ensures i * w + j < h * w
  {
    MulMonotone(i + 1, h, w);
    assert (i + 1) * w == i * w + w;
  }

  /** Entry `k` of an `h` by `w` grid lies in a row below `h`. */
  lemma {:induction false} RowOfEntry(k: nat, h: nat, w: nat)
    requires k < h * w
    ensures w > 0 && k / w < h
  {
    if w > 0 && k / w >= h {
      MulMonotone(h, k / w, w);
    }
  }

  /** Row-major index arithmetic: row `i`, column `j` of a `w`-wide grid is entry `i * w + j`. */
  lemma {:induction false} RowMajorIndex(i: nat, j: nat, w: nat)
    requires j < w
    ensures (i * w + j) / w == i && (i * w + j) % w == j
  {
    var k := i * w + j;
    var q := k / w;
    assert k == q * w + k % w;
    if q > i {
      MulMonotone(i + 1, q, w);
    } else if q < i {
      MulMonotone(q + 1, i, w);
    }
  }

  /** `lab.reshape((-1, 3))`: the pixels, row after row. */
  function Flatten(img: Image): (points: seq<Pixel>)
    ensures |points| == |img| * Width(img)
  {
    var h, w := |img|, Width(img);
    seq(h * w, k requires 0 <= k < h * w =>
      RowOfEntry(k, h, w);
      img[k / w][k % w])
  }

  /** Row `i`, column `j` of the image is entry `i * width + j` of its flattening. */
  lemma {:induction false} FlattenAt(img: Image, i: nat, j: nat)
    requires i < |img| && j < Width(img)
    ensures i * Width(img) + j < |Flatten(img)|
    ensures Flatten(img)[i * Width(img) + j] == img[i][j]
  {
    RowMajorBound(i, j, |img|, Width(img));
    RowMajorIndex(i, j, Width(img));
  }

  /** Row `i` of `h * w` pixels cut into rows of `w`. */
  function RowOf(points: seq<Pixel>, h: nat, w: nat, i: nat): (row: seq<Pixel>)
    requires |points| == h * w && i < h
    ensures |row| == w
  {
    MulMonotone(i + 1, h, w);
    points[i * w .. i * w + w]
  }

  /** `.reshape(image.shape)`: `h * w` pixels cut into `h` rows of `w`. */
  function Reshape(points: seq<Pixel>, h: nat, w: nat): (img: Image)
    requires h >= 1 && w >= 1 && |points| == h * w
    ensures |img| == h && Width(img) == w
  {
    seq(h, i requires 0 <= i < h => RowOf(points, h, w, i))
  }

  /** Row `i`, column `j` of the reshaped grid is entry `i * w + j` of the sequence. */
  lemma {:induction false} ReshapeAt(points: seq<Pixel>, h: nat, w: nat, i: nat, j: nat)
    requires h >= 1 && w >= 1 && |points| == h * w
    requires i < h && j < w
    ensures i * w + j < |points|
    ensures Reshape(points, h, w)[i][j] == points[i * w + j]
  {
    RowMajorBound(i, j, h, w);
    var start := i * w;
    MulMonotone(i + 1, h, w);
    assert (i + 1) * w == start + w;
    var row := RowOf(points, h, w, i);
    assert Reshape(points, h, w)[i] == row;
    assert row == points[start .. start + w];
    assert row[j] == points[start + j];
  }

  /** Reshaping the flattened pixels to the image's own shape gives the image back. */
  lemma {:induction false} ReshapeFlatten(img: Image)
    ensures Reshape(Flatten(img), |img|, Width(img)) == img
  {
    var r := Reshape(Flatten(img), |img|, Width(img));
    forall i | 0 <= i < |img|
      ensures r[i] == img[i]
    {
      forall j | 0 <= j < Width(img)
        ensures r[i][j] == img[i][j]
      {
        FlattenAt(img, i, j);
        ReshapeAt(Flatten(img), |img|, Width(img), i, j);
      }
    }
  }

  /** Flattening a reshaped sequence gives the sequence back. */
  lemma {:induction false} FlattenReshape(points: seq<Pixel>, h: nat, w: nat)
    requires h >= 1 && w >= 1 && |points| == h * w
    ensures Flatten(Reshape(points, h, w)) == points
  {
    var img := Reshape(points, h, w);
    var f := Flatten(img);
    forall k | 0 <= k < |points|
      ensures f[k] == points[k]
    {
      RowOfEntry(k, h, w);
      var i, j := k / w, k % w;
      assert k == i * w + j;
      FlattenAt(img, i, j);
      ReshapeAt(points, h, w, i, j);
    }
  }

  /** `.astype(np.uint8)` on a centre: truncation, which on [0, 255] is the floor. */
  function Truncate(c: Center): (p: Pixel)
    ensures forall k | 0 <= k < 3 :: p[k] as real <= c[k] < p[k] as real + 1.0
  {
    [c[0].Floor, c[1].Floor, c[2].Floor]
  }

  /**
   * `quantize_colors(image, num_colors)`: Lab conversion, k-means over the
   * flattened pixels, `centers[labels]`, reshape to the image, truncation to
   * bytes, conversion back to BGR. k-means raises when `num_colors` is not
   * between 1 and the number of pixels; numpy raises when the gathered
   * centres do not fill the image.
   */
  function QuantizeColors(image: Image, numColors: int, lib: Library): (r: Result<Image>)
    ensures r.Err? ==> r.error in {OpenCvError, ReshapeError}
    ensures Lawful(lib) ==> (r.Ok? <==> 1 <= numColors <= |image| * Width(image))
    ensures r.Ok? ==> SameShape(r.value, image)
  {
    var h, w := |image|, Width(image);
    var points := Flatten(MapPixels(image, lib.bgrToLab));
    match lib.kmeans(points, numColors)
    case None => Err(OpenCvError)
    case Some(clusters) =>
      var gathered := seq(|clusters.labels|, n requires 0 <= n < |clusters.labels| =>
        Truncate(clusters.centers[clusters.labels[n]]));
      if |gathered| != h * w then Err(ReshapeError)
      else Ok(MapPixels(Reshape(gathered, h, w), lib.labToBgr))
  }

  /**
   * Every output pixel is the BGR form of the (truncated) centre of the
   * cluster k-means put that same pixel's Lab value in.
   */
  lemma {:induction false} QuantizedPixel(image: Image, numColors: int, lib: Library, i: nat, j: nat)
    requires QuantizeColors(image, numColors, lib).Ok?
    requires i < |image| && j < Width(image)
    ensures var points := Flatten(MapPixels(image, lib.bgrToLab));
      var clusters := lib.kmeans(points, numColors).value;
      var n := i * Width(image) + j;
      n < |points| && n < |clusters.labels| &&
      points[n] == lib.bgrToLab(image[i][j]) &&
      QuantizeColors(image, numColors, lib).value[i][j] ==
        lib.labToBgr(Truncate(clusters.centers[clusters.labels[n]]))
  {
    var h, w := |image|, Width(image);
    var lab := MapPixels(image, lib.bgrToLab);
    var points := Flatten(lab);
    var clusters := lib.kmeans(points, numColors).value;
    var gathered := seq(|clusters.labels|, n requires 0 <= n < |clusters.labels| =>
      Truncate(clusters.centers[clusters.labels[n]]));
    FlattenAt(lab, i, j);
    ReshapeAt(gathered, h, w, i, j);
  }

  /** A sequence has at most as many distinct elements as entries. */
  lemma {:induction false} DistinctAtMostLength<T>(s: seq<T>)
    ensures |set n | 0 <= n < |s| :: s[n]| <= |s|
  {
    if |s| > 0 {
      var init := s[..|s| - 1];
      DistinctAtMostLength(init);
      var all := set n | 0 <= n < |s| :: s[n];
      var before := set n | 0 <= n < |init| :: init[n];
      assert all <= before + {s[|s| - 1]} by {
        forall x | x in all
          ensures x in before + {s[|s| - 1]}
        {
          var n :| 0 <= n < |s| && s[n] == x;
          if n < |s| - 1 {
            assert init[n] == x;
          }
        }
      }
      assert |before + {s[|s| - 1]}| <= |before| + 1;
      SubsetSize(all, before + {s[|s| - 1]});
    }
  }

  lemma {:induction false} SubsetSize<T>(a: set<T>, b: set<T>)
    requires a <= b
    ensures |a| <= |b|
  {
    assert b == a + (b - a);
  }

  /** The BGR colours of the truncated centres: every colour the output can use. */
  function Palette(clusters: Clustering, lib: Library): (palette: seq<Pixel>)
    ensures |palette| == |clusters.centers|
  {
    seq<Pixel>(|clusters.centers|, c requires 0 <= c < |clusters.centers| =>
      lib.labToBgr(Truncate(clusters.centers[c])))
  }

  /** Each output pixel is one of the palette's colours. */
  lemma {:induction false} PixelInPalette(image: Image, numColors: int, lib: Library, i: nat, j: nat)
    requires QuantizeColors(image, numColors, lib).Ok?
    requires i < |image| && j < Width(image)
    ensures var clusters := lib.kmeans(Flatten(MapPixels(image, lib.bgrToLab)), numColors).value;
      QuantizeColors(image, numColors, lib).value[i][j] in Palette(clusters, lib)
  {
    var clusters := lib.kmeans(Flatten(MapPixels(image, lib.bgrToLab)), numColors).value;
    QuantizedPixel(image, numColors, lib, i, j);
    var n := i * Width(image) + j;
    assert Palette(clusters, lib)[clusters.labels[n]] == QuantizeColors(image, numColors, lib).value[i][j];
  }

  /** The quantised image uses at most `num_colors` colours. */
  lemma {:induction false} PaletteSize(image: Image, numColors: int, lib: Library)
    requires Lawful(lib) && QuantizeColors(image, numColors, lib).Ok?
    ensures |Colors(QuantizeColors(image, numColors, lib).value)| <= numColors
  {
    var out := QuantizeColors(image, numColors, lib).value;
    var clusters := lib.kmeans(Flatten(MapPixels(image, lib.bgrToLab)), numColors).value;
    var palette := Palette(clusters, lib);
    var paletteColors := set c | 0 <= c < |palette| :: palette[c];
    assert Colors(out) <= paletteColors by {
      forall x | x in Colors(out)
        ensures x in paletteColors
      {
        var i, j :| 0 <= i < |out| && 0 <= j < Width(out) && out[i][j] == x;
        PixelInPalette(image, numColors, lib, i, j);
      }
    }
    DistinctAtMostLength(palette);
    SubsetSize(Colors(out), paletteColors);
  }
}
