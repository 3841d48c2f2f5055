/** The pixel-grid data model shared by every stage. */
module Images {

  /** One 8-bit channel value (`np.uint8`). */
  type Byte = b: int | 0 <= b < 256

  /** One pixel: three channel values, in OpenCV's B, G, R order (or L, a, b after conversion). */
  type Pixel = p: seq<Byte> | |p| == 3 witness [0, 0, 0]

  const Black: Pixel := [0, 0, 0]

  /** Length of the first row; every row of a rectangular grid has this length. */
  function Width<T>(rows: seq<seq<T>>): nat {
    if |rows| == 0 then 0 else |rows[0]|
  }

  predicate Rectangular<T>(rows: seq<seq<T>>) {
    forall i | 0 <= i < |rows| :: |rows[i]| == Width(rows)
  }

  /** A decoded image: at least one row and one column, all rows equally wide. */
  predicate IsRaster<T>(rows: seq<seq<T>>) {
    |rows| >= 1 && Width(rows) >= 1 && Rectangular(rows)
  }

  type Image = img: seq<seq<Pixel>> | IsRaster(img) witness [[Black]]

  predicate SameShape(a: Image, b: Image) {
    |a| == |b| && Width(a) == Width(b)
  }

  /** The distinct colours an image uses. */
  function Colors(img: Image): set<Pixel> {
    set i, j | 0 <= i < |img| && 0 <= j < Width(img) :: img[i][j]
  }

  /** A per-pixel colour conversion applied to every pixel (`cv2.cvtColor`). */
  function MapPixels(img: Image, f: Pixel -> Pixel): (r: Image)
    ensures SameShape(r, img)
    ensures forall i, j | 0 <= i < |img| && 0 <= j < Width(img) :: r[i][j] == f(img[i][j])
  {
    seq(|img|, i requires 0 <= i < |img| =>
      seq(Width(img), j requires 0 <= j < Width(img) => f(img[i][j])))
  }
}
