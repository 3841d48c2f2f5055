/**
 * The OpenCV calls the pipeline makes, as uninterpreted functions. Their
 * numeric behaviour is not modelled; `Lawful` states only the shape and
 * argument facts OpenCV documents or asserts for them.
 */
module OpenCv {
  import opened Images
  import opened Outcomes

  /** `cv2.INTER_AREA`, `cv2.INTER_NEAREST`, `cv2.INTER_CUBIC`. */
  datatype Interpolation = Area | Nearest | Cubic

  /**
   * A k-means cluster centre in Lab space. The centres are means of 8-bit
   * points, so each component lies in [0, 255].
   */
  type Center = c: seq<real> | |c| == 3 && forall k | 0 <= k < 3 :: 0.0 <= c[k] <= 255.0
    witness [0.0, 0.0, 0.0]

  datatype Clusters = Clusters(labels: seq<nat>, centers: seq<Center>)

  /** What `cv2.kmeans` returns: every label indexes a centre. */
  type Clustering = c: Clusters | forall i | 0 <= i < |c.labels| :: c.labels[i] < |c.centers|
    witness Clusters([], [])

  datatype Library = Library(
    /** `cv2.resize(image, (width, height), interpolation)` */
    resize: (Image, int, int, Interpolation) -> Image,
    /** `cv2.GaussianBlur(image, (k, k), 0)`; `None` when OpenCV rejects the kernel */
    gaussianBlur: (Image, int) -> Option<Image>,
    /** `cv2.cvtColor(image, cv2.COLOR_BGR2LAB)`, one pixel at a time */
    bgrToLab: Pixel -> Pixel,
    /** `cv2.cvtColor(image, cv2.COLOR_LAB2BGR)`, one pixel at a time */
    labToBgr: Pixel -> Pixel,
    /** `cv2.kmeans(points, k, ...)`; `None` when OpenCV rejects its arguments */
    kmeans: (seq<Pixel>, int) -> Option<Clustering>
  )

  /** A single-pixel image, which the blur copies whatever the kernel. */
  predicate SinglePixel(img: Image) {
    |img| == 1 && Width(img) == 1
  }

  /**
   * The facts OpenCV documents or asserts for these calls: a resize yields
   * the requested size; a blur keeps the size. With the default border, the
   * blur shrinks the kernel to 1 along a side of length 1, so a single-pixel
   * image is copied whatever the kernel; any other image is accepted exactly
   * for a positive odd kernel size (with sigma 0 a zero size is not derived
   * from anything). k-means accepts a cluster count from 1 up to the number
   * of points, labels every point and returns that many centres.
   */
  ghost predicate Lawful(lib: Library) {
    && (forall img: Image, w: int, h: int, m: Interpolation | w >= 1 && h >= 1 ::
          |lib.resize(img, w, h, m)| == h && Width(lib.resize(img, w, h, m)) == w)
    && (forall img: Image, k: int | SinglePixel(img) ::
          lib.gaussianBlur(img, k) == Some(img))
    && (forall img: Image, k: int | !SinglePixel(img) ::
          lib.gaussianBlur(img, k).Some? <==> k > 0 && k % 2 == 1)
    && (forall img: Image, k: int | lib.gaussianBlur(img, k).Some? ::
          SameShape(lib.gaussianBlur(img, k).value, img))
    && (forall points: seq<Pixel>, k: int ::
          lib.kmeans(points, k).Some? <==> 1 <= k <= |points|)
    && (forall points: seq<Pixel>, k: int | lib.kmeans(points, k).Some? ::
          |lib.kmeans(points, k).value.labels| == |points| &&
          |lib.kmeans(points, k).value.centers| == k)
  }
}
