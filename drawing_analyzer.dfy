/**
 * The feature extractor of a drawing: colour statistics, stroke statistics and
 * dominant colours (procesamiento.py, class DrawingAnalyzer).
 *
 * The image decoder, the colour-space converter, the contour tracer, the contour
 * measures and the k-means fit are library code. The decoded image is an input
 * (None when decoding failed) and every other library capability is a function
 * parameter whose contract is carried by its result type or stated as a
 * predicate; the rules the extractor itself applies around them are modelled
 * concretely. Numbers are exact reals taken before the final two-decimal rounding.
 */
module DrawingAnalyzer {
  import opened Wrappers

  /** An 8-bit channel sample, as held by the decoder's uint8 arrays. */
  type Byte = x: int | 0 <= x <= 255

  /** A non-negative real: what contourArea (unoriented) and arcLength return. */
  type NonNegReal = x: real | x >= 0.0

  /** A real channel level within the 8-bit range. */
  type Level = x: real | 0.0 <= x <= 255.0

  /** A decoded colour pixel, in the decoder's native blue-green-red order. */
  datatype Bgr = Bgr(b: Byte, g: Byte, r: Byte)

  /** A pixel in red-green-blue order: a clustering point and a dominant colour. */
  datatype Rgb = Rgb(r: Byte, g: Byte, b: Byte)

  /** The greatest hue of the converter's 8-bit conversion: hue is degrees halved, 0 to 179. */
  const MaxHue: int := 179

  /** A hue of the 8-bit conversion. */
  type Hue = x: int | 0 <= x <= MaxHue

  /** A pixel after the converter's 8-bit hue-saturation-value conversion. */
  datatype Hsv = Hsv(h: Hue, s: Byte, v: Byte)

  /**
   * A k-means cluster centre. A centre is the mean of the points of its cluster
   * (or a point itself when an empty cluster is reseeded), so over RGB points
   * every channel stays within [0, 255].
   */
  datatype Centroid = Centroid(r: Level, g: Level, b: Level)

  /** An outer contour as traced by the library: its polygon's vertices. */
  datatype Contour = Contour(points: seq<(int, int)>)

  /** The dictionary returned by extract_color_features on success. */
  datatype ColorFeatures = ColorFeatures(averageHue: real, averageSaturation: real, averageBrightness: real)

  /** The dictionary returned by extract_shape_features on success. */
  datatype ShapeFeatures = ShapeFeatures(numContours: nat, strokeComplexity: real)

  /**
   * What extract_dominant_colors yields: a list of colours (empty when decoding
   * failed) or the error the k-means fit raises for invalid parameters.
   */
  datatype DominantColors = Colors(colors: seq<Rgb>) | Raised(reason: string)

  // ---------------------------------------------------------------------------
  // Grids: the value view of a 2-D array and numpy's row-major flattening
  // ---------------------------------------------------------------------------

  /** True when every row of `rows` has `width` cells. */
  predicate IsGrid<T>(rows: seq<seq<T>>, width: nat)
  {
    forall i :: 0 <= i < |rows| ==> |rows[i]| == width
  }

  /** The rows of a 2-D array, top to bottom. */
  function Rows<T>(a: array2<T>): (rows: seq<seq<T>>)
    reads a
    ensures |rows| == a.Length0 && IsGrid(rows, a.Length1)
    ensures forall i, j :: 0 <= i < a.Length0 && 0 <= j < a.Length1 ==> rows[i][j] == a[i, j]
  {
    seq(a.Length0, i requires 0 <= i < a.Length0 reads a =>
      seq(a.Length1, j requires 0 <= j < a.Length1 reads a => a[i, j]))
  }

  /** The cells of a grid in row-major order: the order of reshape((-1, 3)). */
  function RowMajor<T>(rows: seq<seq<T>>): seq<T>
  {
    if rows == [] then [] else RowMajor(rows[..|rows| - 1]) + rows[|rows| - 1]
  }

  /** The row-major position of cell (i, j) in a grid of width w. */
  function Offset(i: nat, j: nat, w: nat): nat
  {
    i * w + j
  }

  /** Row-major flattening of an h-by-w grid has h*w cells. */
  lemma {:induction false} RowMajorLength<T>(rows: seq<seq<T>>, w: nat)
    requires IsGrid(rows, w)
    ensures |RowMajor(rows)| == |rows| * w
  {
    if rows != [] {
      var n := |rows| - 1;
      RowMajorLength(rows[..n], w);
      assert |RowMajor(rows)| == n * w + w;
      assert n * w + w == (n + 1) * w;
    }
  }

  /** Row-major flattening of a grid of width w puts cell (i, j) at index i*w + j. */
  lemma {:induction false} RowMajorIndex<T>(rows: seq<seq<T>>, w: nat, i: nat, j: nat)
    requires IsGrid(rows, w)
    requires i < |rows| && j < w
    ensures Offset(i, j, w) < |RowMajor(rows)| && RowMajor(rows)[Offset(i, j, w)] == rows[i][j]
  {
    var n := |rows| - 1;
    var init := rows[..n];
    var flat := RowMajor(init);
    RowMajorLength(init, w);
    RowMajorLength(rows, w);
    assert RowMajor(rows) == flat + rows[n];
    if i < n {
      RowMajorIndex(init, w, i, j);
      OffsetBelow(i, j, w, n);
    }
  }

  /** A cell of one of the first n rows lies before the n-th row. */
  lemma {:induction false} OffsetBelow(i: nat, j: nat, w: nat, n: nat)
    requires i < n && j < w
    ensures Offset(i, j, w) < n * w
  {
    if n > i + 1 {
      OffsetBelow(i, j, w, n - 1);
    }
    assert n * w == (n - 1) * w + w;
  }

  // ---------------------------------------------------------------------------
  // Means over exact reals (numpy.mean before rounding)
  // ---------------------------------------------------------------------------

  function SumReal(xs: seq<real>): real
  {
    if xs == [] then 0.0 else SumReal(xs[..|xs| - 1]) + xs[|xs| - 1]
  }

  /** The arithmetic mean of a non-empty list: |xs| copies of it add up to the sum. */
  function MeanReal(xs: seq<real>): (m: real)
    requires |xs| > 0
    ensures m * |xs| as real == SumReal(xs)
  {
    SumReal(xs) / |xs| as real
  }

  /** A sum of values in [0, hi] lies between 0 and hi times their count. */
  lemma {:induction false} SumWithin(xs: seq<real>, hi: real)
    requires forall k :: 0 <= k < |xs| ==> 0.0 <= xs[k] <= hi
    ensures 0.0 <= SumReal(xs) <= hi * |xs| as real
  {
    if xs != [] {
      var n := |xs| - 1;
      SumWithin(xs[..n], hi);
      assert hi * |xs| as real == hi * n as real + hi;
    }
  }

  /** The mean of values in [0, hi] is itself within [0, hi]. */
  lemma MeanWithin(xs: seq<real>, hi: real)
    requires |xs| > 0
    requires forall k :: 0 <= k < |xs| ==> 0.0 <= xs[k] <= hi
    ensures 0.0 <= MeanReal(xs) <= hi
  {
    SumWithin(xs, hi);
    var n, m := |xs| as real, MeanReal(xs);
    assert (hi - m) * n == hi * n - SumReal(xs);
    assert m * n >= 0.0;
  }

  /** The sum of n copies of c is n * c. */
  lemma {:induction false} SumOfConstant(xs: seq<real>, c: real)
    requires forall k :: 0 <= k < |xs| ==> xs[k] == c
    ensures SumReal(xs) == |xs| as real * c
  {
    if xs != [] {
      var n := |xs| - 1;
      SumOfConstant(xs[..n], c);
      assert |xs| as real * c == n as real * c + c;
    }
  }

  /** A sum of non-negative reals is non-negative. */
  lemma {:induction false} SumRealNonNegative(xs: seq<real>)
    requires forall k :: 0 <= k < |xs| ==> xs[k] >= 0.0
    ensures SumReal(xs) >= 0.0
  {
    if xs != [] {
      SumRealNonNegative(xs[..|xs| - 1]);
    }
  }

  // ---------------------------------------------------------------------------
  // extract_color_features
  // ---------------------------------------------------------------------------

  function Hues(px: seq<Hsv>): seq<real>
  {
    seq(|px|, k requires 0 <= k < |px| => px[k].h as real)
  }

  function Saturations(px: seq<Hsv>): seq<real>
  {
    seq(|px|, k requires 0 <= k < |px| => px[k].s as real)
  }

  function Values(px: seq<Hsv>): seq<real>
  {
    seq(|px|, k requires 0 <= k < |px| => px[k].v as real)
  }

  /**
   * The colour features of a non-empty list of HSV pixels: the plain hue mean,
   * within the converter's hue range, and the saturation and value means
   * divided by 255.
   */
  function ColorOf(px: seq<Hsv>): (f: ColorFeatures)
    requires |px| > 0
    ensures 0.0 <= f.averageHue <= MaxHue as real
    ensures 0.0 <= f.averageSaturation <= 1.0
    ensures 0.0 <= f.averageBrightness <= 1.0
  {
    MeanWithin(Hues(px), MaxHue as real);
    MeanWithin(Saturations(px), 255.0);
    MeanWithin(Values(px), 255.0);
    ColorFeatures(MeanReal(Hues(px)), MeanReal(Saturations(px)) / 255.0, MeanReal(Values(px)) / 255.0)
  }

  /** The mean of n copies of c is c. */
  lemma MeanOfConstant(xs: seq<real>, c: real)
    requires |xs| > 0
    requires forall k :: 0 <= k < |xs| ==> xs[k] == c
    ensures MeanReal(xs) == c
  {
    SumOfConstant(xs, c);
    var n, m := |xs| as real, MeanReal(xs);
    assert (m - c) * n == 0.0;
  }

  /** An image of one HSV colour reports that colour: hue as is, saturation and value over 255. */
  lemma UniformColor(px: seq<Hsv>, p: Hsv)
    requires |px| > 0
    requires forall k :: 0 <= k < |px| ==> px[k] == p
    ensures ColorOf(px) == ColorFeatures(p.h as real, p.s as real / 255.0, p.v as real / 255.0)
  {
    MeanOfConstant(Hues(px), p.h as real);
    MeanOfConstant(Saturations(px), p.s as real);
    MeanOfConstant(Values(px), p.v as real);
  }

  /** The converter applied to every pixel: one HSV pixel per pixel, in the same order. */
  function MapHsv(px: seq<Bgr>, toHsv: Bgr -> Hsv): (q: seq<Hsv>)
    ensures |q| == |px|
  {
    seq(|px|, k requires 0 <= k < |px| => toHsv(px[k]))
  }

  /**
   * extract_color_features on the decoder's result: no image gives the empty
   * result; an image gives the colour features of all its pixels after HSV
   * conversion, with saturation and brightness in [0, 1].
   */
  method ExtractColorFeatures(image: Option<array2<Bgr>>, toHsv: Bgr -> Hsv) returns (r: Option<ColorFeatures>)
    requires image.Some? ==> image.value.Length0 > 0 && image.value.Length1 > 0
    ensures image.None? <==> r.None?
    ensures image.Some? ==> |RowMajor(Rows(image.value))| > 0
    ensures image.Some? ==> r == Some(ColorOf(MapHsv(RowMajor(Rows(image.value)), toHsv)))
    ensures r.Some? ==> 0.0 <= r.value.averageSaturation <= 1.0 && 0.0 <= r.value.averageBrightness <= 1.0
  {
    if image.None? {
      return None;
    }
    var img := image.value;
    RowMajorLength(Rows(img), img.Length1);
    var hsv := MapHsv(RowMajor(Rows(img)), toHsv);
    r := Some(ColorOf(hsv));
  }

  // ---------------------------------------------------------------------------
  // extract_shape_features
  // ---------------------------------------------------------------------------

  /** The fixed global threshold and the foreground level of THRESH_BINARY_INV. */
  const Threshold: Byte := 127
  const MaxValue: Byte := 255

  /** Inverted binary threshold of one pixel: dark pixels become foreground. */
  function BinaryInv(p: Byte): (q: Byte)
    ensures q == 0 || q == MaxValue
    ensures q == MaxValue <==> p <= Threshold
  {
    if p > Threshold then 0 else MaxValue
  }

  /** The inverted binary threshold of a whole grid. */
  function ThresholdRows(rows: seq<seq<Byte>>): (t: seq<seq<Byte>>)
    ensures |t| == |rows|
    ensures forall i :: 0 <= i < |rows| ==> |t[i]| == |rows[i]|
  {
    seq(|rows|, i requires 0 <= i < |rows| =>
      seq(|rows[i]|, j requires 0 <= j < |rows[i]| => BinaryInv(rows[i][j])))
  }

  /** cv2.threshold(image, 127, 255, THRESH_BINARY_INV) into a new array of the same shape. */
  method ThresholdBinaryInv(img: array2<Byte>) returns (out: array2<Byte>)
    ensures fresh(out)
    ensures out.Length0 == img.Length0 && out.Length1 == img.Length1
    ensures forall i, j :: 0 <= i < img.Length0 && 0 <= j < img.Length1 ==>
      (out[i, j] == MaxValue <==> img[i, j] <= Threshold) &&
      (out[i, j] == 0 <==> img[i, j] > Threshold)
    ensures Rows(out) == ThresholdRows(Rows(img))
  {
    out := new Byte[img.Length0, img.Length1];
    for i := 0 to img.Length0
      invariant forall i', j :: 0 <= i' < i && 0 <= j < img.Length1 ==> out[i', j] == BinaryInv(img[i', j])
    {
      for j := 0 to img.Length1
        invariant forall i', j' :: 0 <= i' < i && 0 <= j' < img.Length1 ==> out[i', j'] == BinaryInv(img[i', j'])
        invariant forall j' :: 0 <= j' < j ==> out[i, j'] == BinaryInv(img[i, j'])
      {
        out[i, j] := BinaryInv(img[i, j]);
      }
    }
    var t, s := Rows(out), ThresholdRows(Rows(img));
    assert forall i :: 0 <= i < |t| ==> t[i] == s[i];
  }

  /** A binary grid without foreground: every cell is 0. */
  predicate NoForeground(g: seq<seq<Byte>>)
  {
    forall i, j :: 0 <= i < |g| && 0 <= j < |g[i]| ==> g[i][j] == 0
  }

  /** The contour tracer's contract used here: a grid without foreground has no contours. */
  ghost predicate TracesForegroundOnly(findContours: seq<seq<Byte>> -> seq<Contour>)
  {
    forall g :: NoForeground(g) ==> findContours(g) == []
  }

  /**
   * The perimeter/area ratios of the contours with positive area, in contour
   * order: the list `complexities` of extract_shape_features.
   */
  function Ratios(contours: seq<Contour>, area: Contour -> NonNegReal, arcLength: Contour -> NonNegReal): (rs: seq<real>)
    ensures |rs| <= |contours|
    ensures forall k :: 0 <= k < |rs| ==> rs[k] >= 0.0
  {
    if contours == [] then []
    else
      var c := contours[|contours| - 1];
      var init := Ratios(contours[..|contours| - 1], area, arcLength);
      if area(c) > 0.0 then init + [arcLength(c) / area(c)] else init
  }

  /** There is no ratio exactly when no contour has positive area. */
  lemma {:induction false} RatiosEmpty(contours: seq<Contour>, area: Contour -> NonNegReal, arcLength: Contour -> NonNegReal)
    ensures Ratios(contours, area, arcLength) == [] <==> forall k :: 0 <= k < |contours| ==> area(contours[k]) == 0.0
  {
    if contours != [] {
      var init := contours[..|contours| - 1];
      RatiosEmpty(init, area, arcLength);
      assert forall k :: 0 <= k < |init| ==> init[k] == contours[k];
    }
  }

  /** Every contour of positive area contributes exactly one ratio. */
  lemma {:induction false} RatiosCount(contours: seq<Contour>, area: Contour -> NonNegReal, arcLength: Contour -> NonNegReal)
    ensures |Ratios(contours, area, arcLength)| == |set k | 0 <= k < |contours| && area(contours[k]) > 0.0|
  {
    if contours != [] {
      var n := |contours| - 1;
      var init := contours[..n];
      RatiosCount(init, area, arcLength);
      var before := set k | 0 <= k < n && area(init[k]) > 0.0;
      var after := set k | 0 <= k < |contours| && area(contours[k]) > 0.0;
      assert before == set k | 0 <= k < n && area(contours[k]) > 0.0;
      if area(contours[n]) > 0.0 {
        assert after == before + {n};
      } else {
        assert after == before;
      }
    }
  }

  /** The mean ratio over contours of positive area, or 0.0 when there is none. */
  function StrokeComplexity(contours: seq<Contour>, area: Contour -> NonNegReal, arcLength: Contour -> NonNegReal): (sc: real)
    ensures sc >= 0.0
    ensures sc == 0.0 <== forall k :: 0 <= k < |contours| ==> area(contours[k]) == 0.0
  {
    var rs := Ratios(contours, area, arcLength);
    RatiosEmpty(contours, area, arcLength);
    SumRealNonNegative(rs);
    if |rs| > 0 then MeanReal(rs) else 0.0
  }

  /** The shape features of the contours traced from a thresholded grid. */
  function ShapeOf(binary: seq<seq<Byte>>, findContours: seq<seq<Byte>> -> seq<Contour>,
                   area: Contour -> NonNegReal, arcLength: Contour -> NonNegReal): (f: ShapeFeatures)
    ensures f.numContours == |findContours(binary)|
    ensures f.strokeComplexity >= 0.0
  {
    var contours := findContours(binary);
    ShapeFeatures(|contours|, StrokeComplexity(contours, area, arcLength))
  }

  /** A single contour of positive area has complexity perimeter / area. */
  lemma SingleContour(c: Contour, area: Contour -> NonNegReal, arcLength: Contour -> NonNegReal)
    requires area(c) > 0.0
    ensures StrokeComplexity([c], area, arcLength) == arcLength(c) / area(c)
  {
    var x := arcLength(c) / area(c);
    assert [c][..0] == [];
    assert Ratios([c], area, arcLength) == [x];
    MeanOfOne(x);
  }

  lemma MeanOfOne(x: real)
    ensures MeanReal([x]) == x
  {
    assert [x][..0] == [];
    assert SumReal([x]) == x;
  }

  /**
   * A grey image whose pixels are all lighter than the threshold has no
   * foreground after thresholding, so no contours and no stroke complexity.
   */
  lemma LightImageHasNoStrokes(rows: seq<seq<Byte>>, findContours: seq<seq<Byte>> -> seq<Contour>,
                               area: Contour -> NonNegReal, arcLength: Contour -> NonNegReal)
    requires forall i, j :: 0 <= i < |rows| && 0 <= j < |rows[i]| ==> rows[i][j] > Threshold
    requires TracesForegroundOnly(findContours)
    ensures ShapeOf(ThresholdRows(rows), findContours, area, arcLength) == ShapeFeatures(0, 0.0)
  {
    assert NoForeground(ThresholdRows(rows));
  }

  /**
   * extract_shape_features on the decoder's greyscale result: no image gives the
   * empty result; otherwise the image is thresholded, its outer contours are
   * traced, every contour is counted and the ratios of those with positive
   * area are averaged.
   */
  method ExtractShapeFeatures(image: Option<array2<Byte>>, findContours: seq<seq<Byte>> -> seq<Contour>,
                              area: Contour -> NonNegReal, arcLength: Contour -> NonNegReal)
    returns (r: Option<ShapeFeatures>)
    ensures image.None? <==> r.None?
    ensures image.Some? ==> r == Some(ShapeOf(ThresholdRows(Rows(image.value)), findContours, area, arcLength))
    ensures r.Some? ==> r.value.strokeComplexity >= 0.0
  {
    if image.None? {
      return None;
    }
    var thresh := ThresholdBinaryInv(image.value);
    var contours := findContours(Rows(thresh));
    var numContours := |contours|;
    var complexities: seq<real> := [];
    for i := 0 to |contours|
      invariant complexities == Ratios(contours[..i], area, arcLength)
    {
      var a := area(contours[i]);
      var perimeter := arcLength(contours[i]);
      if a > 0.0 {
        complexities := complexities + [perimeter / a];
      }
      assert contours[..i + 1][..i] == contours[..i];
    }
    assert contours[..|contours|] == contours;
    var strokeComplexity := if |complexities| > 0 then MeanReal(complexities) else 0.0;
    r := Some(ShapeFeatures(numContours, strokeComplexity));
  }

  // ---------------------------------------------------------------------------
  // extract_dominant_colors
  // ---------------------------------------------------------------------------

  /** BGR to RGB: the channel order reversed. */
  function ToRgb(p: Bgr): Rgb
  {
    Rgb(p.r, p.g, p.b)
  }

  /** Every pixel reversed to RGB: one point per pixel, in the same order. */
  function MapRgb(px: seq<Bgr>): (q: seq<Rgb>)
    ensures |q| == |px|
  {
    seq(|px|, k requires 0 <= k < |px| => ToRgb(px[k]))
  }

  lemma MapRgbAppend(a: seq<Bgr>, b: seq<Bgr>)
    ensures MapRgb(a + b) == MapRgb(a) + MapRgb(b)
  {
    assert forall k :: 0 <= k < |a + b| ==> MapRgb(a + b)[k] == (MapRgb(a) + MapRgb(b))[k];
  }

  /** Point i*w + j of the flattened RGB grid is cell (i, j) with its channels reversed. */
  lemma PointIndex(rows: seq<seq<Bgr>>, w: nat, i: nat, j: nat)
    requires IsGrid(rows, w)
    requires i < |rows| && j < w
    ensures Offset(i, j, w) < |MapRgb(RowMajor(rows))|
    ensures MapRgb(RowMajor(rows))[Offset(i, j, w)] == ToRgb(rows[i][j])
  {
    RowMajorIndex(rows, w, i, j);
  }

  /** In the flattened RGB image, pixel (i, j) of an h-by-w image is point i*w + j. */
  lemma PixelPositions(img: array2<Bgr>)
    ensures |MapRgb(RowMajor(Rows(img)))| == img.Length0 * img.Length1
    ensures forall i, j :: 0 <= i < img.Length0 && 0 <= j < img.Length1 ==>
      Offset(i, j, img.Length1) < |MapRgb(RowMajor(Rows(img)))| &&
      MapRgb(RowMajor(Rows(img)))[Offset(i, j, img.Length1)] == ToRgb(img[i, j])
  {
    var rows, w := Rows(img), img.Length1;
    RowMajorLength(rows, w);
    forall i, j | 0 <= i < img.Length0 && 0 <= j < w
      ensures Offset(i, j, w) < |MapRgb(RowMajor(rows))| && MapRgb(RowMajor(rows))[Offset(i, j, w)] == ToRgb(img[i, j])
    {
      PointIndex(rows, w, i, j);
    }
  }

  /**
   * Every pixel of the image, channels reversed to RGB, in row-major order:
   * h*w points with pixel (i, j) at index i*w + j.
   */
  method FlattenToRgb(img: array2<Bgr>) returns (points: seq<Rgb>)
    ensures points == MapRgb(RowMajor(Rows(img)))
    ensures |points| == img.Length0 * img.Length1
    ensures forall i, j :: 0 <= i < img.Length0 && 0 <= j < img.Length1 ==>
      Offset(i, j, img.Length1) < |points| && points[Offset(i, j, img.Length1)] == ToRgb(img[i, j])
  {
    ghost var rows := Rows(img);
    points := [];
    for i := 0 to img.Length0
      invariant points == MapRgb(RowMajor(rows[..i]))
    {
      ghost var done := points;
      for j := 0 to img.Length1
        invariant points == done + MapRgb(rows[i][..j])
      {
        points := points + [ToRgb(img[i, j])];
        assert rows[i][..j + 1] == rows[i][..j] + [img[i, j]];
        MapRgbAppend(rows[i][..j], [img[i, j]]);
      }
      assert rows[i][..img.Length1] == rows[i];
      assert rows[..i + 1][..i] == rows[..i];
      assert RowMajor(rows[..i + 1]) == RowMajor(rows[..i]) + rows[i];
      MapRgbAppend(RowMajor(rows[..i]), rows[i]);
    }
    assert rows[..img.Length0] == rows;
    RowMajorLength(rows, img.Length1);
    PixelPositions(img);
  }

  /** Truncation toward zero: numpy's astype(int) on a float. */
  function Truncate(x: real): (n: int)
    ensures 0.0 <= x ==> n as real <= x < n as real + 1.0
    ensures x < 0.0 ==> n as real - 1.0 < x <= n as real
  {
    if x >= 0.0 then x.Floor else -((-x).Floor)
  }

  /** A centre truncated channel by channel; within [0, 255] since the centre is. */
  function TruncateCentroid(c: Centroid): (q: Rgb)
    ensures q.r as real <= c.r < q.r as real + 1.0
    ensures q.g as real <= c.g < q.g as real + 1.0
    ensures q.b as real <= c.b < q.b as real + 1.0
  {
    Rgb(Truncate(c.r), Truncate(c.g), Truncate(c.b))
  }

  function TruncateAll(cs: seq<Centroid>): (q: seq<Rgb>)
    ensures |q| == |cs|
  {
    seq(|cs|, k requires 0 <= k < |cs| => TruncateCentroid(cs[k]))
  }

  /**
   * The dominant colours of a list of points: KMeans(n_clusters=k,
   * random_state=42) fitted to the points, its centres truncated. The fit
   * rejects k < 1 and fewer points than clusters.
   */
  function DominantOf(points: seq<Rgb>, k: int, kmeans: (seq<Rgb>, int) -> seq<Centroid>): (d: DominantColors)
    ensures d.Raised? <==> k < 1 || |points| < k
    ensures d.Colors? ==> |d.colors| == |kmeans(points, k)|
    ensures d.Colors? ==> forall i :: 0 <= i < |d.colors| ==>
      d.colors[i].r as real <= kmeans(points, k)[i].r < d.colors[i].r as real + 1.0 &&
      d.colors[i].g as real <= kmeans(points, k)[i].g < d.colors[i].g as real + 1.0 &&
      d.colors[i].b as real <= kmeans(points, k)[i].b < d.colors[i].b as real + 1.0
  {
    if k < 1 then Raised("n_clusters must be at least 1")
    else if |points| < k then Raised("n_samples must be at least n_clusters")
    else Colors(TruncateAll(kmeans(points, k)))
  }

  /** When the fit keeps its contract of k centres, exactly k colours come back. */
  lemma ExactlyKColors(points: seq<Rgb>, k: int, kmeans: (seq<Rgb>, int) -> seq<Centroid>)
    requires 1 <= k <= |points|
    requires |kmeans(points, k)| == k
    ensures DominantOf(points, k, kmeans).Colors? && |DominantOf(points, k, kmeans).colors| == k
  {
  }

  /**
   * An image of a single colour: when every centre lies between the least and
   * greatest channel values of the points, every dominant colour is that colour.
   */
  lemma UniformDominant(points: seq<Rgb>, p: Rgb, k: int, kmeans: (seq<Rgb>, int) -> seq<Centroid>)
    requires 1 <= k <= |points|
    requires forall i :: 0 <= i < |points| ==> points[i] == p
    requires forall i :: 0 <= i < |kmeans(points, k)| ==> Between(points, kmeans(points, k)[i])
    ensures forall i :: 0 <= i < |DominantOf(points, k, kmeans).colors| ==> DominantOf(points, k, kmeans).colors[i] == p
  {
    var cs := kmeans(points, k);
    forall i | 0 <= i < |cs| ensures TruncateCentroid(cs[i]) == p {
      assert points[0] == p;
      var c := cs[i];
      assert c.r == p.r as real && c.g == p.g as real && c.b == p.b as real;
    }
  }

  /**
   * A centre within the per-channel range of the points: for each channel some
   * point is at most and some point is at least the centre's value.
   */
  ghost predicate Between(points: seq<Rgb>, c: Centroid)
  {
    (exists k :: 0 <= k < |points| && points[k].r as real <= c.r) && (exists k :: 0 <= k < |points| && c.r <= points[k].r as real) &&
    (exists k :: 0 <= k < |points| && points[k].g as real <= c.g) && (exists k :: 0 <= k < |points| && c.g <= points[k].g as real) &&
    (exists k :: 0 <= k < |points| && points[k].b as real <= c.b) && (exists k :: 0 <= k < |points| && c.b <= points[k].b as real)
  }

  /** The number of clusters extract_dominant_colors fits when its caller gives none, as both callers do. */
  const DefaultK: int := 5

  /** With the default five clusters, the fit raises exactly on fewer than five points. */
  lemma DefaultKRaisesOnTinyImages(points: seq<Rgb>, kmeans: (seq<Rgb>, int) -> seq<Centroid>)
    ensures DominantOf(points, DefaultK, kmeans).Raised? <==> |points| < 5
  {
  }

  /**
   * extract_dominant_colors on the decoder's result: no image gives the empty
   * list; otherwise the pixels, reversed to RGB and flattened, are clustered
   * and the k centres are truncated to integers.
   */
  method ExtractDominantColors(image: Option<array2<Bgr>>, k: int, kmeans: (seq<Rgb>, int) -> seq<Centroid>)
    returns (r: DominantColors)
    ensures image.None? ==> r == Colors([])
    ensures image.Some? ==> r == DominantOf(MapRgb(RowMajor(Rows(image.value))), k, kmeans)
    ensures image.Some? ==> (r.Raised? <==> k < 1 || image.value.Length0 * image.value.Length1 < k)
  {
    if image.None? {
      return Colors([]);
    }
    var points := FlattenToRgb(image.value);
    r := DominantOf(points, k, kmeans);
  }
}
