# Drawing features and dataset rows, in Dafny

This project models the analysis core of a children's-drawing backend. It has three parts:

- **`DrawingAnalyzer`** (`drawing_analyzer.dfy`, from `procesamiento.py`) extracts three kinds of feature from a picture:
  - colour statistics: the mean hue, plus the mean saturation and brightness scaled to [0, 1];
  - stroke statistics: the number of outer contours of the inverted-thresholded greyscale image, and the mean perimeter/area ratio of the contours with positive area;
  - the dominant colours: k-means centres of the RGB pixels, truncated to integers.

  An image that fails to decode gives the empty result, with no error. Decoding, colour conversion, contour tracing, contour measures and the k-means fit are library code. They enter the model as a decoded `Option<array2<...>>` and as function parameters. The rules the analyzer applies around them are modelled concretely:
  - the 127 threshold, as a method over a 2-D array;
  - the contour loop that builds the ratio list;
  - the row-major BGR-to-RGB flattening, as a method over a 2-D array;
  - truncation toward zero;
  - the errors the clustering raises for invalid parameters.
- **The API helpers** (`api.dfy`, from `api.py`):
  - the upload-filename sanitiser, which replaces each character outside `[a-zA-Z0-9_.-]` with `_`;
  - the public URL of an upload;
  - the recommendation rule, with its strict confidence thresholds.
- **The dataset builder** (`build_dataset.dfy`, from `build_dataset.py`). Its loop goes over the listed file names and keeps only those with an image extension in any case and a truthy label for their id, which is the name without its final extension. For each kept file it builds a row dictionary:
  - the id and the label;
  - the five features, where a missing one reads as `0`;
  - exactly five colour slots, padded with black and truncated past five.

  Each row is written in the order of the fixed 22-column header. Listing the directory, the labels file and the three extractors are inputs: a sequence of names, a map and a function. The written file is the sequence of lines. The row dictionary is keyed by a `Column` datatype whose field names are proved distinct, so it holds what the name-keyed dictionary holds.

`wrappers.dfy` holds the `Option` type used for missing values and empty results.

Numbers are exact: integers are unbounded and features are reals taken before the final rounding to two decimals. The thresholds 0.7 and 0.6 are the exact binary64 values of those literals.

## Model

| member | source | states |
|---|---|---|
| DrawingAnalyzer.ExtractColorFeatures | procesamiento.py:9-23 | no decoded image gives the empty result and a decoded one gives a result; the result is the colour features of all pixels after HSV conversion in row-major order, with saturation and brightness in [0, 1] |
| DrawingAnalyzer.ColorOf | procesamiento.py:15-17 | the hue mean is not rescaled and lies within the converter's hue range [0, 179]; the saturation and value means divided by 255 lie in [0, 1] |
| DrawingAnalyzer.MeanReal | procesamiento.py:15-17 | `np.mean` on exact reals: the mean times the count is the sum |
| DrawingAnalyzer.MeanWithin | procesamiento.py:15-17 | the mean of a non-empty list of values in [0, hi] lies in [0, hi], as it does for hues (hi = 179) and for 8-bit samples (hi = 255) |
| DrawingAnalyzer.MapHsv | procesamiento.py:14 | the converter is applied to every pixel: one HSV pixel per pixel |
| DrawingAnalyzer.UniformColor | procesamiento.py:14-17 | an image of one HSV colour reports its hue as is and its saturation and value divided by 255 |
| DrawingAnalyzer.BinaryInv | procesamiento.py:30 | a pixel becomes one of two levels, 0 or 255, and becomes 255 exactly when it is at or below 127 |
| DrawingAnalyzer.ThresholdRows | procesamiento.py:30 | thresholding keeps the grid's shape: the same number of rows, each row the same length |
| DrawingAnalyzer.ThresholdBinaryInv | procesamiento.py:30 | the output array has the input's dimensions; each cell is 255 exactly when its pixel is at or below 127, and 0 exactly when it is above; the array equals the grid threshold of the input |
| DrawingAnalyzer.Ratios | procesamiento.py:34-39 | there are no more ratios than contours, and each ratio is non-negative |
| DrawingAnalyzer.RatiosEmpty | procesamiento.py:34-40 | the ratio list is empty exactly when no contour has positive area |
| DrawingAnalyzer.RatiosCount | procesamiento.py:34-39 | the number of ratios is the number of contours with positive area |
| DrawingAnalyzer.StrokeComplexity | procesamiento.py:40 | the stroke complexity is non-negative, and it is 0.0 when no contour has positive area |
| DrawingAnalyzer.ShapeOf | procesamiento.py:31-32 | the contour count is the number of contours traced, including those of zero area, and the complexity is non-negative |
| DrawingAnalyzer.SingleContour | procesamiento.py:34-40 | a single contour of positive area has complexity perimeter / area |
| DrawingAnalyzer.LightImageHasNoStrokes | procesamiento.py:30-40 | an image whose pixels are all above 127 has no foreground after thresholding, so a tracer that finds contours only in foreground gives 0 contours and complexity 0.0 |
| DrawingAnalyzer.ExtractShapeFeatures | procesamiento.py:25-45 | no decoded image gives the empty result; otherwise the loop over the contours builds exactly the ratio list, so the result is the shape features of the thresholded grid, with a non-negative complexity |
| DrawingAnalyzer.RowMajorLength | procesamiento.py:53 | flattening an h-by-w grid row-major gives h*w cells |
| DrawingAnalyzer.RowMajorIndex | procesamiento.py:53 | row-major flattening puts cell (i, j) of a width-w grid at index i*w + j |
| DrawingAnalyzer.MapRgb | procesamiento.py:52 | the BGR-to-RGB conversion gives one point per pixel |
| DrawingAnalyzer.PixelPositions | procesamiento.py:52-53 | the flattened RGB points of an h-by-w image are h*w, and point i*w + j is pixel (i, j) with its channels reversed |
| DrawingAnalyzer.FlattenToRgb | procesamiento.py:52-53 | the nested loop yields every pixel with its channels reversed from BGR to RGB, in row-major order: h*w points, pixel (i, j) at index i*w + j |
| DrawingAnalyzer.Truncate | procesamiento.py:56 | truncation toward zero: for a non-negative value, the greatest integer not above it; for a negative one, the least integer not below it |
| DrawingAnalyzer.TruncateCentroid | procesamiento.py:56 | each channel of the colour is the integer part of the centre's channel |
| DrawingAnalyzer.DominantOf | procesamiento.py:55-56 | the fit raises exactly when k < 1 or there are fewer points than k; otherwise there is one colour per centre, each channel the centre's channel truncated |
| DrawingAnalyzer.ExactlyKColors | procesamiento.py:55-58 | for valid k and a fit that returns k centres, exactly k colours are returned |
| DrawingAnalyzer.UniformDominant | procesamiento.py:55-58 | for an image of one colour, if every centre lies within the points' channel range, every dominant colour is that colour |
| DrawingAnalyzer.DefaultKRaisesOnTinyImages | procesamiento.py:47-55 | with the default of five clusters that both callers use, the fit raises exactly when there are fewer than five points |
| DrawingAnalyzer.ExtractDominantColors | procesamiento.py:47-58 | no decoded image gives the empty list; otherwise the result is the clustering of the flattened RGB points, and it raises exactly when k < 1 or the image has fewer than k pixels |
| Api.IsSafeChar | api.py:44 | the safe class excludes both path separators, `/` and `\` |
| Api.SanitizeFilename | api.py:44 | the result has the same length; safe characters stay in place, every other character becomes `_`, and every character of the result is safe |
| Api.SanitizeKeepsSafeNames | api.py:44 | a name made only of safe characters is unchanged |
| Api.SanitizeIdempotent | api.py:44 | sanitising a sanitised name changes nothing |
| Api.SanitizedHasNoSeparator | api.py:44 | no `/` or `\` survives sanitising |
| Api.DotNamesKept | api.py:44 | the names `""`, `.` and `..` consist of safe characters and pass the sanitiser unchanged; the function FileUrl maps each to the prefix followed by it (a statement about FileUrl only: the endpoint never returns such a URL, see "## Left out") |
| Api.FileUrl | api.py:50 | the URL is the fixed prefix `http://127.0.0.1:8000/uploads/` followed by the sanitised name, with no separator after the prefix |
| Api.FileUrlInjective | api.py:44-50 | two uploads get the same URL exactly when their names sanitise to the same string |
| Api.GenerateRecommendations | api.py:85-93 | at most one recommendation; warm colours exactly for "tristeza" with confidence strictly above 0.7, relaxation exactly for "enojo" strictly above 0.6, and none otherwise, including at a threshold and when the confidence is missing and defaults to 0 |
| BuildDataset.HasImageExtension | build_dataset.py:32 | the filter accepts a name exactly when its lower-cased form ends in one of `.jpg`, `.jpeg` or `.png` |
| BuildDataset.HasImageExtensionIgnoresCase | build_dataset.py:32 | a name and its lower-cased form are accepted alike |
| BuildDataset.LastDotIsLast | build_dataset.py:35 | the dot found is the last dot of the name, and none is found only when the name has no dot |
| BuildDataset.ImageId | build_dataset.py:35 | the id is a prefix of the name; when it is shorter, a dot follows it and it is not all dots |
| BuildDataset.ImageIdRoot | build_dataset.py:35 | the id is a prefix of the name; when it is shorter, the last dot follows it and it is not all dots; when it is the whole name, the name has no dot or only dots before its last one |
| BuildDataset.ImageIdDropsExtension | build_dataset.py:32-35 | for an accepted file, the id is the name without its image extension, unless only dots precede the extension, in which case it is the whole name |
| BuildDataset.LabelFor | build_dataset.py:36-39 | a label is found exactly when the id is in the labels and its label is not empty, and it is that label; otherwise the image is skipped |
| BuildDataset.ColumnName | build_dataset.py:25 | a colour column's name has six characters: `dc_`, the slot digit, `_`, and the channel letter from `rgb` |
| BuildDataset.ColumnNameInjective | build_dataset.py:21-26 | two columns have the same name exactly when they are the same column |
| BuildDataset.Header | build_dataset.py:21-26 | the header has 22 columns, starting with the id, the label and the five features in order |
| BuildDataset.HeaderColourColumn | build_dataset.py:25 | header position 7 + 3i + c holds colour slot i, channel c |
| BuildDataset.HeaderPositions | build_dataset.py:21-26 | each column appears in the 22-column header exactly once, at its position |
| BuildDataset.FieldNames | build_dataset.py:21-26 | one field name per header column |
| BuildDataset.FieldNamesLayout | build_dataset.py:21-26 | the header has 22 names: `id`, `label`, the five feature names in order, then `dc_i_r`, `dc_i_g`, `dc_i_b` for i = 0 to 4; no two are equal |
| BuildDataset.ColorDict | procesamiento.py:11-23 | the colour dictionary is empty for an undecodable image and otherwise has exactly the keys `average_hue`, `average_saturation` and `average_brightness` |
| BuildDataset.ShapeDict | procesamiento.py:27-45 | the shape dictionary is empty for an undecodable image and otherwise has exactly the keys `num_contours` and `stroke_complexity` |
| BuildDataset.LineOf | build_dataset.py:46-62 | an image's line has one cell per header column and starts with its id and label |
| BuildDataset.FeatureDefaults | build_dataset.py:49-53 | extracted features are copied into the row, and the features of an image that failed to decode read as the integer 0 |
| BuildDataset.ColourPadding | build_dataset.py:56-60 | colour slot i < len(dom) holds dom[i], and every later slot up to 5 holds (0, 0, 0) |
| BuildDataset.ExtraColoursDropped | build_dataset.py:56-60 | dominant colours past the fifth do not change the line |
| BuildDataset.UndecodableImageRow | build_dataset.py:46-60 | an image that failed to decode still gets a row: its id, its label and twenty zeros |
| BuildDataset.BuildRow | build_dataset.py:46-60 | the dictionary holds exactly the 22 header columns, with the id, the label, the features (missing ones as 0) and the channels of five slots padded with black |
| BuildDataset.AddSlot | build_dataset.py:56-60 | one iteration of the slot loop extends a row filled below slot i to one filled below slot i + 1 |
| BuildDataset.SlotPositions | build_dataset.py:58-60 | the columns at header positions 7 + 3i to 9 + 3i are exactly the three channels of slot i |
| BuildDataset.CsvLine | build_dataset.py:62 | `writerow` writes one cell per header column |
| BuildDataset.CsvLineCells | build_dataset.py:62 | the cell of each column sits at the column's header position and holds the row's value for it, or `""` when the row lacks the column |
| BuildDataset.RowHasEveryColumn | build_dataset.py:46-62 | a built row has every column of the header, so the writer leaves no cell empty |
| BuildDataset.RowLine | build_dataset.py:62 | a built row is written as the image's line: id, label, the five features, the fifteen colour cells |
| BuildDataset.WriteRow | build_dataset.py:46-62 | building the row and writing it gives that image's line |
| BuildDataset.Eligible | build_dataset.py:32-39 | a file gets a row exactly when it has an image extension and its id has a non-empty label |
| BuildDataset.Run | build_dataset.py:31-44 | every file the loop writes passed the filter and had its colours extracted |
| BuildDataset.Selected | build_dataset.py:31-39 | every file kept by the filter passed it, in listing order |
| BuildDataset.RunPrefix | build_dataset.py:31-62 | the written files are the selected ones up to the first whose clustering raised; the run completes exactly when none raised, and then every selected file is written; otherwise the next selected file is the one that raised |
| BuildDataset.ProcessedPrefix | build_dataset.py:31-62 | every written file has an image extension and a label; the written files are the eligible ones up to the first whose clustering raised, and all of them when none raised |
| BuildDataset.RunStep | build_dataset.py:31-62 | handling one listed name either skips it, adds it to the written files, or ends the run on a raised clustering |
| BuildDataset.Lines | build_dataset.py:62 | one line per written file |
| BuildDataset.LinesAppend | build_dataset.py:62 | writing one more file adds its line at the end |
| BuildDataset.HeaderLine | build_dataset.py:28 | the header line has one cell per column |
| BuildDataset.BuildDatasetFile | build_dataset.py:20-62 | the file holds the header line followed by exactly one line per eligible image up to the first raised clustering, in listing order; it reports completion exactly when no eligible image's clustering raised |

## Left out

- Image decoding, BGR-to-HSV conversion, contour tracing, `contourArea`, `arcLength` and the k-means fit are library code. They are inputs: the decoded image is an `Option` of a 2-D array, and the other four are function parameters. Their contracts are carried by their result types: 8-bit channels, hues in [0, 179] as in the 8-bit HSV conversion, non-negative measures, centres within [0, 255]. Where a lemma needs more, the contract is stated as a predicate: contours are traced only in foreground, and centres lie within the points' range.
- Api.FileUrl: sanitising leaves the names `""`, `.` and `..` unchanged (DotNamesKept). Joined to the upload directory they give the directory itself or its parent, an existing directory, so opening it for writing at api.py:47 fails and the endpoint answers 500 (api.py:78-79): nothing is stored and no URL is returned. Path joining, the file write and the error handling are not modelled.
- Rounding with `round(x, 2)`, binary floating-point division and numpy's float mean are not modelled. Features are exact reals.
- DrawingAnalyzer.ExtractColorFeatures: requires a decoded image to have at least one pixel. Every image the decoder returns has one, and the mean of an empty array is NaN, which is not modelled.
- DrawingAnalyzer.ExtractDominantColors: the parameter validation of the fit is modelled for k < 1 and for fewer pixels than clusters. The fit's own random seeding and iteration are not modelled, and neither is a fit returning other than k centres (ExactlyKColors assumes it returns k).
- BuildDataset.HasImageExtension: `str.lower()` is modelled on the ASCII letters only, which covers the extensions compared; Unicode case mapping of other characters is not modelled.
- BuildDataset.ImageId: `os.path.splitext` is modelled for the bare names a directory listing yields, which contain no path separator.
- BuildDataset.LabelFor: labels are strings, and a falsy label is a missing key or the empty string. A pandas NaN (truthy) or numeric ids and labels read from the CSV are not modelled.
- BuildDataset.LineForFile: the fallbacks for a missing label and a raised clustering are never taken for a written file (Run and ProcessedPrefix); they only make the function total.
- BuildDataset.CsvLine: cell values are kept as typed values (string, int, real); their text formatting in the CSV file is not modelled.
- BuildDataset.BuildDatasetFile: directory listing, reading the labels file, opening and joining paths, the CSV writer's quoting and the warning printed for an unlabelled image are I/O and are not modelled. An error raised by the clustering ends the run: modelled as `completed == false`, with the lines written so far kept.
- The analysis endpoint of `api.py` (upload handling, the content-type check, file writes, the in-place addition of the dominant colours to the colour dictionary, the JSON and CSV result logs, clock-based ids and timestamps, CORS and static mounts) is I/O and framework wiring, and is not part of this model.
- Api.GenerateRecommendations: the emotion and confidence are read as optional values; a confidence key present with a non-numeric value (a comparison that would raise in Python) is not modelled.
- `emociones.py` (a random-score classifier) and `test.py` (a print-only driver) are not part of this model.
