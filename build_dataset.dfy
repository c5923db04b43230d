/**
 * The dataset builder (build_dataset.py): which files of the image directory
 * become rows of the CSV dataset, and what each row holds.
 *
 * Listing the directory, reading the labels file and running the three
 * extractors on a file are inputs: the list of file names, the id-to-label map
 * and a function giving the extractors' results for a file name. The CSV file
 * is the sequence of lines written, each line its cells in header order.
 */
module BuildDataset {
  import opened Wrappers
  import DA = DrawingAnalyzer

  /** A value written to the CSV file: a string, a Python int or a Python float. */
  datatype Cell = Str(s: string) | Int(i: int) | Real(x: real)

  // ---------------------------------------------------------------------------
  // Which files are processed
  // ---------------------------------------------------------------------------

  function LowerChar(c: char): char
  {
    if 'A' <= c <= 'Z' then (c as int + 32) as char else c
  }

  /** str.lower() on the ASCII letters; every other character is kept. */
  function Lower(s: string): (l: string)
    ensures |l| == |s|
  {
    seq(|s|, i requires 0 <= i < |s| => LowerChar(s[i]))
  }

  predicate EndsWith(s: string, suffix: string)
  {
    |suffix| <= |s| && s[|s| - |suffix|..] == suffix
  }

  /** The extensions of the files the builder reads. */
  const ImageExtensions: seq<string> := [".jpg", ".jpeg", ".png"]

  /** fname.lower().endswith((".jpg", ".jpeg", ".png")): the lower-cased name ends in one of the extensions. */
  predicate HasImageExtension(fname: string)
    ensures HasImageExtension(fname) <==> exists e :: e in ImageExtensions && EndsWith(Lower(fname), e)
  {
    var l := Lower(fname);
    EndsWith(l, ".jpg") || EndsWith(l, ".jpeg") || EndsWith(l, ".png")
  }

  /** The filter ignores case: a name and its lower-case form are accepted alike. */
  lemma HasImageExtensionIgnoresCase(fname: string)
    ensures HasImageExtension(Lower(fname)) == HasImageExtension(fname)
  {
    assert Lower(Lower(fname)) == Lower(fname);
  }

  // ---------------------------------------------------------------------------
  // The image id: os.path.splitext(fname)[0]
  // ---------------------------------------------------------------------------

  /** The position of the last '.' in s, if there is one. */
  function LastDot(s: string): (d: Option<nat>)
    ensures d.Some? ==> d.value < |s| && s[d.value] == '.'
  {
    if s == [] then None
    else if s[|s| - 1] == '.' then Some(|s| - 1)
    else LastDot(s[..|s| - 1])
  }

  /** LastDot finds the last dot, and finds none only when there is none. */
  lemma {:induction false} LastDotIsLast(s: string)
    ensures var d := LastDot(s);
      (d.Some? ==> d.value < |s| && s[d.value] == '.' && forall k :: d.value < k < |s| ==> s[k] != '.') &&
      (d.None? ==> forall k :: 0 <= k < |s| ==> s[k] != '.')
  {
    if s != [] && s[|s| - 1] != '.' {
      LastDotIsLast(s[..|s| - 1]);
    }
  }

  predicate AllDots(s: string)
  {
    forall k :: 0 <= k < |s| ==> s[k] == '.'
  }

  /**
   * The root of os.path.splitext for a bare file name: the name up to its last
   * dot, unless there is no dot or only dots precede it (".png" has no
   * extension), in which case the whole name.
   */
  function ImageId(fname: string): (root: string)
    ensures root <= fname
    ensures root != fname ==> fname[|root|] == '.' && !AllDots(root)
  {
    match LastDot(fname)
    case None => fname
    case Some(d) => if AllDots(fname[..d]) then fname else fname[..d]
  }

  /**
   * The id is a prefix of the name. When it is shorter, what follows it is the
   * last dot of the name and the id is not all dots; when it is the whole name,
   * the name has no dot or only dots before its last one.
   */
  lemma ImageIdRoot(fname: string)
    ensures ImageId(fname) <= fname
    ensures var root := ImageId(fname);
      root != fname ==> fname[|root|] == '.' && !AllDots(root) && forall k :: |root| < k < |fname| ==> fname[k] != '.'
    ensures ImageId(fname) == fname ==> LastDot(fname).None? || AllDots(fname[..LastDot(fname).value])
  {
    LastDotIsLast(fname);
  }

  /**
   * For an accepted file the id is the name without its image extension,
   * unless only dots precede that extension.
   */
  lemma ImageIdDropsExtension(fname: string, ext: string)
    requires ext in ImageExtensions && EndsWith(Lower(fname), ext)
    ensures !AllDots(fname[..|fname| - |ext|]) ==> ImageId(fname) == fname[..|fname| - |ext|]
    ensures AllDots(fname[..|fname| - |ext|]) ==> ImageId(fname) == fname
  {
    LastDotIsLast(fname);
    ImageIdRoot(fname);
    var d := |fname| - |ext|;
    var l := Lower(fname);
    assert l[d..] == ext;
    assert ext[0] == '.' && l[d] == ext[0];
    assert fname[d] == '.';
    forall k | d < k < |fname| ensures fname[k] != '.' {
      assert l[k] == ext[k - d];
      assert ext[k - d] != '.';
    }
  }

  // ---------------------------------------------------------------------------
  // Labels
  // ---------------------------------------------------------------------------

  /** labels_dict.get(image_id) when it is truthy; None for a missing id or an empty label. */
  function LabelFor(labels: map<string, string>, id: string): (found: Option<string>)
    ensures found.Some? <==> id in labels && labels[id] != ""
    ensures found.Some? ==> found.value == labels[id]
  {
    if id in labels && labels[id] != "" then Some(labels[id]) else None
  }

  // ---------------------------------------------------------------------------
  // The header
  // ---------------------------------------------------------------------------

  /** A colour slot, 0 to 4, and a channel, 0 to 2 for red, green and blue. */
  type SlotIndex = i: nat | i < 5
  type ChannelIndex = ch: nat | ch < 3

  /**
   * The columns of the dataset. The row dictionary is keyed by column names;
   * ColumnName gives them and no two columns share one, so a dictionary keyed
   * by Column holds what the name-keyed one holds.
   */
  datatype Column =
    | Id | Label | AvgHue | AvgSaturation | AvgBrightness | NumContours | StrokeComplexity
    | Dc(slot: SlotIndex, channel: ChannelIndex)

  /** The field name of a column; colour columns are f"dc_{i}_{c}" for c in "rgb". */
  function ColumnName(c: Column): (name: string)
    ensures c.Dc? ==> |name| == 6 && name[..3] == "dc_" && name[3] == "01234"[c.slot] && name[4] == '_' && name[5] == "rgb"[c.channel]
  {
    match c
    case Id => "id"
    case Label => "label"
    case AvgHue => "avg_hue"
    case AvgSaturation => "avg_saturation"
    case AvgBrightness => "avg_brightness"
    case NumContours => "num_contours"
    case StrokeComplexity => "stroke_complexity"
    case Dc(i, ch) => "dc_" + ["01234"[i]] + "_" + ["rgb"[ch]]
  }

  /** Different columns have different names. */
  lemma ColumnNameInjective(a: Column, b: Column)
    ensures ColumnName(a) == ColumnName(b) <==> a == b
  {
    if a.Dc? && b.Dc? && ColumnName(a) == ColumnName(b) {
      assert "01234"[a.slot] == "01234"[b.slot] && "rgb"[a.channel] == "rgb"[b.channel];
    }
  }

  /** The column at index n of the header. */
  function ColumnAt(n: nat): Column
    requires n < 22
  {
    if n == 0 then Id
    else if n == 1 then Label
    else if n == 2 then AvgHue
    else if n == 3 then AvgSaturation
    else if n == 4 then AvgBrightness
    else if n == 5 then NumContours
    else if n == 6 then StrokeComplexity
    else Dc((n - 7) / 3, (n - 7) % 3)
  }

  function Header(): (h: seq<Column>)
    ensures |h| == 22
    ensures h[..7] == [Id, Label, AvgHue, AvgSaturation, AvgBrightness, NumContours, StrokeComplexity]
  {
    seq(22, n requires 0 <= n < 22 => ColumnAt(n))
  }

  lemma HeaderColourColumn(i: SlotIndex, ch: ChannelIndex)
    ensures 7 + 3 * i + ch < |Header()| && Header()[7 + 3 * i + ch] == Dc(i, ch)
  {
    var n := 3 * i + ch;
    assert n / 3 == i && n % 3 == ch;
  }

  /** The index of a column in the header. */
  function Position(c: Column): nat
  {
    match c
    case Id => 0
    case Label => 1
    case AvgHue => 2
    case AvgSaturation => 3
    case AvgBrightness => 4
    case NumContours => 5
    case StrokeComplexity => 6
    case Dc(i, ch) => 7 + 3 * i + ch
  }

  /** Each column appears in the header exactly once: at its position. */
  lemma HeaderPositions()
    ensures forall n :: 0 <= n < |Header()| ==> Position(Header()[n]) == n
    ensures forall c :: Header()[Position(c)] == c
  {
    forall n | 7 <= n < |Header()| ensures Position(Header()[n]) == n {
      var i, ch := (n - 7) / 3, (n - 7) % 3;
      HeaderColourColumn(i, ch);
    }
    forall c: Column | c.Dc? ensures Header()[Position(c)] == c {
      HeaderColourColumn(c.slot, c.channel);
    }
  }

  /** The names written on the header line. */
  function FieldNames(): (names: seq<string>)
    ensures |names| == |Header()|
  {
    seq(|Header()|, n requires 0 <= n < |Header()| => ColumnName(Header()[n]))
  }

  /**
   * The header line has 22 distinct names: id, label, the five features, then
   * dc_i_r, dc_i_g, dc_i_b for each slot i.
   */
  lemma FieldNamesLayout()
    ensures |FieldNames()| == 22
    ensures FieldNames()[..7] ==
      ["id", "label", "avg_hue", "avg_saturation", "avg_brightness", "num_contours", "stroke_complexity"]
    ensures forall i: SlotIndex, ch: ChannelIndex :: FieldNames()[7 + 3 * i + ch] == ColumnName(Dc(i, ch))
    ensures forall a, b :: 0 <= a < b < |Header()| ==> FieldNames()[a] != FieldNames()[b]
  {
    var names := FieldNames();
    HeaderPositions();
    forall i: SlotIndex, ch: ChannelIndex ensures names[7 + 3 * i + ch] == ColumnName(Dc(i, ch)) {
      HeaderColourColumn(i, ch);
    }
    forall a, b | 0 <= a < b < |Header()| ensures names[a] != names[b] {
      ColumnNameInjective(Header()[a], Header()[b]);
    }
  }

  // ---------------------------------------------------------------------------
  // One row
  // ---------------------------------------------------------------------------

  /** The dictionary extract_color_features returns: empty when decoding failed. */
  function ColorDict(color: Option<DA.ColorFeatures>): (d: map<string, Cell>)
    ensures color.None? ==> d == map[]
    ensures color.Some? ==> d.Keys == {"average_hue", "average_saturation", "average_brightness"}
  {
    match color
    case None => map[]
    case Some(c) => map["average_hue" := Real(c.averageHue),
                        "average_saturation" := Real(c.averageSaturation),
                        "average_brightness" := Real(c.averageBrightness)]
  }

  /** The dictionary extract_shape_features returns: empty when decoding failed. */
  function ShapeDict(shape: Option<DA.ShapeFeatures>): (d: map<string, Cell>)
    ensures shape.None? ==> d == map[]
    ensures shape.Some? ==> d.Keys == {"num_contours", "stroke_complexity"}
  {
    match shape
    case None => map[]
    case Some(s) => map["num_contours" := Int(s.numContours), "stroke_complexity" := Real(s.strokeComplexity)]
  }

  /** d.get(key, 0): a missing key reads as the int 0. */
  function Get(d: map<string, Cell>, key: string): Cell
  {
    if key in d then d[key] else Int(0)
  }

  /** The five feature cells of a row, in header order. */
  function FeatureCells(color: Option<DA.ColorFeatures>, shape: Option<DA.ShapeFeatures>): (cells: seq<Cell>)
    ensures |cells| == 5
  {
    [Get(ColorDict(color), "average_hue"), Get(ColorDict(color), "average_saturation"),
     Get(ColorDict(color), "average_brightness"), Get(ShapeDict(shape), "num_contours"),
     Get(ShapeDict(shape), "stroke_complexity")]
  }

  /** Features that were extracted are copied; features of an undecodable image read as 0. */
  lemma FeatureDefaults(color: Option<DA.ColorFeatures>, shape: Option<DA.ShapeFeatures>)
    ensures color.Some? ==> (FeatureCells(color, shape)[..3] ==
      [Real(color.value.averageHue), Real(color.value.averageSaturation), Real(color.value.averageBrightness)])
    ensures color.None? ==> FeatureCells(color, shape)[..3] == [Int(0), Int(0), Int(0)]
    ensures shape.Some? ==> (FeatureCells(color, shape)[3..] ==
      [Int(shape.value.numContours), Real(shape.value.strokeComplexity)])
    ensures shape.None? ==> FeatureCells(color, shape)[3..] == [Int(0), Int(0)]
  {
  }

  /** Colour slot i: dom[i] when present, otherwise black. */
  function Slot(dom: seq<DA.Rgb>, i: nat): DA.Rgb
  {
    if i < |dom| then dom[i] else DA.Rgb(0, 0, 0)
  }

  /** Channel 0, 1 or 2 of a colour: red, green, blue. */
  function Channel(c: DA.Rgb, ch: nat): int
  {
    if ch == 0 then c.r else if ch == 1 then c.g else c.b
  }

  /** The fifteen colour cells of a row, slot by slot, red, green, blue. */
  function ColourCells(dom: seq<DA.Rgb>): (cells: seq<Cell>)
    ensures |cells| == 15
  {
    seq(15, n requires 0 <= n < 15 => Int(Channel(Slot(dom, n / 3), n % 3)))
  }

  /** The line written for an image: id, label, its features and exactly five colour slots. */
  function LineOf(id: string, labelText: string, color: Option<DA.ColorFeatures>, shape: Option<DA.ShapeFeatures>,
                  dom: seq<DA.Rgb>): (line: seq<Cell>)
    ensures |line| == |Header()|
    ensures line[..2] == [Str(id), Str(labelText)]
  {
    [Str(id), Str(labelText)] + FeatureCells(color, shape) + ColourCells(dom)
  }

  /** Cells 3i to 3i+2 of the colour cells are the channels of slot i. */
  lemma ColourCellsSlot(dom: seq<DA.Rgb>, i: nat)
    requires i < 5
    ensures ColourCells(dom)[3 * i..3 * i + 3] == [Int(Slot(dom, i).r), Int(Slot(dom, i).g), Int(Slot(dom, i).b)]
  {
    var cells := ColourCells(dom);
    assert cells[3 * i] == Int(Channel(Slot(dom, i), 0));
    assert cells[3 * i + 1] == Int(Channel(Slot(dom, i), 1));
    assert cells[3 * i + 2] == Int(Channel(Slot(dom, i), 2));
  }

  /**
   * The colour cells copy the first five dominant colours and pad with black:
   * slot i < |dom| is dom[i], a later slot is (0, 0, 0).
   */
  lemma ColourPadding(id: string, labelText: string, color: Option<DA.ColorFeatures>,
                      shape: Option<DA.ShapeFeatures>, dom: seq<DA.Rgb>)
    ensures forall i :: 0 <= i < 5 && i < |dom| ==>
      LineOf(id, labelText, color, shape, dom)[7 + 3 * i..10 + 3 * i] == [Int(dom[i].r), Int(dom[i].g), Int(dom[i].b)]
    ensures forall i :: |dom| <= i < 5 ==>
      LineOf(id, labelText, color, shape, dom)[7 + 3 * i..10 + 3 * i] == [Int(0), Int(0), Int(0)]
  {
    var line := LineOf(id, labelText, color, shape, dom);
    assert line[7..] == ColourCells(dom);
    forall i | 0 <= i < 5
      ensures line[7 + 3 * i..10 + 3 * i] == [Int(Slot(dom, i).r), Int(Slot(dom, i).g), Int(Slot(dom, i).b)]
    {
      ColourCellsSlot(dom, i);
      assert line[7 + 3 * i..10 + 3 * i] == line[7..][3 * i..3 * i + 3];
    }
  }

  /** Dominant colours past the fifth do not reach the line. */
  lemma ExtraColoursDropped(id: string, labelText: string, color: Option<DA.ColorFeatures>,
                            shape: Option<DA.ShapeFeatures>, dom: seq<DA.Rgb>)
    requires |dom| > 5
    ensures LineOf(id, labelText, color, shape, dom) == LineOf(id, labelText, color, shape, dom[..5])
  {
    forall n | 0 <= n < 15 ensures ColourCells(dom)[n] == ColourCells(dom[..5])[n] {
      assert Slot(dom, n / 3) == Slot(dom[..5], n / 3);
    }
    assert ColourCells(dom) == ColourCells(dom[..5]);
  }


  /** An image that failed to decode still gets a row: its id, its label and twenty zeros. */
  lemma UndecodableImageRow(id: string, labelText: string)
    ensures LineOf(id, labelText, None, None, []) == [Str(id), Str(labelText)] + seq(20, _ => Int(0))
  {
    var line := LineOf(id, labelText, None, None, []);
    FeatureDefaults(None, None);
    assert FeatureCells(None, None) == [Int(0), Int(0), Int(0), Int(0), Int(0)];
    assert forall n :: 0 <= n < 15 ==> ColourCells([])[n] == Int(0);
  }

  /**
   * A row dictionary filled below colour slot `slots`: its keys are the
   * columns among the first 7 + 3 * slots of the header, holding the id, the label, the
   * features (a missing one read as 0) and the channels of the slots below
   * `slots`, black past the end of the dominant colours.
   */
  ghost predicate PartialRow(row: map<Column, Cell>, id: string, labelText: string, color: Option<DA.ColorFeatures>,
                             shape: Option<DA.ShapeFeatures>, dom: seq<DA.Rgb>, slots: nat)
  {
    slots <= 5 &&
    (forall c :: c in row <==> Position(c) < 7 + 3 * slots) &&
    row[Id] == Str(id) && row[Label] == Str(labelText) &&
    row[AvgHue] == Get(ColorDict(color), "average_hue") &&
    row[AvgSaturation] == Get(ColorDict(color), "average_saturation") &&
    row[AvgBrightness] == Get(ColorDict(color), "average_brightness") &&
    row[NumContours] == Get(ShapeDict(shape), "num_contours") &&
    row[StrokeComplexity] == Get(ShapeDict(shape), "stroke_complexity") &&
    forall i: SlotIndex, ch: ChannelIndex :: i < slots ==> row[Dc(i, ch)] == Int(Channel(Slot(dom, i), ch))
  }

  /** The row dictionary holds exactly the header's columns, with these values. */
  ghost predicate RowFor(row: map<Column, Cell>, id: string, labelText: string, color: Option<DA.ColorFeatures>,
                         shape: Option<DA.ShapeFeatures>, dom: seq<DA.Rgb>)
  {
    PartialRow(row, id, labelText, color, shape, dom, 5)
  }

  /**
   * The `row` dictionary of one image: id and label, the five features with
   * missing keys read as 0, then the three channels of five colour slots.
   */
  method BuildRow(id: string, labelText: string, color: Option<DA.ColorFeatures>, shape: Option<DA.ShapeFeatures>,
                  dom: seq<DA.Rgb>) returns (row: map<Column, Cell>)
    ensures RowFor(row, id, labelText, color, shape, dom)
  {
    var c, s := ColorDict(color), ShapeDict(shape);
    row := map[
      Id := Str(id),
      Label := Str(labelText),
      AvgHue := Get(c, "average_hue"),
      AvgSaturation := Get(c, "average_saturation"),
      AvgBrightness := Get(c, "average_brightness"),
      NumContours := Get(s, "num_contours"),
      StrokeComplexity := Get(s, "stroke_complexity")
    ];
    for i := 0 to 5
      invariant PartialRow(row, id, labelText, color, shape, dom, i)
    {
      var r, g, b := if i < |dom| then dom[i].r else 0, if i < |dom| then dom[i].g else 0, if i < |dom| then dom[i].b else 0;
      AddSlot(row, id, labelText, color, shape, dom, i);
      row := row[Dc(i, 0) := Int(r)];
      row := row[Dc(i, 1) := Int(g)];
      row := row[Dc(i, 2) := Int(b)];
    }
  }

  /** Adding the three channels of slot i to a row filled below i fills it below i + 1. */
  lemma AddSlot(row: map<Column, Cell>, id: string, labelText: string, color: Option<DA.ColorFeatures>,
                shape: Option<DA.ShapeFeatures>, dom: seq<DA.Rgb>, i: SlotIndex)
    requires PartialRow(row, id, labelText, color, shape, dom, i)
    ensures PartialRow(row[Dc(i, 0) := Int(Slot(dom, i).r)][Dc(i, 1) := Int(Slot(dom, i).g)][Dc(i, 2) := Int(Slot(dom, i).b)],
                       id, labelText, color, shape, dom, i + 1)
  {
    var row' := row[Dc(i, 0) := Int(Slot(dom, i).r)][Dc(i, 1) := Int(Slot(dom, i).g)][Dc(i, 2) := Int(Slot(dom, i).b)];
    SlotPositions(i);
    forall j: SlotIndex, ch: ChannelIndex | j < i + 1 ensures row'[Dc(j, ch)] == Int(Channel(Slot(dom, j), ch)) {
      if j < i {
        assert row'[Dc(j, ch)] == row[Dc(j, ch)];
      }
    }
  }

  /** The columns at positions 7 + 3i to 9 + 3i are the three channels of slot i. */
  lemma SlotPositions(i: SlotIndex)
    ensures forall c :: 7 + 3 * i <= Position(c) < 7 + 3 * (i + 1) <==> c in {Dc(i, 0), Dc(i, 1), Dc(i, 2)}
  {
    forall c | 7 + 3 * i <= Position(c) < 7 + 3 * (i + 1) ensures c in {Dc(i, 0), Dc(i, 1), Dc(i, 2)} {
      assert c.Dc? && c.slot == i;
    }
  }


  /** csv.DictWriter.writerow: the row's values in header order, "" for a missing key. */
  function CsvLine(row: map<Column, Cell>): (line: seq<Cell>)
    ensures |line| == |Header()|
  {
    seq(|Header()|, n requires 0 <= n < |Header()| => if Header()[n] in row then row[Header()[n]] else Str(""))
  }

  /**
   * DictWriter's placement: the cell of every column is at the column's
   * position, holding the row's value for it, or "" when the row lacks it.
   */
  lemma CsvLineCells(row: map<Column, Cell>)
    ensures forall c :: (Position(c) < |CsvLine(row)| &&
                         CsvLine(row)[Position(c)] == (if c in row then row[c] else Str("")))
  {
    HeaderPositions();
  }

  /** A row built for an image is written as that image's line, every column filled. */
  lemma RowLine(row: map<Column, Cell>, id: string, labelText: string, color: Option<DA.ColorFeatures>,
                shape: Option<DA.ShapeFeatures>, dom: seq<DA.Rgb>)
    requires RowFor(row, id, labelText, color, shape, dom)
    ensures CsvLine(row) == LineOf(id, labelText, color, shape, dom)
  {
    RowHasEveryColumn(row, id, labelText, color, shape, dom);
    var line, spec := CsvLine(row), LineOf(id, labelText, color, shape, dom);
    forall n | 0 <= n < |Header()| ensures line[n] == spec[n] {
      if 7 <= n {
        var i, ch := (n - 7) / 3, (n - 7) % 3;
        HeaderColourColumn(i, ch);
        assert spec[n] == ColourCells(dom)[n - 7];
      }
    }
  }

  /** A built row has every column of the header, so DictWriter writes no empty cell. */
  lemma RowHasEveryColumn(row: map<Column, Cell>, id: string, labelText: string, color: Option<DA.ColorFeatures>,
                          shape: Option<DA.ShapeFeatures>, dom: seq<DA.Rgb>)
    requires RowFor(row, id, labelText, color, shape, dom)
    ensures forall n :: 0 <= n < |Header()| ==> Header()[n] in row
  {
    HeaderPositions();
  }

  /** The row of one image, built and passed to writerow: the image's line. */
  method WriteRow(id: string, labelText: string, color: Option<DA.ColorFeatures>, shape: Option<DA.ShapeFeatures>,
                  dom: seq<DA.Rgb>) returns (line: seq<Cell>)
    ensures line == LineOf(id, labelText, color, shape, dom)
  {
    var row := BuildRow(id, labelText, color, shape, dom);
    RowLine(row, id, labelText, color, shape, dom);
    line := CsvLine(row);
  }


  // ---------------------------------------------------------------------------
  // The whole directory
  // ---------------------------------------------------------------------------

  /** What the three extractors give for one file. */
  datatype Analysis = Analysis(color: Option<DA.ColorFeatures>, shape: Option<DA.ShapeFeatures>, dom: DA.DominantColors)

  /** The files whose lines were written, in order, and whether the loop ran to the end. */
  datatype Outcome = Outcome(files: seq<string>, completed: bool)

  /** A file that gets a row: an image extension and a truthy label for its id. */
  predicate Eligible(fname: string, labels: map<string, string>)
    ensures Eligible(fname, labels) <==>
      HasImageExtension(fname) && ImageId(fname) in labels && labels[ImageId(fname)] != ""
  {
    HasImageExtension(fname) && LabelFor(labels, ImageId(fname)).Some?
  }

  /**
   * The line of a written file: its id, its label, its features and its
   * colours. Written files are eligible and extracted (see Run), so the
   * fallbacks for a missing label or failed clustering are never taken.
   */
  function LineForFile(fname: string, labels: map<string, string>, a: Analysis): seq<Cell>
  {
    var id := ImageId(fname);
    var labelText := if LabelFor(labels, id).Some? then LabelFor(labels, id).value else "";
    LineOf(id, labelText, a.color, a.shape, if a.dom.Colors? then a.dom.colors else [])
  }

  /**
   * The loop over the listed names with a file filter: rejected names are
   * skipped, every selected file is written once its colours are extracted,
   * and an error raised by the clustering ends the run. Every written file
   * was selected and had its colours extracted.
   */
  function Run(fnames: seq<string>, selected: string -> bool, analyze: string -> Analysis): (o: Outcome)
    ensures forall k :: 0 <= k < |o.files| ==> selected(o.files[k]) && analyze(o.files[k]).dom.Colors?
  {
    if fnames == [] then Outcome([], true)
    else
      var f := fnames[0];
      if !selected(f) then Run(fnames[1..], selected, analyze)
      else if analyze(f).dom.Raised? then Outcome([], false)
      else
        var rest := Run(fnames[1..], selected, analyze);
        Outcome([f] + rest.files, rest.completed)
  }

  /** The selected names, in listing order. */
  function Selected(fnames: seq<string>, selected: string -> bool): (e: seq<string>)
    ensures forall k :: 0 <= k < |e| ==> selected(e[k])
  {
    if fnames == [] then []
    else if selected(fnames[0]) then [fnames[0]] + Selected(fnames[1..], selected)
    else Selected(fnames[1..], selected)
  }

  /**
   * The written files are the selected files up to the first one whose
   * clustering raised. The run completes exactly when none raised, and then
   * every selected file is written; otherwise the next selected file is the
   * one that raised.
   */
  lemma {:induction false} RunPrefix(fnames: seq<string>, selected: string -> bool, analyze: string -> Analysis)
    ensures var o, e := Run(fnames, selected, analyze), Selected(fnames, selected);
      o.files <= e &&
      (o.completed <==> forall k :: 0 <= k < |e| ==> analyze(e[k]).dom.Colors?) &&
      (o.completed ==> o.files == e) &&
      (!o.completed ==> |o.files| < |e| && analyze(e[|o.files|]).dom.Raised?)
  {
    if fnames != [] {
      var f, rest := fnames[0], fnames[1..];
      RunPrefix(rest, selected, analyze);
      var o', e' := Run(rest, selected, analyze), Selected(rest, selected);
      var o, e := Run(fnames, selected, analyze), Selected(fnames, selected);
      if selected(f) {
        assert e == [f] + e';
        if analyze(f).dom.Colors? {
          assert o.files == [f] + o'.files && o.completed == o'.completed;
          if o.completed {
            forall k | 0 <= k < |e| ensures analyze(e[k]).dom.Colors? {
              if k > 0 { assert e[k] == e'[k - 1]; }
            }
          }
          if forall k :: 0 <= k < |e| ==> analyze(e[k]).dom.Colors? {
            forall k | 0 <= k < |e'| ensures analyze(e'[k]).dom.Colors? {
              assert e'[k] == e[k + 1];
            }
          }
          if !o.completed {
            assert e[|o.files|] == e'[|o'.files|];
          }
        } else {
          assert e[0] == f;
        }
      }
    }
  }

  /** The files the builder writes: the run whose filter is Eligible. */
  function Processed(fnames: seq<string>, labels: map<string, string>, analyze: string -> Analysis): Outcome
  {
    Run(fnames, f => Eligible(f, labels), analyze)
  }

  /** The eligible files, in listing order. */
  function EligibleFiles(fnames: seq<string>, labels: map<string, string>): seq<string>
  {
    Selected(fnames, f => Eligible(f, labels))
  }

  /**
   * The files written are the eligible ones up to the first whose clustering
   * raised; the run completes exactly when none raised, and then all are written.
   */
  lemma ProcessedPrefix(fnames: seq<string>, labels: map<string, string>, analyze: string -> Analysis)
    ensures var o, e := Processed(fnames, labels, analyze), EligibleFiles(fnames, labels);
      o.files <= e &&
      (forall k :: 0 <= k < |o.files| ==> Eligible(o.files[k], labels) && analyze(o.files[k]).dom.Colors?) &&
      (o.completed <==> forall k :: 0 <= k < |e| ==> analyze(e[k]).dom.Colors?) &&
      (o.completed ==> o.files == e) &&
      (!o.completed ==> |o.files| < |e| && analyze(e[|o.files|]).dom.Raised?)
  {
    RunPrefix(fnames, f => Eligible(f, labels), analyze);
  }

  /** The lines of written files, one per file, in order. */
  function Lines(files: seq<string>, labels: map<string, string>, analyze: string -> Analysis): (lines: seq<seq<Cell>>)
    ensures |lines| == |files|
  {
    seq(|files|, k requires 0 <= k < |files| => LineForFile(files[k], labels, analyze(files[k])))
  }

  /**
   * One step of the loop: if the run so far wrote `done` and the rest is the
   * run over fnames[i..], handling fnames[i] leaves the same run with the file
   * added to `done` when it is selected and extracted.
   */
  lemma RunStep(fnames: seq<string>, i: nat, selected: string -> bool, analyze: string -> Analysis, done: seq<string>)
    requires i < |fnames|
    requires Run(fnames, selected, analyze) ==
      Outcome(done + Run(fnames[i..], selected, analyze).files, Run(fnames[i..], selected, analyze).completed)
    ensures var f := fnames[i];
      (selected(f) && analyze(f).dom.Raised? ==> Run(fnames, selected, analyze) == Outcome(done, false)) &&
      (!(selected(f) && analyze(f).dom.Raised?) ==>
        var done' := if selected(f) then done + [f] else done;
        Run(fnames, selected, analyze) ==
          Outcome(done' + Run(fnames[i + 1..], selected, analyze).files, Run(fnames[i + 1..], selected, analyze).completed))
  {
    var f := fnames[i];
    assert fnames[i..][0] == f && fnames[i..][1..] == fnames[i + 1..];
    if selected(f) && analyze(f).dom.Raised? {
      assert done + [] == done;
    } else if selected(f) {
      AppendAssociative(done, [f], Run(fnames[i + 1..], selected, analyze).files);
    }
  }

  /** Writing one more file adds its line at the end. */
  lemma LinesAppend(files: seq<string>, f: string, labels: map<string, string>, analyze: string -> Analysis)
    ensures Lines(files + [f], labels, analyze) == Lines(files, labels, analyze) + [LineForFile(f, labels, analyze(f))]
  {
  }

  lemma AppendAssociative<T>(a: seq<T>, b: seq<T>, c: seq<T>)
    ensures a + (b + c) == (a + b) + c
  {
  }

  /** The header line written first: the field names. */
  function HeaderLine(): (line: seq<Cell>)
    ensures |line| == |Header()|
  {
    seq(|Header()|, n requires 0 <= n < |Header()| => Str(FieldNames()[n]))
  }

  /**
   * The main loop: the header, then, for each listed file that has an image
   * extension and a label, the line of its row. A file whose clustering raises
   * stops the loop; what was written stays.
   */
  method BuildDatasetFile(fnames: seq<string>, labels: map<string, string>, analyze: string -> Analysis)
    returns (written: seq<seq<Cell>>, completed: bool)
    ensures written == [HeaderLine()] + Lines(Processed(fnames, labels, analyze).files, labels, analyze)
    ensures completed == Processed(fnames, labels, analyze).completed
  {
    ghost var eligible := f => Eligible(f, labels);
    written := [HeaderLine()];
    completed := true;
    ghost var done: seq<string> := [];
    var i := 0;
    while i < |fnames|
      invariant 0 <= i <= |fnames|
      invariant written == [HeaderLine()] + Lines(done, labels, analyze)
      invariant Run(fnames, eligible, analyze) ==
        Outcome(done + Run(fnames[i..], eligible, analyze).files, Run(fnames[i..], eligible, analyze).completed)
    {
      var fname := fnames[i];
      RunStep(fnames, i, eligible, analyze, done);
      if HasImageExtension(fname) {
        var imageId := ImageId(fname);
        var found := LabelFor(labels, imageId);
        if found.Some? {
          assert eligible(fname);
          var a := analyze(fname);
          if a.dom.Raised? {
            completed := false;
            return;
          }
          var line := WriteRow(imageId, found.value, a.color, a.shape, a.dom.colors);
          LinesAppend(done, fname, labels, analyze);
          AppendAssociative([HeaderLine()], Lines(done, labels, analyze), [line]);
          written := written + [line];
          done := done + [fname];
        } else {
          assert !eligible(fname);
        }
      } else {
        assert !eligible(fname);
      }
      i := i + 1;
    }
    assert fnames[i..] == [];
    assert done + [] == done;
  }
}
