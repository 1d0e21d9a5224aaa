// The OCR pipeline's own bookkeeping (ml/pipeline_processor.py): cutting each text line out of the
// scan, naming and storing the crops, and assembling the normalised result record of a scan.
module PipelineProcessor {
  import opened Wrappers
  import opened Text
  import opened OcrCoords
  import opened OcrRecords
  import opened StorageManager
  import TextConcatenator
  import opened NestedLoops

  /** image[min_y:max_y, min_x:max_x] */
  function Crop(img: Image, box: CropBox): (r: Image)
  {
    var rows := Slice(img, box.minY, box.maxY);
    seq(|rows|, i requires 0 <= i < |rows| => Slice(rows[i], box.minX, box.maxX))
  }

  // ---- _crop_image_region ----

  function MinOf(xs: seq<int>): (r: int)
    requires xs != []
    ensures r in xs && forall i :: 0 <= i < |xs| ==> r <= xs[i]
  {
    if |xs| == 1 then xs[0]
    else
      var m := MinOf(xs[..|xs| - 1]);
      assert forall i :: 0 <= i < |xs| - 1 ==> xs[..|xs| - 1][i] == xs[i];
      if xs[|xs| - 1] < m then xs[|xs| - 1] else m
  }

  function MaxOf(xs: seq<int>): (r: int)
    requires xs != []
    ensures r in xs && forall i :: 0 <= i < |xs| ==> xs[i] <= r
  {
    if |xs| == 1 then xs[0]
    else
      var m := MaxOf(xs[..|xs| - 1]);
      assert forall i :: 0 <= i < |xs| - 1 ==> xs[..|xs| - 1][i] == xs[i];
      if xs[|xs| - 1] > m then xs[|xs| - 1] else m
  }

  function Xs(pts: seq<Point>): (r: seq<int>)
    ensures |r| == |pts| && forall i :: 0 <= i < |pts| ==> r[i] == pts[i].x
  {
    seq(|pts|, i requires 0 <= i < |pts| => pts[i].x)
  }

  function Ys(pts: seq<Point>): (r: seq<int>)
    ensures |r| == |pts| && forall i :: 0 <= i < |pts| ==> r[i] == pts[i].y
  {
    seq(|pts|, i requires 0 <= i < |pts| => pts[i].y)
  }

  function Max(a: int, b: int): int { if a < b then b else a }

  function Min(a: int, b: int): int { if a < b then a else b }

  const CropPadding := 5

  /** The crop rectangle of a line's points: their bounding box clipped to the image, widened by 5 and clipped again. */
  function CropBoxOf(img: Image, coords: seq<Point>): (box: CropBox)
    requires coords != []
    ensures 0 <= box.minX && box.maxX <= Width(img) && 0 <= box.minY && box.maxY <= Height(img)
    ensures box.width == box.maxX - box.minX && box.height == box.maxY - box.minY && box.padding == CropPadding
  {
    var minX := Max(0, Max(0, MinOf(Xs(coords))) - CropPadding);
    var maxX := Min(Width(img), Min(Width(img), MaxOf(Xs(coords))) + CropPadding);
    var minY := Max(0, Max(0, MinOf(Ys(coords))) - CropPadding);
    var maxY := Min(Height(img), Min(Height(img), MaxOf(Ys(coords))) + CropPadding);
    CropBox(minX, maxX, minY, maxY, maxX - minX, maxY - minY, CropPadding)
  }

  /** _crop_image_region: the whole image and no rectangle for no points, else the cut-out and its rectangle. */
  function CropImageRegion(img: Image, coords: seq<Point>): (r: (Image, Option<CropBox>))
    ensures r.1.None? <==> coords == []
    ensures r.1.None? ==> r.0 == img
    ensures r.1.Some? ==> r.1.value == CropBoxOf(img, coords) && r.0 == Crop(img, r.1.value)
  {
    if coords == [] then (img, None)
    else
      var box := CropBoxOf(img, coords);
      (Crop(img, box), Some(box))
  }

  /** A point inside the image. */
  predicate Inside(img: Image, p: Point) { 0 <= p.x <= Width(img) && 0 <= p.y <= Height(img) }

  /** Points inside the image lie in their crop rectangle, which is not inverted. */
  lemma CropContainsPoints(img: Image, coords: seq<Point>)
    requires coords != [] && forall p <- coords :: Inside(img, p)
    ensures var box := CropBoxOf(img, coords);
      && box.minX <= box.maxX && box.minY <= box.maxY
      && forall p <- coords :: box.minX <= p.x <= box.maxX && box.minY <= p.y <= box.maxY
  {
    var xs, ys := Xs(coords), Ys(coords);
    forall p <- coords ensures p.x in xs && p.y in ys {
      var i :| 0 <= i < |coords| && coords[i] == p;
      assert xs[i] == p.x && ys[i] == p.y;
    }
    var q := coords[0];
    assert xs[0] == q.x && ys[0] == q.y;
  }

  /** For points inside a rectangular image the cut-out is crop_height rows of crop_width pixels. */
  lemma CropDimensions(img: Image, coords: seq<Point>)
    requires Rectangular(img) && coords != [] && forall p <- coords :: Inside(img, p)
    ensures var box := CropBoxOf(img, coords);
      var c := Crop(img, box);
      |c| == box.height && forall i :: 0 <= i < |c| ==> |c[i]| == box.width
  {
    CropContainsPoints(img, coords);
    var box := CropBoxOf(img, coords);
    var rows := Slice(img, box.minY, box.maxY);
    assert rows == img[box.minY..box.maxY];
    forall i | 0 <= i < |rows| ensures |Slice(rows[i], box.minX, box.maxX)| == box.width {
      assert |rows[i]| == Width(img);
    }
  }

  // ---- _calculate_region_coordinates ----

  /** The region rectangle: the union of the line crops widened by 10, clipped at 0 below only, and its corners. */
  datatype RegionBox = RegionBox(
    minX: int, maxX: int, minY: int, maxY: int, width: int, height: int, padding: int, totalLines: nat,
    topLeft: Point, topRight: Point, bottomLeft: Point, bottomRight: Point)

  const RegionPadding := 10

  /** The crop rectangles of the lines that have one, in line order. */
  function LineCrops(lines: seq<OcrLine>): (r: seq<CropBox>)
    ensures |r| <= |lines|
    ensures forall b <- r :: exists l <- lines :: l.crop == Some(b)
    ensures forall l <- lines :: l.crop.Some? ==> l.crop.value in r
  {
    if lines == [] then []
    else
      var pre := lines[..|lines| - 1];
      var last := lines[|lines| - 1];
      assert forall l <- pre :: l in lines;
      assert forall l <- lines :: l in pre || l == last;
      LineCrops(pre) + if last.crop.Some? then [last.crop.value] else []
  }

  function MinXs(bs: seq<CropBox>): (r: seq<int>)
    ensures |r| == |bs| && forall i :: 0 <= i < |bs| ==> r[i] == bs[i].minX
  {
    seq(|bs|, i requires 0 <= i < |bs| => bs[i].minX)
  }

  function MaxXs(bs: seq<CropBox>): (r: seq<int>)
    ensures |r| == |bs| && forall i :: 0 <= i < |bs| ==> r[i] == bs[i].maxX
  {
    seq(|bs|, i requires 0 <= i < |bs| => bs[i].maxX)
  }

  function MinYs(bs: seq<CropBox>): (r: seq<int>)
    ensures |r| == |bs| && forall i :: 0 <= i < |bs| ==> r[i] == bs[i].minY
  {
    seq(|bs|, i requires 0 <= i < |bs| => bs[i].minY)
  }

  function MaxYs(bs: seq<CropBox>): (r: seq<int>)
    ensures |r| == |bs| && forall i :: 0 <= i < |bs| ==> r[i] == bs[i].maxY
  {
    seq(|bs|, i requires 0 <= i < |bs| => bs[i].maxY)
  }

  /** _calculate_region_coordinates: {} (None) when no line has a crop rectangle. */
  function RegionCoordinates(lines: seq<OcrLine>): (r: Option<RegionBox>)
    ensures r.None? <==> forall l <- lines :: l.crop.None?
    ensures r.Some? ==> var b := r.value;
      && 0 <= b.minX && 0 <= b.minY && b.padding == RegionPadding
      && b.width == b.maxX - b.minX && b.height == b.maxY - b.minY
      && b.totalLines == |LineCrops(lines)| && 0 < b.totalLines <= |lines|
      && b.topLeft == Point(b.minX, b.minY) && b.topRight == Point(b.maxX, b.minY)
      && b.bottomLeft == Point(b.minX, b.maxY) && b.bottomRight == Point(b.maxX, b.maxY)
  {
    var crops := LineCrops(lines);
    if lines == [] || crops == [] then
      assert forall l <- lines :: l.crop.None?;
      None
    else
      var minX := Max(0, MinOf(MinXs(crops)) - RegionPadding);
      var maxX := MaxOf(MaxXs(crops)) + RegionPadding;
      var minY := Max(0, MinOf(MinYs(crops)) - RegionPadding);
      var maxY := MaxOf(MaxYs(crops)) + RegionPadding;
      assert exists l <- lines :: l.crop == Some(crops[0]);
      Some(RegionBox(minX, maxX, minY, maxY, maxX - minX, maxY - minY, RegionPadding, |crops|,
                     Point(minX, minY), Point(maxX, minY), Point(minX, maxY), Point(maxX, maxY)))
  }

  /** Each line's crop rectangle (clipped at 0, as _crop_image_region makes them) lies in the region rectangle, with 10 to spare at the top and right, and at the bottom and left unless clipped at 0. */
  lemma RegionContainsLines(lines: seq<OcrLine>)
    requires RegionCoordinates(lines).Some?
    requires forall l <- lines :: l.crop.Some? ==> 0 <= l.crop.value.minX && 0 <= l.crop.value.minY
    ensures var b := RegionCoordinates(lines).value;
      forall l <- lines :: l.crop.Some? ==>
        var c := l.crop.value;
        && b.minX <= c.minX && c.maxX + RegionPadding <= b.maxX && b.minY <= c.minY && c.maxY + RegionPadding <= b.maxY
        && (b.minX == 0 || b.minX + RegionPadding <= c.minX) && (b.minY == 0 || b.minY + RegionPadding <= c.minY)
  {
    var crops := LineCrops(lines);
    var b := RegionCoordinates(lines).value;
    var mnx, mxx, mny, mxy := MinXs(crops), MaxXs(crops), MinYs(crops), MaxYs(crops);
    assert b.minX == Max(0, MinOf(mnx) - RegionPadding) && b.maxX == MaxOf(mxx) + RegionPadding;
    assert b.minY == Max(0, MinOf(mny) - RegionPadding) && b.maxY == MaxOf(mxy) + RegionPadding;
    forall l <- lines | l.crop.Some?
      ensures var c := l.crop.value;
        && b.minX <= c.minX && c.maxX + RegionPadding <= b.maxX && b.minY <= c.minY && c.maxY + RegionPadding <= b.maxY
        && (b.minX == 0 || b.minX + RegionPadding <= c.minX) && (b.minY == 0 || b.minY + RegionPadding <= c.minY)
    {
      var i :| 0 <= i < |crops| && crops[i] == l.crop.value;
      assert mnx[i] == crops[i].minX && mxx[i] == crops[i].maxX;
      assert mny[i] == crops[i].minY && mxy[i] == crops[i].maxY;
    }
  }

  // ---- _extract_text_regions ----

  /** A TextLine of the layout: its id and the points of its Coords child (None without one, "" for a Coords without points). */
  datatype LayoutLine = LayoutLine(id: string, points: Option<string>)

  /** A TextRegion of the layout with its TextLines; absent id and type attributes read as "". */
  datatype LayoutRegion = LayoutRegion(id: string, regionType: string, lines: seq<LayoutLine>)

  /** f"{region_idx:03d}_{line_idx:03d}": the region id a line's crop is saved under. */
  function LineCropId(r: nat, l: nat): string { Pad3(r) + "_" + Pad3(l) }

  /** A line record together with the file its crop went to and the crop itself. */
  datatype LineCrop = LineCrop(line: OcrLine, file: string, image: Image)

  /** A region of the result with the crops of its lines. */
  datatype ExtractedRegion = ExtractedRegion(id: string, regionType: string, crops: seq<LineCrop>)

  /** A loop over xs whose body may raise: step gets the accumulator, the index and the item. */
  function Fold<S, X>(step: (S, nat, X) -> Result<S, string>, init: S, xs: seq<X>): Result<S, string>
  {
    if xs == [] then Ok(init)
    else
      var prev := Fold(step, init, xs[..|xs| - 1]);
      if prev.Err? then prev else step(prev.value, |xs| - 1, xs[|xs| - 1])
  }

  lemma FoldStep<S, X>(step: (S, nat, X) -> Result<S, string>, init: S, xs: seq<X>, i: nat)
    requires i < |xs| && Fold(step, init, xs[..i]).Ok?
    ensures Fold(step, init, xs[..i + 1]) == step(Fold(step, init, xs[..i]).value, i, xs[i])
  {
    assert xs[..i + 1][..i] == xs[..i];
  }

  /** Once the body has raised, the later items do not matter. */
  lemma {:induction false} FoldFails<S, X>(step: (S, nat, X) -> Result<S, string>, init: S, xs: seq<X>, k: nat)
    requires k <= |xs| && Fold(step, init, xs[..k]).Err?
    ensures Fold(step, init, xs) == Fold(step, init, xs[..k])
    decreases |xs| - k
  {
    if k < |xs| {
      assert xs[..k + 1][..k] == xs[..k];
      FoldFails(step, init, xs, k + 1);
    } else {
      assert xs[..k] == xs;
    }
  }

  /** The record of line l of region r: its crop saved under the region and line numbers, not yet read. */
  function MakeLineCrop(img: Image, scanId: string, basePath: string, r: nat, l: nat, id: string, points: string, coords: seq<Point>): LineCrop
  {
    var (crop, box) := CropImageRegion(img, coords);
    var file := CropName(scanId, LineCropId(r, l));
    LineCrop(OcrLine(id, points, box, StoredPath(basePath, "cropped_images", file), None, None), file, crop)
  }

  /** The body of the loop over the TextLines of region r: a line without Coords is skipped, bad points raise. */
  function AddLine(img: Image, scanId: string, basePath: string, r: nat, acc: seq<LineCrop>, l: nat, line: LayoutLine): Result<seq<LineCrop>, string>
  {
    if line.points.None? then Ok(acc)
    else
      match Coordinates(line.points.value)
      case Err(e) => Err(e)
      case Ok(coords) => Ok(acc + [MakeLineCrop(img, scanId, basePath, r, l, line.id, line.points.value, coords)])
  }

  function LineStep(img: Image, scanId: string, basePath: string, r: nat): (seq<LineCrop>, nat, LayoutLine) -> Result<seq<LineCrop>, string>
  {
    (acc: seq<LineCrop>, l: nat, line: LayoutLine) => AddLine(img, scanId, basePath, r, acc, l, line)
  }

  /** The lines of region r with their crops, or the error raised. */
  function RegionLines(img: Image, scanId: string, basePath: string, r: nat, lines: seq<LayoutLine>): Result<seq<LineCrop>, string>
  {
    Fold(LineStep(img, scanId, basePath, r), [], lines)
  }

  /** The body of the loop over the TextRegions of a page: region r with its lines. */
  function AddRegion(img: Image, scanId: string, basePath: string, acc: seq<ExtractedRegion>, r: nat, region: LayoutRegion): Result<seq<ExtractedRegion>, string>
  {
    match RegionLines(img, scanId, basePath, r, region.lines)
    case Err(e) => Err(e)
    case Ok(cs) => Ok(acc + [ExtractedRegion(region.id, region.regionType, cs)])
  }

  function RegionStep(img: Image, scanId: string, basePath: string): (seq<ExtractedRegion>, nat, LayoutRegion) -> Result<seq<ExtractedRegion>, string>
  {
    (acc: seq<ExtractedRegion>, r: nat, region: LayoutRegion) => AddRegion(img, scanId, basePath, acc, r, region)
  }

  /** The body of the loop over the Pages: region numbers restart at 0 on every page. */
  function PageStep(img: Image, scanId: string, basePath: string): (seq<ExtractedRegion>, nat, seq<LayoutRegion>) -> Result<seq<ExtractedRegion>, string>
  {
    (acc: seq<ExtractedRegion>, p: nat, page: seq<LayoutRegion>) => Fold(RegionStep(img, scanId, basePath), acc, page)
  }

  /** What _extract_text_regions returns or raises, with the crops it saved. */
  function Extraction(img: Image, scanId: string, basePath: string, pages: seq<seq<LayoutRegion>>): Result<seq<ExtractedRegion>, string>
  {
    Fold(PageStep(img, scanId, basePath), [], pages)
  }

  function LinesOf(cs: seq<LineCrop>): (r: seq<OcrLine>)
    ensures |r| == |cs| && forall i :: 0 <= i < |cs| ==> r[i] == cs[i].line
  {
    seq(|cs|, i requires 0 <= i < |cs| => cs[i].line)
  }

  /** The region records _extract_text_regions returns. */
  function OcrRegions(es: seq<ExtractedRegion>): (r: seq<OcrRegion>)
    ensures |r| == |es|
    ensures forall i :: 0 <= i < |es| ==> r[i] == OcrRegion(es[i].id, es[i].regionType, LinesOf(es[i].crops))
  {
    seq(|es|, i requires 0 <= i < |es| => OcrRegion(es[i].id, es[i].regionType, LinesOf(es[i].crops)))
  }

  /** The crop directory after the crops have been written in turn. */
  function Written(m: map<string, Image>, cs: seq<LineCrop>): map<string, Image>
  {
    if cs == [] then m else Written(m, cs[..|cs| - 1])[cs[|cs| - 1].file := cs[|cs| - 1].image]
  }

  function WrittenRegions(m: map<string, Image>, es: seq<ExtractedRegion>): map<string, Image>
  {
    if es == [] then m else Written(WrittenRegions(m, es[..|es| - 1]), es[|es| - 1].crops)
  }

  lemma WrittenSnoc(m: map<string, Image>, cs: seq<LineCrop>, c: LineCrop)
    ensures Written(m, cs + [c]) == Written(m, cs)[c.file := c.image]
  {
    assert (cs + [c])[..|cs|] == cs;
  }

  lemma WrittenRegionsSnoc(m: map<string, Image>, es: seq<ExtractedRegion>, e: ExtractedRegion)
    ensures WrittenRegions(m, es + [e]) == Written(WrittenRegions(m, es), e.crops)
  {
    assert (es + [e])[..|es|] == es;
  }

  /** The loop over the TextLines of region r: crops each line with Coords and saves the crop. */
  method ExtractRegion(sm: LocalStorageManager, img: Image, scanId: string, r: nat, lines: seq<LayoutLine>) returns (res: Result<seq<LineCrop>, string>)
    modifies sm
    ensures res == RegionLines(img, scanId, sm.basePath, r, lines)
    ensures res.Ok? ==> sm.croppedImages == Written(old(sm.croppedImages), res.value)
    ensures sm.inputScans == old(sm.inputScans) && sm.results == old(sm.results)
    ensures sm.xmlIntermediate == old(sm.xmlIntermediate) && sm.logs == old(sm.logs)
  {
    var step := LineStep(img, scanId, sm.basePath, r);
    var acc: seq<LineCrop> := [];
    for l := 0 to |lines|
      invariant Fold(step, [], lines[..l]) == Ok(acc)
      invariant sm.croppedImages == Written(old(sm.croppedImages), acc)
      invariant sm.inputScans == old(sm.inputScans) && sm.results == old(sm.results)
      invariant sm.xmlIntermediate == old(sm.xmlIntermediate) && sm.logs == old(sm.logs)
    {
      FoldStep(step, [], lines, l);
      var line := lines[l];
      if line.points.Some? {
        var coords := ParseCoordinates(line.points.value);
        if coords.Err? {
          FoldFails(step, [], lines, l + 1);
          assert lines[..|lines|] == lines;
          return Err(coords.error);
        }
        var (crop, box) := CropImageRegion(img, coords.value);
        var path := sm.SaveCroppedImage(crop, scanId, LineCropId(r, l));
        var c := LineCrop(OcrLine(line.id, line.points.value, box, path, None, None), CropName(scanId, LineCropId(r, l)), crop);
        assert c == MakeLineCrop(img, scanId, sm.basePath, r, l, line.id, line.points.value, coords.value);
        WrittenSnoc(old(sm.croppedImages), acc, c);
        acc := acc + [c];
      }
    }
    assert lines[..|lines|] == lines;
    res := Ok(acc);
  }

  /** The loop over the TextRegions of one page, numbered from 0, after the regions acc0 of earlier pages. */
  method ExtractPage(sm: LocalStorageManager, img: Image, scanId: string, acc0: seq<ExtractedRegion>, page: seq<LayoutRegion>, ghost m0: map<string, Image>)
      returns (res: Result<seq<ExtractedRegion>, string>)
    modifies sm
    requires sm.croppedImages == WrittenRegions(m0, acc0)
    ensures res == Fold(RegionStep(img, scanId, sm.basePath), acc0, page)
    ensures res.Ok? ==> sm.croppedImages == WrittenRegions(m0, res.value)
    ensures sm.inputScans == old(sm.inputScans) && sm.results == old(sm.results)
    ensures sm.xmlIntermediate == old(sm.xmlIntermediate) && sm.logs == old(sm.logs)
  {
    var step := RegionStep(img, scanId, sm.basePath);
    var acc := acc0;
    for r := 0 to |page|
      invariant Fold(step, acc0, page[..r]) == Ok(acc)
      invariant sm.croppedImages == WrittenRegions(m0, acc)
      invariant sm.inputScans == old(sm.inputScans) && sm.results == old(sm.results)
      invariant sm.xmlIntermediate == old(sm.xmlIntermediate) && sm.logs == old(sm.logs)
    {
      FoldStep(step, acc0, page, r);
      var region := page[r];
      var lines := ExtractRegion(sm, img, scanId, r, region.lines);
      if lines.Err? {
        FoldFails(step, acc0, page, r + 1);
        assert page[..|page|] == page;
        return Err(lines.error);
      }
      var e := ExtractedRegion(region.id, region.regionType, lines.value);
      WrittenRegionsSnoc(m0, acc, e);
      acc := acc + [e];
    }
    assert page[..|page|] == page;
    res := Ok(acc);
  }

  /** _extract_text_regions on the parsed layout: the regions of every page in turn, each line's crop saved. */
  method ExtractTextRegions(sm: LocalStorageManager, img: Image, scanId: string, pages: seq<seq<LayoutRegion>>)
      returns (res: Result<seq<OcrRegion>, string>)
    modifies sm
    ensures var x := Extraction(img, scanId, sm.basePath, pages);
      && (res.Ok? <==> x.Ok?)
      && (res.Ok? ==> res.value == OcrRegions(x.value) && sm.croppedImages == WrittenRegions(old(sm.croppedImages), x.value))
      && (res.Err? ==> res == Err(x.error))
    ensures sm.inputScans == old(sm.inputScans) && sm.results == old(sm.results)
    ensures sm.xmlIntermediate == old(sm.xmlIntermediate) && sm.logs == old(sm.logs)
  {
    ghost var m0 := sm.croppedImages;
    var step := PageStep(img, scanId, sm.basePath);
    var acc: seq<ExtractedRegion> := [];
    for p := 0 to |pages|
      invariant Fold(step, [], pages[..p]) == Ok(acc)
      invariant sm.croppedImages == WrittenRegions(m0, acc)
      invariant sm.inputScans == old(sm.inputScans) && sm.results == old(sm.results)
      invariant sm.xmlIntermediate == old(sm.xmlIntermediate) && sm.logs == old(sm.logs)
    {
      FoldStep(step, [], pages, p);
      var next := ExtractPage(sm, img, scanId, acc, pages[p], m0);
      if next.Err? {
        FoldFails(step, [], pages, p + 1);
        assert pages[..|pages|] == pages;
        return Err(next.error);
      }
      acc := next.value;
    }
    assert pages[..|pages|] == pages;
    res := Ok(OcrRegions(acc));
  }

  // ---- what the extraction promises ----

  /** Distinct region and line numbers give distinct crop files for the same scan. */
  lemma CropFileInjective(scanId: string, r: nat, l: nat, r': nat, l': nat)
    requires CropName(scanId, LineCropId(r, l)) == CropName(scanId, LineCropId(r', l'))
    ensures r == r' && l == l'
  {
    var a, b := LineCropId(r, l), LineCropId(r', l');
    LineCropIdNormalized(r, l);
    LineCropIdNormalized(r', l');
    CropNameRegionInjective(scanId, a, b);
    LineCropIdInjective(r, l, r', l');
  }

  /** For region ids already normalised, the crop file determines the region id. */
  lemma CropNameRegionInjective(scanId: string, a: string, b: string)
    requires Normalized(a) == a && Normalized(b) == b && CropName(scanId, a) == CropName(scanId, b)
    ensures a == b
  {
    var pre := Normalized(scanId) + "_region_";
    var n := CropName(scanId, a);
    assert n == pre + a + ".jpg" && CropName(scanId, b) == pre + b + ".jpg";
    assert a == n[|pre|..|pre| + |a|];
    assert b == n[|pre|..|pre| + |b|];
  }

  /** A region id made of digits and an underscore is left as it is by the normalisation of save_cropped_image. */
  lemma LineCropIdNormalized(r: nat, l: nat)
    ensures Normalized(LineCropId(r, l)) == LineCropId(r, l)
  {
    var a, pr, pl := LineCropId(r, l), Pad3(r), Pad3(l);
    forall i | 0 <= i < |a| ensures a[i] == '_' || IsDigit(a[i]) {
      if i < |pr| { assert a[i] == pr[i]; } else if i > |pr| { assert a[i] == pl[i - |pr| - 1]; }
    }
    NormalizedPlain(a);
  }

  lemma LineCropIdInjective(r: nat, l: nat, r': nat, l': nat)
    requires LineCropId(r, l) == LineCropId(r', l')
    ensures r == r' && l == l'
  {
    var pr, pl, pr', pl' := Pad3(r), Pad3(l), Pad3(r'), Pad3(l');
    assert '_' !in pl && '_' !in pl';
    TailAfterSeparator(pr, pl, pr', pl', '_');
    var a := LineCropId(r, l);
    assert pr == a[..|pr|] && pr' == a[..|pr'|];
    Pad3Injective(l, l');
    Pad3Injective(r, r');
  }

  /** The record the loop makes for line l of region r, when the line has well-formed Coords. */
  function LineRecord(img: Image, scanId: string, basePath: string, r: nat, l: nat, line: LayoutLine): (c: LineCrop)
    ensures c.file == CropName(scanId, LineCropId(r, l))
  {
    var coords := if line.points.Some? then Coordinates(line.points.value) else Ok([]);
    MakeLineCrop(img, scanId, basePath, r, l, line.id, if line.points.Some? then line.points.value else "",
                 if coords.Ok? then coords.value else [])
  }

  /** One turn of such a loop, read off its description. */
  lemma StepKeeps<T, X>(step: (seq<T>, nat, X) -> Result<seq<T>, string>, keep: X -> bool, make: (nat, X) -> T,
                        acc: seq<T>, l: nat, x: X)
    requires forall acc, l, x :: step(acc, l, x).Ok? ==> step(acc, l, x).value == if keep(x) then acc + [make(l, x)] else acc
    requires step(acc, l, x).Ok?
    ensures step(acc, l, x).value == if keep(x) then acc + [make(l, x)] else acc
  {
  }

  /** The shape of a loop whose turns keep, in order, one item made from each element that keep admits. */
  lemma {:induction false} FoldFilterMap<T, X>(step: (seq<T>, nat, X) -> Result<seq<T>, string>, xs: seq<X>, keep: X -> bool, make: (nat, X) -> T)
      returns (idx: seq<nat>)
    requires Fold(step, [], xs).Ok?
    requires forall acc, l, x :: step(acc, l, x).Ok? ==> step(acc, l, x).value == if keep(x) then acc + [make(l, x)] else acc
    ensures var ys := Fold(step, [], xs).value;
      && |idx| == |ys|
      && (forall k :: 0 <= k < |idx| ==> idx[k] < |xs| && keep(xs[idx[k]]) && ys[k] == make(idx[k], xs[idx[k]]))
      && (forall k, k' :: 0 <= k < k' < |idx| ==> idx[k] < idx[k'])
      && (forall l :: 0 <= l < |xs| && keep(xs[l]) ==> l in idx)
  {
    if xs == [] {
      idx := [];
    } else {
      var n: nat := |xs| - 1;
      var pre := xs[..n];
      assert Fold(step, [], pre).Ok?;
      var ys0 := Fold(step, [], pre).value;
      assert Fold(step, [], xs) == step(ys0, n, xs[n]);
      assert step(ys0, n, xs[n]).Ok?;
      var ys := step(ys0, n, xs[n]).value;
      StepKeeps(step, keep, make, ys0, n, xs[n]);
      idx := FoldFilterMap(step, pre, keep, make);
      assert forall l :: 0 <= l < n ==> xs[l] == pre[l];
      if keep(xs[n]) {
        idx := idx + [n];
      }
    }
  }

  /**
   * The lines of a region that come out: exactly those with a Coords child, in order, line l of
   * region r with its points, its crop and its crop file named after r and l.
   */
  lemma RegionLinesShape(img: Image, scanId: string, basePath: string, r: nat, lines: seq<LayoutLine>)
      returns (idx: seq<nat>)
    requires RegionLines(img, scanId, basePath, r, lines).Ok?
    ensures var cs := RegionLines(img, scanId, basePath, r, lines).value;
      && |idx| == |cs|
      && (forall k :: 0 <= k < |idx| ==> idx[k] < |lines| && lines[idx[k]].points.Some?)
      && (forall k, k' :: 0 <= k < k' < |idx| ==> idx[k] < idx[k'])
      && (forall l :: 0 <= l < |lines| && lines[l].points.Some? ==> l in idx)
      && (forall k :: 0 <= k < |idx| ==> cs[k] == LineRecord(img, scanId, basePath, r, idx[k], lines[idx[k]]))
  {
    var step := LineStep(img, scanId, basePath, r);
    var keep := (line: LayoutLine) => line.points.Some?;
    var make := (l: nat, line: LayoutLine) => LineRecord(img, scanId, basePath, r, l, line);
    forall acc, l, x | step(acc, l, x).Ok?
      ensures step(acc, l, x).value == if keep(x) then acc + [make(l, x)] else acc
    {
      AddLineOk(img, scanId, basePath, r, acc, l, x);
    }
    idx := FoldFilterMap(step, lines, keep, make);
  }

  /** A turn that did not raise adds the line's record exactly when the line has Coords. */
  lemma AddLineOk(img: Image, scanId: string, basePath: string, r: nat, acc: seq<LineCrop>, l: nat, line: LayoutLine)
    requires AddLine(img, scanId, basePath, r, acc, l, line).Ok?
    ensures var res := AddLine(img, scanId, basePath, r, acc, l, line).value;
      && (line.points.None? ==> res == acc)
      && (line.points.Some? ==>
            && Coordinates(line.points.value).Ok?
            && res == acc + [MakeLineCrop(img, scanId, basePath, r, l, line.id, line.points.value, Coordinates(line.points.value).value)])
  {
  }

  /** A region's lines are all extracted exactly when every line with Coords has well-formed points. */
  lemma {:induction false} RegionLinesOk(img: Image, scanId: string, basePath: string, r: nat, lines: seq<LayoutLine>)
    ensures RegionLines(img, scanId, basePath, r, lines).Ok? <==>
      forall l :: 0 <= l < |lines| && lines[l].points.Some? ==> Coordinates(lines[l].points.value).Ok?
  {
    if lines != [] {
      var pre := lines[..|lines| - 1];
      RegionLinesOk(img, scanId, basePath, r, pre);
      assert forall l :: 0 <= l < |pre| ==> pre[l] == lines[l];
    }
  }

  /** No crop of a region overwrites another: their files are pairwise distinct. */
  lemma RegionCropsDistinct(img: Image, scanId: string, basePath: string, r: nat, lines: seq<LayoutLine>)
    requires RegionLines(img, scanId, basePath, r, lines).Ok?
    ensures var cs := RegionLines(img, scanId, basePath, r, lines).value;
      forall k, k' :: 0 <= k < k' < |cs| ==> cs[k].file != cs[k'].file
  {
    var idx := RegionLinesShape(img, scanId, basePath, r, lines);
    var cs := RegionLines(img, scanId, basePath, r, lines).value;
    forall k, k' | 0 <= k < k' < |cs| ensures cs[k].file != cs[k'].file {
      assert cs[k].file == CropName(scanId, LineCropId(r, idx[k]));
      assert cs[k'].file == CropName(scanId, LineCropId(r, idx[k']));
      if cs[k].file == cs[k'].file {
        CropFileInjective(scanId, r, idx[k], r, idx[k']);
      }
    }
  }

  // ---- _combine_results ----

  /** The scan entry of the result; the image dimensions are (0, 0) when cv2.imread gives None. */
  datatype ScanInfo = ScanInfo(
    id: string, imagePath: string, localPath: string, width: nat, height: nat, processingTimestamp: string)

  /** One entry of a region's lines: the crop fields default to 0 for a line without a crop rectangle. */
  datatype LineOut = LineOut(
    id: string, index: nat, text: string, confidence: real, original: string, crop: CropBox,
    filename: string, path: string)

  datatype RegionOut = RegionOut(
    id: string, regionType: string, index: nat, concatenatedText: string, coordinates: Option<RegionBox>,
    lineBreaksHandled: nat, mergedWords: nat, totalLines: nat, lines: seq<LineOut>)

  /** One entry of cropped_images, made for a line with a crop rectangle. */
  datatype CroppedImage = CroppedImage(
    filename: string, regionId: string, lineId: string,
    minX: int, maxX: int, minY: int, maxY: int, width: int, height: int)

  datatype Combined = Combined(scan: ScanInfo, regions: seq<RegionOut>, croppedImages: seq<CroppedImage>)

  /** local_path: the scan under the default base path, with the scan id as given. */
  function LocalPath(scanId: string): string { "local_storage/input_scans/" + scanId + ".jpg" }

  /** region_{r:03d}_{l:03d}.jpg */
  function LineFileName(r: nat, l: nat): string { "region_" + LineCropId(r, l) + ".jpg" }

  function CropOrZero(line: OcrLine): CropBox
  {
    if line.crop.Some? then line.crop.value else CropBox(0, 0, 0, 0, 0, 0, 0)
  }

  function ConfidenceOr(line: OcrLine): real
  {
    if line.confidence.Some? then line.confidence.value else 0.0
  }

  /** The entry for line l of region r. */
  function LineOutOf(r: nat, l: nat, line: OcrLine): LineOut
  {
    LineOut(line.lineId, l, TextOr(line), ConfidenceOr(line), line.coordinates, CropOrZero(line),
            LineFileName(r, l), line.croppedPath)
  }

  /** The entry for region r: its text and counts from concatenated_regions[r] when there is one. */
  function RegionOutOf(r: nat, region: OcrRegion, concat: seq<TextConcatenator.ConcatRegion>): RegionOut
  {
    var text := if r < |concat| then concat[r].concatenatedText else "";
    var breaks := if r < |concat| then concat[r].lineBreaksHandled else 0;
    var merged := if r < |concat| then concat[r].mergedWords else 0;
    RegionOut(region.regionId, region.regionType, r, text, RegionCoordinates(region.lines), breaks, merged,
              |region.lines|, LinesOut(r, region.lines))
  }

  function LinesOut(r: nat, lines: seq<OcrLine>): (out: seq<LineOut>)
    ensures |out| == |lines| && forall l :: 0 <= l < |lines| ==> out[l] == LineOutOf(r, l, lines[l])
  {
    MapIndexed(LineBuilder(r), lines)
  }

  function LineBuilder(r: nat): (nat, OcrLine) -> LineOut { (l: nat, line: OcrLine) => LineOutOf(r, l, line) }

  /** The cropped_images entry for line l of region r (made only for lines with a crop rectangle). */
  function CroppedOf(r: nat, region: OcrRegion, l: nat, line: OcrLine): CroppedImage
  {
    var c := CropOrZero(line);
    CroppedImage(LineFileName(r, l), region.regionId, line.lineId, c.minX, c.maxX, c.minY, c.maxY, c.width, c.height)
  }

  predicate HasCrop(line: OcrLine) { line.crop.Some? }

  function LinesOfRegion(region: OcrRegion): seq<OcrLine> { region.lines }

  /** The cropped_images entries of region r, in line order. */
  function CroppedLines(r: nat, region: OcrRegion): seq<CroppedImage>
  {
    Picked(HasCrop, CroppedOf, r, region, region.lines)
  }

  /** The cropped_images entries of all regions, region by region. */
  function CroppedRegions(ocr: seq<OcrRegion>): seq<CroppedImage>
  {
    PickedAll(LinesOfRegion, HasCrop, CroppedOf, ocr)
  }

  /** The whole result; image is what cv2.imread returns and timestamp what _get_timestamp returns. */
  function Combine(scanId: string, imagePath: string, image: Option<Image>, ocr: seq<OcrRegion>,
                   concat: seq<TextConcatenator.ConcatRegion>, timestamp: string): Combined
  {
    var width := if image.Some? then Width(image.value) else 0;
    var height := if image.Some? then Height(image.value) else 0;
    Combined(ScanInfo(scanId, imagePath, LocalPath(scanId), width, height, timestamp),
             RegionsOut(ocr, concat), CroppedRegions(ocr))
  }

  function RegionsOut(ocr: seq<OcrRegion>, concat: seq<TextConcatenator.ConcatRegion>): (out: seq<RegionOut>)
    ensures |out| == |ocr| && forall r :: 0 <= r < |ocr| ==> out[r] == RegionOutOf(r, ocr[r], concat)
  {
    MapIndexed(RegionBuilder(concat), ocr)
  }

  function RegionBuilder(concat: seq<TextConcatenator.ConcatRegion>): (nat, OcrRegion) -> RegionOut
  {
    (r: nat, region: OcrRegion) => RegionOutOf(r, region, concat)
  }

  /** One turn of the outer loop of _combine_results: region r's entry and its cropped_images entries. */
  method CombineRegion(r: nat, region: OcrRegion, concat: seq<TextConcatenator.ConcatRegion>)
      returns (out: RegionOut, cropped: seq<CroppedImage>)
    ensures out == RegionOutOf(r, region, concat)
    ensures cropped == CroppedLines(r, region)
  {
    var text, breaks, merged := "", 0, 0;
    if r < |concat| {
      text, breaks, merged := concat[r].concatenatedText, concat[r].lineBreaksHandled, concat[r].mergedWords;
    }
    var lines: seq<LineOut> := [];
    cropped := [];
    for l := 0 to |region.lines|
      invariant lines == LinesOut(r, region.lines[..l])
      invariant cropped == Picked(HasCrop, CroppedOf, r, region, region.lines[..l])
    {
      var line := region.lines[l];
      MapIndexedSnoc(LineBuilder(r), region.lines, l);
      PickedSnoc(HasCrop, CroppedOf, r, region, region.lines, l);
      lines := lines + [LineOutOf(r, l, line)];
      if line.crop.Some? {
        cropped := cropped + [CroppedOf(r, region, l, line)];
      }
    }
    assert region.lines[..|region.lines|] == region.lines;
    out := RegionOut(region.regionId, region.regionType, r, text, RegionCoordinates(region.lines),
                     breaks, merged, |region.lines|, lines);
  }

  /** _combine_results: the regions in order, each with its lines in order, and the cropped_images list. */
  method CombineResults(scanId: string, imagePath: string, image: Option<Image>, ocr: seq<OcrRegion>,
                        concat: seq<TextConcatenator.ConcatRegion>, timestamp: string) returns (res: Combined)
    ensures res == Combine(scanId, imagePath, image, ocr, concat, timestamp)
  {
    var width, height := 0, 0;
    if image.Some? {
      width, height := Width(image.value), Height(image.value);
    }
    var regions: seq<RegionOut> := [];
    var cropped: seq<CroppedImage> := [];
    for r := 0 to |ocr|
      invariant regions == RegionsOut(ocr[..r], concat)
      invariant cropped == PickedAll(LinesOfRegion, HasCrop, CroppedOf, ocr[..r])
    {
      var out, crops := CombineRegion(r, ocr[r], concat);
      MapIndexedSnoc(RegionBuilder(concat), ocr, r);
      PickedAllSnoc(LinesOfRegion, HasCrop, CroppedOf, ocr, r);
      regions := regions + [out];
      cropped := cropped + crops;
    }
    assert ocr[..|ocr|] == ocr;
    res := Combined(ScanInfo(scanId, imagePath, LocalPath(scanId), width, height, timestamp), regions, cropped);
  }

  // ---- what the combined result promises ----

  /**
   * One region entry per OCR region, at its own position, whose text and counts come from the
   * concatenation entry at that position when there is one; its lines keep their original order.
   */
  lemma CombinedRegions(scanId: string, imagePath: string, image: Option<Image>, ocr: seq<OcrRegion>,
                        concat: seq<TextConcatenator.ConcatRegion>, timestamp: string)
    ensures var res := Combine(scanId, imagePath, image, ocr, concat, timestamp);
      && |res.regions| == |ocr|
      && forall r :: 0 <= r < |ocr| ==>
        var out := res.regions[r];
        && out.index == r && out.id == ocr[r].regionId && out.regionType == ocr[r].regionType
        && (r < |concat| ==> out.concatenatedText == concat[r].concatenatedText)
        && (r >= |concat| ==> out.concatenatedText == "" && out.lineBreaksHandled == 0 && out.mergedWords == 0)
        && out.coordinates == RegionCoordinates(ocr[r].lines)
        && out.totalLines == |out.lines| == |ocr[r].lines|
        && forall l :: 0 <= l < |ocr[r].lines| ==>
          && out.lines[l].id == ocr[r].lines[l].lineId && out.lines[l].index == l
          && out.lines[l].text == TextOr(ocr[r].lines[l])
          && out.lines[l].filename == LineFileName(r, l)
  {
  }

  /**
   * local_path names the file save_input_scan wrote under the default base path exactly when the
   * scan id is already normalised (no spaces, no capitals).
   */
  lemma LocalPathIsSavedScan(scanId: string)
    ensures LocalPath(scanId) == StoredPath("local_storage", "input_scans", InputScanName(scanId)) <==> Normalized(scanId) == scanId
  {
    var dir := "local_storage/input_scans/";
    var stored := StoredPath("local_storage", "input_scans", InputScanName(scanId));
    assert stored == dir + InputScanName(scanId);
    assert LocalPath(scanId) == dir + InputScanLookupName(scanId);
    InputNamesMeetIff(scanId);
    if LocalPath(scanId) == stored {
      assert InputScanLookupName(scanId) == LocalPath(scanId)[|dir|..];
      assert InputScanName(scanId) == stored[|dir|..];
    }
  }

  /**
   * The cropped_images list: one entry per line with a crop rectangle, in (region, line) order, each
   * made from that line and named after its region and line numbers.
   */
  lemma CroppedImagesIndexed(ocr: seq<OcrRegion>) returns (pos: seq<(nat, nat)>)
    ensures var cs := CroppedRegions(ocr);
      && |pos| == |cs|
      && (forall k :: 0 <= k < |pos| ==>
            && pos[k].0 < |ocr| && pos[k].1 < |ocr[pos[k].0].lines| && ocr[pos[k].0].lines[pos[k].1].crop.Some?
            && cs[k] == CroppedOf(pos[k].0, ocr[pos[k].0], pos[k].1, ocr[pos[k].0].lines[pos[k].1]))
      && (forall k, k' :: 0 <= k < k' < |pos| ==> Before(pos[k], pos[k']))
      && (forall r, l :: 0 <= r < |ocr| && 0 <= l < |ocr[r].lines| && ocr[r].lines[l].crop.Some? ==> (r, l) in pos)
  {
    pos := PickedAllIndexed(LinesOfRegion, HasCrop, CroppedOf, ocr);
  }

  lemma LineFileNameInjective(r: nat, l: nat, r': nat, l': nat)
    requires LineFileName(r, l) == LineFileName(r', l')
    ensures r == r' && l == l'
  {
    var a, b := LineCropId(r, l), LineCropId(r', l');
    var f := LineFileName(r, l);
    assert f == "region_" + a + ".jpg" && LineFileName(r', l') == "region_" + b + ".jpg";
    assert |a| == |b|;
    assert a == f[7..7 + |a|] && b == f[7..7 + |b|];
    LineCropIdInjective(r, l, r', l');
  }

  /** No two cropped_images entries share a file name. */
  lemma CroppedFilenamesDistinct(ocr: seq<OcrRegion>)
    ensures var cs := CroppedRegions(ocr);
      forall k, k' :: 0 <= k < k' < |cs| ==> cs[k].filename != cs[k'].filename
  {
    var pos := CroppedImagesIndexed(ocr);
    var cs := CroppedRegions(ocr);
    forall k, k' | 0 <= k < k' < |cs| ensures cs[k].filename != cs[k'].filename {
      assert cs[k].filename == LineFileName(pos[k].0, pos[k].1);
      assert cs[k'].filename == LineFileName(pos[k'].0, pos[k'].1);
      if cs[k].filename == cs[k'].filename {
        LineFileNameInjective(pos[k].0, pos[k].1, pos[k'].0, pos[k'].1);
      }
    }
  }

}
