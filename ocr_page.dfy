// ml/ocr_page.py: cutting every text line of a PAGE document out of its page image, handing the
// crops to the recogniser, and writing each recognised text back under its line as a TextEquiv.
module OcrPage {
  import opened Wrappers
  import opened Text
  import opened OcrCoords
  import opened OcrRecords
  import opened NestedLoops

  // ---- rectangles and crops ----

  /** (min_x, min_y, max_x, max_y), the corners included. */
  datatype Rect = Rect(minX: int, minY: int, maxX: int, maxY: int)

  /** extend_rectangle: widened by pitch on every side and clipped to the pixels of the image. */
  function ExtendRectangle(r: Rect, pitch: int, width: int, height: int): (e: Rect)
    ensures 0 <= e.minX && 0 <= e.minY && e.maxX <= width - 1 && e.maxY <= height - 1
  {
    Rect(if r.minX - pitch < 0 then 0 else r.minX - pitch,
         if r.minY - pitch < 0 then 0 else r.minY - pitch,
         if width - 1 < r.maxX + pitch then width - 1 else r.maxX + pitch,
         if height - 1 < r.maxY + pitch then height - 1 else r.maxY + pitch)
  }

  /** A rectangle inside the image stays inside its widening, which moves each side by pitch unless clipped. */
  lemma ExtendContains(r: Rect, pitch: nat, width: int, height: int)
    requires 0 <= r.minX && 0 <= r.minY && r.maxX <= width - 1 && r.maxY <= height - 1
    ensures var e := ExtendRectangle(r, pitch, width, height);
      && e.minX <= r.minX && e.minY <= r.minY && r.maxX <= e.maxX && r.maxY <= e.maxY
      && (e.minX == 0 || e.minX == r.minX - pitch) && (e.minY == 0 || e.minY == r.minY - pitch)
      && (e.maxX == width - 1 || e.maxX == r.maxX + pitch) && (e.maxY == height - 1 || e.maxY == r.maxY + pitch)
  {
  }

  /** crop_image_by_rectangle_shape: image[top_y:bottom_y + 1, top_x:bottom_x + 1]. */
  function CropByRectangle(img: Image, rect: Rect): Image
  {
    var rows := Slice(img, rect.minY, rect.maxY + 1);
    seq(|rows|, i requires 0 <= i < |rows| => Slice(rows[i], rect.minX, rect.maxX + 1))
  }

  /** Both bounds are inclusive: the crop has bottom - top + 1 rows of right - left + 1 pixels, taken from the rectangle. */
  lemma {:induction false} CropByRectangleShape(img: Image, rect: Rect)
    requires Rectangular(img)
    requires 0 <= rect.minX <= rect.maxX < Width(img) && 0 <= rect.minY <= rect.maxY < Height(img)
    ensures var c := CropByRectangle(img, rect);
      && |c| == rect.maxY - rect.minY + 1
      && forall i :: 0 <= i < |c| ==>
        && |c[i]| == rect.maxX - rect.minX + 1
        && forall j :: 0 <= j < |c[i]| ==> c[i][j] == img[rect.minY + i][rect.minX + j]
  {
    var rows := Slice(img, rect.minY, rect.maxY + 1);
    assert rows == img[rect.minY..rect.maxY + 1];
    forall i | 0 <= i < |rows|
      ensures Slice(rows[i], rect.minX, rect.maxX + 1) == img[rect.minY + i][rect.minX..rect.maxX + 1]
    {
      assert rows[i] == img[rect.minY + i];
      assert |rows[i]| == Width(img);
    }
  }

  /** The crop of the widened rectangle holds every pixel of a rectangle inside the image, shifted by the widening. */
  lemma {:induction false} ExtendedCropKeepsRectangle(img: Image, r: Rect, pitch: nat)
    requires Rectangular(img)
    requires 0 <= r.minX <= r.maxX < Width(img) && 0 <= r.minY <= r.maxY < Height(img)
    ensures var e := ExtendRectangle(r, pitch, Width(img), Height(img));
      var c := CropByRectangle(img, e);
      forall y, x :: r.minY <= y <= r.maxY && r.minX <= x <= r.maxX ==>
        0 <= y - e.minY < |c| && 0 <= x - e.minX < |c[y - e.minY]| && c[y - e.minY][x - e.minX] == img[y][x]
  {
    var e := ExtendRectangle(r, pitch, Width(img), Height(img));
    ExtendContains(r, pitch, Width(img), Height(img));
    CropByRectangleShape(img, e);
  }

  // ---- the lines of a page ----

  /** The TextEquiv element written under a line: its confidence attribute and its Unicode text. */
  datatype TextEquiv = TextEquiv(confidence: string, unicode: string)

  /**
   * A TextLine: its id, the points of its Coords child (None when the child or the attribute is
   * missing) and its TextEquiv children.
   */
  datatype XLine = XLine(id: string, points: Option<string>, equivs: seq<TextEquiv>)

  datatype XRegion = XRegion(id: string, lines: seq<XLine>)

  /** A Page: its TextRegions in document order. */
  type XPage = seq<XRegion>

  /**
   * An entry of line_and_idx_and_img_and_txt: the line (by its region and line numbers), its index
   * as a string, its crop, and the text and confidence once the recogniser has run.
   */
  datatype LineEntry = LineEntry(region: nat, line: nat, idx: string, image: Image, text: Option<string>, confidence: Option<real>)

  /**
   * How a line is cut out: parse reads its points (get_node_coordinates, which ProcessPageFile
   * passes), rectOf is the percentile rectangle of the points (a floating-point computation) and
   * pitch the margin added on every side.
   */
  datatype Cropping = Cropping(parse: string -> Result<seq<Point>, string>, rectOf: seq<Point> -> Rect, pitch: int)

  /** text_line.find("Coords").attrib["points"] run through the parser; a missing one raises. */
  function LineCoords(cfg: Cropping, line: XLine): Result<seq<Point>, string>
  {
    if line.points.None? then Err("no Coords points") else cfg.parse(line.points.value)
  }

  predicate Readable(cfg: Cropping, line: XLine) { LineCoords(cfg, line).Ok? }

  /** Every line of the sequence has readable points, checked from the first line on. */
  predicate LinesReadable(cfg: Cropping, lines: seq<XLine>)
  {
    lines == [] || (LinesReadable(cfg, lines[..|lines| - 1]) && Readable(cfg, lines[|lines| - 1]))
  }

  /** Every line of region r has readable points. */
  predicate RegionReadable(cfg: Cropping, page: XPage, r: nat)
    requires r < |page|
  {
    LinesReadable(cfg, page[r].lines)
  }

  predicate AllReadable(cfg: Cropping, page: XPage)
  {
    forall r :: 0 <= r < |page| ==> RegionReadable(cfg, page, r)
  }

  /** The crop of a line: the rectangle of its points, widened by the pitch and clipped to the image, bounds included. */
  function LineImage(img: Image, cfg: Cropping, line: XLine): Image
  {
    var coords := if LineCoords(cfg, line).Ok? then LineCoords(cfg, line).value else [];
    CropByRectangle(img, ExtendRectangle(cfg.rectOf(coords), cfg.pitch, Width(img), Height(img)))
  }

  function RegionLines(g: XRegion): seq<XLine> { g.lines }

  predicate Always(line: XLine) { true }

  function PositionOf(r: nat, g: XRegion, l: nat, line: XLine): (nat, nat) { (r, l) }

  /** The (region, line) numbers of the lines of a page, in document order. */
  function Positions(page: XPage): seq<(nat, nat)>
  {
    PickedAll(RegionLines, Always, PositionOf, page)
  }

  /** The index of line l of region r among all lines of the page. */
  function FlatIndex(page: XPage, r: nat, l: nat): nat
    requires r <= |page|
  {
    |Positions(page[..r])| + l
  }

  /** The entry the collecting loop makes for the k-th line of the page. */
  function EntryAt(page: XPage, img: Image, cfg: Cropping, k: nat): LineEntry
    requires k < |Positions(page)|
  {
    PositionsValid(page);
    var p := Positions(page)[k];
    LineEntry(p.0, p.1, NatToStr(k), LineImage(img, cfg, page[p.0].lines[p.1]), None, None)
  }

  /** The crops handed to the recogniser, one per line in document order. */
  function PageImages(page: XPage, img: Image, cfg: Cropping): (imgs: seq<Image>)
    ensures |imgs| == |Positions(page)|
    ensures forall k :: 0 <= k < |imgs| ==> imgs[k] == EntryAt(page, img, cfg, k).image
  {
    seq(|Positions(page)|, k requires 0 <= k < |Positions(page)| => EntryAt(page, img, cfg, k).image)
  }

  // ---- the loops of process_page_file_with_ocr ----

  /** The entries made so far agree with the numbering of the page. */
  predicate EntriesSoFar(page: XPage, img: Image, cfg: Cropping, es: seq<LineEntry>)
  {
    forall k :: 0 <= k < |es| ==> k < |Positions(page)| && es[k] == EntryAt(page, img, cfg, k)
  }

  /** An entry for every line of the page, each the one EntryAt describes. */
  predicate Collected(page: XPage, img: Image, cfg: Cropping, es: seq<LineEntry>)
  {
    |es| == |Positions(page)| && EntriesSoFar(page, img, cfg, es)
  }

  /**
   * The loops over regions and lines that parse each line's points and cut its crop, numbering
   * the lines of the page from 0 with the counter i.
   */
  method CollectLines(page: XPage, img: Image, cfg: Cropping)
      returns (res: Result<seq<LineEntry>, string>)
    ensures res.Ok? <==> AllReadable(cfg, page)
    ensures res.Ok? ==> Collected(page, img, cfg, res.value)
  {
    var entries: seq<LineEntry> := [];
    var i := 0;
    for r := 0 to |page|
      invariant i == |entries| == |Positions(page[..r])|
      invariant EntriesSoFar(page, img, cfg, entries)
      invariant forall r' :: 0 <= r' < r ==> RegionReadable(cfg, page, r')
    {
      var next := CollectRegion(page, img, cfg, r, entries, i);
      if next.Err? {
        return Err(next.error);
      }
      entries, i := next.value.0, next.value.1;
    }
    assert page[..|page|] == page;
    return Ok(entries);
  }

  /** The inner loop of CollectLines: the lines of region r, numbered on from i. */
  method CollectRegion(page: XPage, img: Image, cfg: Cropping, r: nat,
                       entries0: seq<LineEntry>, i0: nat)
      returns (res: Result<(seq<LineEntry>, nat), string>)
    requires r < |page| && i0 == |entries0| == |Positions(page[..r])|
    requires EntriesSoFar(page, img, cfg, entries0)
    ensures res.Ok? <==> RegionReadable(cfg, page, r)
    ensures res.Ok? ==> (res.value.1 == |res.value.0| == |Positions(page[..r + 1])|
      && EntriesSoFar(page, img, cfg, res.value.0))
  {
    var entries, i := entries0, i0;
    for l := 0 to |page[r].lines|
      invariant i == |entries| == |Positions(page[..r])| + l
      invariant EntriesSoFar(page, img, cfg, entries)
      invariant LinesReadable(cfg, page[r].lines[..l])
    {
      var one := CollectLine(page, img, cfg, r, l, entries);
      if one.Err? {
        return Err(one.error);
      }
      entries := one.value;
      i := i + 1;
    }
    assert page[r].lines[..|page[r].lines|] == page[r].lines;
    PositionsSnoc(page, r);
    return Ok((entries, i));
  }

  /** One iteration of the inner loop: line l of region r is cropped and numbered, or its points fail to parse. */
  method CollectLine(page: XPage, img: Image, cfg: Cropping, r: nat, l: nat, entries: seq<LineEntry>)
      returns (res: Result<seq<LineEntry>, string>)
    requires r < |page| && l < |page[r].lines| && |entries| == |Positions(page[..r])| + l
    requires EntriesSoFar(page, img, cfg, entries) && LinesReadable(cfg, page[r].lines[..l])
    ensures res.Err? ==> !RegionReadable(cfg, page, r)
    ensures res.Ok? ==> (|res.value| == |entries| + 1 && EntriesSoFar(page, img, cfg, res.value)
                         && LinesReadable(cfg, page[r].lines[..l + 1]))
  {
    var line := page[r].lines[l];
    var coords := LineCoords(cfg, line);
    if coords.Err? {
      LinesReadableEach(cfg, page[r].lines);
      return Err(coords.error);
    }
    assert page[r].lines[..l + 1][..l] == page[r].lines[..l];
    var rect := ExtendRectangle(cfg.rectOf(coords.value), cfg.pitch, Width(img), Height(img));
    var lineImage := CropByRectangle(img, rect);
    var i := |entries|;
    EntryAtLine(page, img, cfg, r, l);
    EntriesSnoc(page, img, cfg, entries, LineEntry(r, l, NatToStr(i), lineImage, None, None));
    res := Ok(entries + [LineEntry(r, l, NatToStr(i), lineImage, None, None)]);
  }

  /** LinesReadable holds exactly when every line is readable. */
  lemma {:induction false} LinesReadableEach(cfg: Cropping, lines: seq<XLine>)
    ensures LinesReadable(cfg, lines) <==> forall l :: 0 <= l < |lines| ==> Readable(cfg, lines[l])
  {
    if lines != [] {
      var n := |lines| - 1;
      LinesReadableEach(cfg, lines[..n]);
      assert forall l :: 0 <= l < n ==> lines[..n][l] == lines[l];
    }
  }

  lemma EntriesSnoc(page: XPage, img: Image, cfg: Cropping, es: seq<LineEntry>, e: LineEntry)
    requires EntriesSoFar(page, img, cfg, es)
    requires |es| < |Positions(page)| && e == EntryAt(page, img, cfg, |es|)
    ensures EntriesSoFar(page, img, cfg, es + [e])
  {
    var es' := es + [e];
    forall k | 0 <= k < |es'|
      ensures k < |Positions(page)| && es'[k] == EntryAt(page, img, cfg, k)
    {
      if k < |es| {
        assert es'[k] == es[k];
      }
    }
  }

  /** The entry of line l of region r, numbered by its place in the page. */
  lemma {:induction false} EntryAtLine(page: XPage, img: Image, cfg: Cropping, r: nat, l: nat)
    requires r < |page| && l < |page[r].lines|
    ensures FlatIndex(page, r, l) < |Positions(page)|
    ensures EntryAt(page, img, cfg, FlatIndex(page, r, l))
      == LineEntry(r, l, NatToStr(FlatIndex(page, r, l)), LineImage(img, cfg, page[r].lines[l]), None, None)
  {
    PositionAt(page, r, l);
  }

  /** get_ocr_predictions: the i-th text and confidence of the recogniser go to the i-th entry, in place. */
  method GetOcrPredictions(a: array<LineEntry>, predict: seq<Image> -> (seq<string>, seq<real>))
    requires forall imgs :: |predict(imgs).0| == |imgs| && |predict(imgs).1| == |imgs|
    modifies a
    ensures var out := predict(Images(old(a[..])));
      forall k :: 0 <= k < a.Length ==> a[k] == old(a[k]).(text := Some(out.0[k]), confidence := Some(out.1[k]))
  {
    var images := Images(a[..]);
    var out := predict(images);
    var texts, confidences := out.0, out.1;
    for k := 0 to a.Length
      invariant forall j :: 0 <= j < k ==> a[j] == old(a[j]).(text := Some(texts[j]), confidence := Some(confidences[j]))
      invariant forall j :: k <= j < a.Length ==> a[j] == old(a[j])
    {
      a[k] := a[k].(text := Some(texts[k]), confidence := Some(confidences[k]));
    }
  }

  /** [image for line, idx, image, txt in entries] */
  function Images(es: seq<LineEntry>): (imgs: seq<Image>)
    ensures |imgs| == |es| && forall k :: 0 <= k < |es| ==> imgs[k] == es[k].image
  {
    seq(|es|, k requires 0 <= k < |es| => es[k].image)
  }

  /** The TextEquiv written for an entry; show is str() of a float. */
  function EquivOf(e: LineEntry, show: real -> string): TextEquiv
  {
    TextEquiv(show(if e.confidence.Some? then e.confidence.value else 0.0), if e.text.Some? then e.text.value else "")
  }

  /** The TextEquiv elements that the entries add under line l of region r, in entry order. */
  function EquivsFor(es: seq<LineEntry>, show: real -> string, r: nat, l: nat): seq<TextEquiv>
  {
    if es == [] then []
    else
      var n := |es| - 1;
      EquivsFor(es[..n], show, r, l) + if es[n].region == r && es[n].line == l then [EquivOf(es[n], show)] else []
  }

  /** The loop that adds a TextEquiv with its Unicode child under the line of each entry. */
  method AddTextEquivs(page: XPage, es: seq<LineEntry>, show: real -> string) returns (out: XPage)
    requires forall e <- es :: e.region < |page| && e.line < |page[e.region].lines|
    ensures |out| == |page|
    ensures forall r :: 0 <= r < |page| ==> out[r].id == page[r].id && |out[r].lines| == |page[r].lines|
    ensures forall r, l :: 0 <= r < |page| && 0 <= l < |page[r].lines| ==>
      out[r].lines[l] == page[r].lines[l].(equivs := page[r].lines[l].equivs + EquivsFor(es, show, r, l))
  {
    out := page;
    for k := 0 to |es|
      invariant |out| == |page|
      invariant forall r :: 0 <= r < |page| ==> out[r].id == page[r].id && |out[r].lines| == |page[r].lines|
      invariant forall r, l :: 0 <= r < |page| && 0 <= l < |page[r].lines| ==>
        out[r].lines[l] == page[r].lines[l].(equivs := page[r].lines[l].equivs + EquivsFor(es[..k], show, r, l))
    {
      var e := es[k];
      assert e in es;
      var line := out[e.region].lines[e.line];
      var lines' := out[e.region].lines[e.line := line.(equivs := line.equivs + [EquivOf(e, show)])];
      out := out[e.region := out[e.region].(lines := lines')];
      assert es[..k + 1][..k] == es[..k];
    }
    assert es[..|es|] == es;
  }

  /**
   * One page of process_page_file_with_ocr: every line gains exactly one TextEquiv, holding the
   * recogniser's text and confidence for the line's crop at the line's index in the page.
   */
  predicate PageDone(page: XPage, out: XPage, img: Image, cfg: Cropping,
                     predict: seq<Image> -> (seq<string>, seq<real>), show: real -> string)
    requires forall imgs :: |predict(imgs).0| == |imgs| && |predict(imgs).1| == |imgs|
  {
    var res := predict(PageImages(page, img, cfg));
    && |out| == |page|
    && forall r :: 0 <= r < |page| ==>
      && out[r].id == page[r].id && |out[r].lines| == |page[r].lines|
      && forall l :: 0 <= l < |page[r].lines| ==>
        FlatIndex(page, r, l) < |res.0|
        && out[r].lines[l] == page[r].lines[l].(equivs := page[r].lines[l].equivs
             + [TextEquiv(show(res.1[FlatIndex(page, r, l)]), res.0[FlatIndex(page, r, l)])])
  }

  method ProcessPage(page: XPage, img: Image, cfg: Cropping,
                     predict: seq<Image> -> (seq<string>, seq<real>), show: real -> string)
      returns (res: Result<XPage, string>)
    requires forall imgs :: |predict(imgs).0| == |imgs| && |predict(imgs).1| == |imgs|
    ensures res.Ok? <==> AllReadable(cfg, page)
    ensures res.Ok? ==> PageDone(page, res.value, img, cfg, predict, show)
  {
    var collected := CollectLines(page, img, cfg);
    if collected.Err? {
      return Err(collected.error);
    }
    var es := collected.value;
    var a := new LineEntry[|es|](k requires 0 <= k < |es| => es[k]);
    assert a[..] == es;
    GetOcrPredictions(a, predict);
    var done := a[..];
    CollectedLines(page, img, cfg, es);
    RecognisedLines(page, es, done, predict(Images(es)));
    var out := AddTextEquivs(page, done, show);
    RecognisedPage(page, img, cfg, predict, show, es, done, out);
    return Ok(out);
  }

  /** Collected entries sit at the positions of the page, and their crops are the page's. */
  lemma {:induction false} CollectedLines(page: XPage, img: Image, cfg: Cropping, es: seq<LineEntry>)
    requires Collected(page, img, cfg, es)
    ensures Images(es) == PageImages(page, img, cfg)
    ensures forall k :: 0 <= k < |es| ==> es[k].region == Positions(page)[k].0 && es[k].line == Positions(page)[k].1
  {
    PositionsValid(page);
  }

  /** After recognition the entries keep their lines, and every line they name is on the page. */
  lemma {:induction false} RecognisedLines(page: XPage, es: seq<LineEntry>, done: seq<LineEntry>, out: (seq<string>, seq<real>))
    requires |es| == |Positions(page)| == |done| && |out.0| == |es| && |out.1| == |es|
    requires forall k :: 0 <= k < |es| ==> es[k].region == Positions(page)[k].0 && es[k].line == Positions(page)[k].1
    requires forall k :: 0 <= k < |done| ==> done[k] == es[k].(text := Some(out.0[k]), confidence := Some(out.1[k]))
    ensures forall k :: 0 <= k < |done| ==> done[k].region == Positions(page)[k].0 && done[k].line == Positions(page)[k].1
    ensures forall e <- done :: e.region < |page| && e.line < |page[e.region].lines|
  {
    PositionsValid(page);
    forall e | e in done ensures e.region < |page| && e.line < |page[e.region].lines| {
      var k :| 0 <= k < |done| && done[k] == e;
      assert done[k].region == Positions(page)[k].0;
    }
  }

  /** The TextEquiv added under each line is the recogniser's answer for that line's crop. */
  lemma {:induction false} RecognisedPage(page: XPage, img: Image, cfg: Cropping,
                        predict: seq<Image> -> (seq<string>, seq<real>), show: real -> string,
                        es: seq<LineEntry>, done: seq<LineEntry>, out: XPage)
    requires forall imgs :: |predict(imgs).0| == |imgs| && |predict(imgs).1| == |imgs|
    requires Images(es) == PageImages(page, img, cfg) && |es| == |done|
    requires forall k :: 0 <= k < |done| ==>
      done[k] == es[k].(text := Some(predict(Images(es)).0[k]), confidence := Some(predict(Images(es)).1[k]))
    requires forall k :: 0 <= k < |done| ==> done[k].region == Positions(page)[k].0 && done[k].line == Positions(page)[k].1
    requires |out| == |page|
    requires forall r :: 0 <= r < |page| ==> out[r].id == page[r].id && |out[r].lines| == |page[r].lines|
    requires forall r, l :: 0 <= r < |page| && 0 <= l < |page[r].lines| ==>
      out[r].lines[l] == page[r].lines[l].(equivs := page[r].lines[l].equivs + EquivsFor(done, show, r, l))
    ensures PageDone(page, out, img, cfg, predict, show)
  {
    OneEquivPerLine(page, done, show);
  }

  /**
   * process_page_file_with_ocr: each Page with the image at its own position in images (the
   * enumerate index, which the inner counter does not disturb); too few images raise IndexError.
   */
  method ProcessPageFile(pages: seq<XPage>, images: seq<Image>, rectOf: seq<Point> -> Rect, pitch: int,
                         predict: seq<Image> -> (seq<string>, seq<real>), show: real -> string)
      returns (res: Result<seq<XPage>, string>)
    requires forall imgs :: |predict(imgs).0| == |imgs| && |predict(imgs).1| == |imgs|
    ensures res.Ok? <==> |pages| <= |images| && forall p :: 0 <= p < |pages| ==> AllReadable(Cropping(NodeCoordinates, rectOf, pitch), pages[p])
    ensures res.Ok? ==> (|res.value| == |pages|
      && forall p :: 0 <= p < |pages| ==> PageDone(pages[p], res.value[p], images[p], Cropping(NodeCoordinates, rectOf, pitch), predict, show))
  {
    var cfg := Cropping(NodeCoordinates, rectOf, pitch);
    var out: seq<XPage> := [];
    for p := 0 to |pages|
      invariant |out| == p && p <= |images|
      invariant forall q :: 0 <= q < p ==> AllReadable(cfg, pages[q]) && PageDone(pages[q], out[q], images[q], cfg, predict, show)
    {
      if p >= |images| {
        return Err("IndexError");
      }
      var done := ProcessPage(pages[p], images[p], cfg, predict, show);
      if done.Err? {
        return Err(done.error);
      }
      out := out + [done.value];
    }
    return Ok(out);
  }

  // ---- what the numbering promises ----

  /** Every line of the page appears once among the positions, in document order. */
  lemma {:induction false} PositionsValid(page: XPage)
    ensures var ps := Positions(page);
      && (forall k :: 0 <= k < |ps| ==> ps[k].0 < |page| && ps[k].1 < |page[ps[k].0].lines|)
      && (forall k, k' :: 0 <= k < k' < |ps| ==> Before(ps[k], ps[k']))
      && (forall r, l :: 0 <= r < |page| && 0 <= l < |page[r].lines| ==> (r, l) in ps)
  {
    var pos := PickedAllIndexed(RegionLines, Always, PositionOf, page);
    var ps := Positions(page);
    forall k | 0 <= k < |ps| ensures ps[k] == pos[k] && ps[k].0 < |page| && ps[k].1 < |page[ps[k].0].lines| {
      assert PickedAt(RegionLines, Always, PositionOf, page, pos[k], ps[k]);
    }
    assert ps == pos;
  }

  /** The lines of one region, numbered in order. */
  lemma {:induction false} RegionPositions(r: nat, g: XRegion, xs: seq<XLine>)
    ensures var ps := Picked(Always, PositionOf, r, g, xs);
      |ps| == |xs| && forall l :: 0 <= l < |xs| ==> ps[l] == (r, l)
  {
    if xs != [] {
      RegionPositions(r, g, xs[..|xs| - 1]);
    }
  }

  lemma {:induction false} PositionsSnoc(page: XPage, r: nat)
    requires r < |page|
    ensures |Positions(page[..r + 1])| == |Positions(page[..r])| + |page[r].lines|
  {
    PickedAllSnoc(RegionLines, Always, PositionOf, page, r);
    RegionPositions(r, page[r], page[r].lines);
  }

  /** Line l of region r is the line at FlatIndex(page, r, l) of the page. */
  lemma {:induction false} PositionAt(page: XPage, r: nat, l: nat)
    requires r < |page| && l < |page[r].lines|
    ensures FlatIndex(page, r, l) < |Positions(page)| && Positions(page)[FlatIndex(page, r, l)] == (r, l)
  {
    PickedAllSnoc(RegionLines, Always, PositionOf, page, r);
    RegionPositions(r, page[r], page[r].lines);
    PickedAllPrefix(RegionLines, Always, PositionOf, page, r + 1);
  }

  /** Entries at the positions of the page add exactly one TextEquiv under each line: the one of its own entry. */
  lemma {:induction false} OneEquivPerLine(page: XPage, es: seq<LineEntry>, show: real -> string)
    requires |es| == |Positions(page)|
    requires forall k :: 0 <= k < |es| ==> es[k].region == Positions(page)[k].0 && es[k].line == Positions(page)[k].1
    ensures forall r, l :: 0 <= r < |page| && 0 <= l < |page[r].lines| ==>
      FlatIndex(page, r, l) < |es| && EquivsFor(es, show, r, l) == [EquivOf(es[FlatIndex(page, r, l)], show)]
  {
    PositionsValid(page);
    var ps := Positions(page);
    forall r, l | 0 <= r < |page| && 0 <= l < |page[r].lines|
      ensures FlatIndex(page, r, l) < |es| && EquivsFor(es, show, r, l) == [EquivOf(es[FlatIndex(page, r, l)], show)]
    {
      var k := FlatIndex(page, r, l);
      PositionAt(page, r, l);
      forall k' | 0 <= k' < |es| && k' != k ensures !(es[k'].region == r && es[k'].line == l) {
        if k' < k { assert Before(ps[k'], ps[k]); } else { assert Before(ps[k], ps[k']); }
      }
      EquivsForSingle(es, show, r, l, k);
    }
  }

  /** When exactly one entry is at (r, l), it alone adds a TextEquiv there. */
  lemma {:induction false} EquivsForSingle(es: seq<LineEntry>, show: real -> string, r: nat, l: nat, k: nat)
    requires k < |es| && es[k].region == r && es[k].line == l
    requires forall k' :: 0 <= k' < |es| && k' != k ==> !(es[k'].region == r && es[k'].line == l)
    ensures EquivsFor(es, show, r, l) == [EquivOf(es[k], show)]
  {
    var n := |es| - 1;
    var pre := es[..n];
    if k == n {
      EquivsForNone(pre, show, r, l);
    } else {
      EquivsForSingle(pre, show, r, l, k);
    }
  }

  /** No entry at (r, l), no TextEquiv added there. */
  lemma {:induction false} EquivsForNone(es: seq<LineEntry>, show: real -> string, r: nat, l: nat)
    requires forall k :: 0 <= k < |es| ==> !(es[k].region == r && es[k].line == l)
    ensures EquivsFor(es, show, r, l) == []
  {
    if es != [] {
      EquivsForNone(es[..|es| - 1], show, r, l);
    }
  }

  /** The line indices of a page: the k-th entry is numbered str(k), from 0 on each page, across regions. */
  lemma {:induction false} LineIndices(page: XPage, img: Image, cfg: Cropping, r: nat, l: nat)
    requires r < |page| && l < |page[r].lines|
    ensures var k := FlatIndex(page, r, l);
      k < |Positions(page)| && EntryAt(page, img, cfg, k).idx == NatToStr(k)
      && EntryAt(page, img, cfg, k).region == r && EntryAt(page, img, cfg, k).line == l
      && (l + 1 < |page[r].lines| ==> FlatIndex(page, r, l + 1) == k + 1)
  {
    PositionAt(page, r, l);
  }
}
