// The dictionaries that ml/pipeline_processor.py passes from region extraction through OCR to
// concatenation and the final result, as records.
module OcrRecords {
  import opened Wrappers

  /** An image as numpy holds it: rows of pixels, image.shape[0] rows of image.shape[1] pixels. */
  type Image = seq<seq<int>>

  /** The crop_coordinates dictionary of a line; a line whose Coords held no point has {} (None). */
  datatype CropBox = CropBox(minX: int, maxX: int, minY: int, maxY: int, width: int, height: int, padding: int)

  /**
   * One TextLine: its id, the raw points attribute, its crop and the stored crop's path. text and
   * confidence are absent (None) until OCR has run on the line.
   */
  datatype OcrLine = OcrLine(
    lineId: string,
    coordinates: string,
    crop: Option<CropBox>,
    croppedPath: string,
    text: Option<string>,
    confidence: Option<real>)

  /** One TextRegion with the lines that had a Coords element. */
  datatype OcrRegion = OcrRegion(regionId: string, regionType: string, lines: seq<OcrLine>)

  /** line.get('text', '') */
  function TextOr(l: OcrLine): string
  {
    if l.text.Some? then l.text.value else ""
  }

  // ---- numpy slicing ----

  /** A slice bound as Python reads it: a negative one counts from the end, and both are clamped to the sequence. */
  function SliceIndex(i: int, n: nat): (r: nat)
    ensures r <= n
  {
    if i < 0 then (if i + n < 0 then 0 else i + n) else if i > n then n else i
  }

  /** s[lo:hi] */
  function Slice<T>(s: seq<T>, lo: int, hi: int): (r: seq<T>)
    ensures 0 <= lo <= hi <= |s| ==> r == s[lo..hi]
  {
    var l, h := SliceIndex(lo, |s|), SliceIndex(hi, |s|);
    if l < h then s[l..h] else []
  }

  function Height(img: Image): nat { |img| }

  function Width(img: Image): nat { if img == [] then 0 else |img[0]| }

  /** Every row as long as the first, as in a numpy array. */
  predicate Rectangular(img: Image) { forall i :: 0 <= i < |img| ==> |img[i]| == Width(img) }
}
