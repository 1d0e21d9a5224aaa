// The OCR container's local storage (ml/storage_manager.py): five directories under a base path,
// the file names each save and load method builds from a scan id, and cleanup of a scan's files.
module StorageManager {
  import opened Wrappers
  import opened Text
  import opened Paths
  import opened JsonValues
  import opened OcrRecords

  // ---- file names ----

  /** str.replace(' ', '_') */
  function SpacesToUnderscores(s: string): (r: string)
    ensures |r| == |s|
    ensures forall i :: 0 <= i < |s| ==> r[i] == if s[i] == ' ' then '_' else s[i]
  {
    if s == [] then [] else [if s[0] == ' ' then '_' else s[0]] + SpacesToUnderscores(s[1..])
  }

  /** scan_id.replace(' ', '_').lower(): the form of an id in the names the save methods build. */
  function Normalized(s: string): (r: string)
    ensures |r| == |s| && ' ' !in r
  {
    var r := Lower(SpacesToUnderscores(s));
    assert forall i :: 0 <= i < |r| ==> r[i] != ' ';
    r
  }

  /** The file save_input_scan writes in input_scans. */
  function InputScanName(scanId: string): string { Normalized(scanId) + ".jpg" }

  /** The file load_input_scan and cleanup_scan look for in input_scans. */
  function InputScanLookupName(scanId: string): string { scanId + ".jpg" }

  /** The file save_cropped_image writes in cropped_images. */
  function CropName(scanId: string, regionId: string): string
  {
    Normalized(scanId) + "_region_" + Normalized(regionId) + ".jpg"
  }

  /** The file load_cropped_image looks for in cropped_images, as written. */
  function CropLookupName(scanId: string, regionId: string): string { scanId + "_" + regionId + ".jpg" }

  /** The file save_xml_intermediate writes in xml_intermediate. */
  function XmlName(scanId: string, stage: string): string { Normalized(scanId) + "_" + stage + ".xml" }

  /** The file load_xml_intermediate looks for in xml_intermediate. */
  function XmlLookupName(scanId: string, stage: string): string { scanId + "_" + stage + ".xml" }

  /** The final JSON's file in results, for both save and load: the id is used as given. */
  function ResultName(scanId: string): string { scanId + "_result.json" }

  /** The file save_log writes in logs. */
  function LogName(scanId: string): string { Normalized(scanId) + ".log" }

  /** The glob f"{scan_id}_*.jpg" (or .xml) of cleanup_scan, with the id taken literally. */
  predicate MatchesScanGlob(name: string, scanId: string, ext: string)
  {
    |scanId| + 1 + |ext| <= |name| && StartsWith(name, scanId + "_") && EndsWith(name, ext)
  }

  /** The glob "*.jpg" of list_scans. */
  predicate IsJpg(name: string) { EndsWith(name, ".jpg") }

  /** What list_scans returns for the entries of input_scans, in the order the directory lists them. */
  function ScanStems(listing: seq<string>): (r: seq<string>)
    ensures |r| <= |listing|
  {
    if listing == [] then []
    else
      var name := listing[|listing| - 1];
      ScanStems(listing[..|listing| - 1]) + if IsJpg(name) then [Stem(name)] else []
  }

  /** The path string of a file in one of the directories under the base path. */
  function StoredPath(basePath: string, dir: string, name: string): string
  {
    basePath + "/" + dir + "/" + name
  }

  /** The stored files of the five directories, each keyed by its file name. */
  class LocalStorageManager {
    const basePath: string
    var inputScans: map<string, Image>
    var croppedImages: map<string, Image>
    var results: map<string, Json>
    var xmlIntermediate: map<string, string>
    var logs: map<string, string>

    /** __init__: the directories are created when missing, and whatever they already hold stays. */
    constructor(basePath: string, inputScans: map<string, Image>, croppedImages: map<string, Image>,
                results: map<string, Json>, xmlIntermediate: map<string, string>, logs: map<string, string>)
      ensures this.basePath == basePath
      ensures this.inputScans == inputScans && this.croppedImages == croppedImages && this.results == results
      ensures this.xmlIntermediate == xmlIntermediate && this.logs == logs
    {
      this.basePath := basePath;
      this.inputScans := inputScans;
      this.croppedImages := croppedImages;
      this.results := results;
      this.xmlIntermediate := xmlIntermediate;
      this.logs := logs;
    }

    /** str(self.<dir>_path / filename) */
    function PathIn(dir: string, name: string): string
      reads this
    {
      StoredPath(basePath, dir, name)
    }

    /** load_input_scan: the image, or None when the file is absent. */
    function LoadInputScan(scanId: string): (r: Option<Image>)
      reads this
      ensures r.Some? <==> InputScanLookupName(scanId) in inputScans
    {
      var name := InputScanLookupName(scanId);
      if name in inputScans then Some(inputScans[name]) else None
    }

    /** load_cropped_image, as written: it looks for {scan_id}_{region_id}.jpg. */
    function LoadCroppedImage(scanId: string, regionId: string): (r: Option<Image>)
      reads this
      ensures r.Some? <==> CropLookupName(scanId, regionId) in croppedImages
    {
      var name := CropLookupName(scanId, regionId);
      if name in croppedImages then Some(croppedImages[name]) else None
    }

    /** The lookup load_cropped_image evidently intends: the file save_cropped_image writes for the same ids. */
    function FindCroppedImage(scanId: string, regionId: string): (r: Option<Image>)
      reads this
      ensures r.Some? <==> CropName(scanId, regionId) in croppedImages
    {
      var name := CropName(scanId, regionId);
      if name in croppedImages then Some(croppedImages[name]) else None
    }

    /** load_xml_intermediate */
    function LoadXmlIntermediate(scanId: string, stage: string): (r: Option<string>)
      reads this
      ensures r.Some? <==> XmlLookupName(scanId, stage) in xmlIntermediate
    {
      var name := XmlLookupName(scanId, stage);
      if name in xmlIntermediate then Some(xmlIntermediate[name]) else None
    }

    /** load_final_json */
    function LoadFinalJson(scanId: string): (r: Option<Json>)
      reads this
      ensures r.Some? <==> ResultName(scanId) in results
    {
      var name := ResultName(scanId);
      if name in results then Some(results[name]) else None
    }

    /** save_input_scan: copies the image in under the normalised id; found again by that id only when it is already normalised. */
    method SaveInputScan(image: Image, scanId: string) returns (path: string)
      modifies this
      ensures inputScans == old(inputScans)[InputScanName(scanId) := image]
      ensures croppedImages == old(croppedImages) && results == old(results)
      ensures xmlIntermediate == old(xmlIntermediate) && logs == old(logs)
      ensures path == PathIn("input_scans", InputScanName(scanId))
      ensures Normalized(scanId) == scanId ==> LoadInputScan(scanId) == Some(image)
      ensures Normalized(scanId) != scanId ==> LoadInputScan(scanId) == old(LoadInputScan(scanId))
    {
      InputNamesMeetIff(scanId);
      var filename := Normalized(scanId) + ".jpg";
      inputScans := inputScans[filename := image];
      path := PathIn("input_scans", filename);
    }

    /**
     * save_cropped_image: writes {scan}_region_{region}.jpg with both ids normalised. What
     * load_cropped_image finds for the same ids is what it found before.
     */
    method SaveCroppedImage(image: Image, scanId: string, regionId: string) returns (path: string)
      modifies this
      ensures croppedImages == old(croppedImages)[CropName(scanId, regionId) := image]
      ensures inputScans == old(inputScans) && results == old(results)
      ensures xmlIntermediate == old(xmlIntermediate) && logs == old(logs)
      ensures path == PathIn("cropped_images", CropName(scanId, regionId))
      ensures LoadCroppedImage(scanId, regionId) == old(LoadCroppedImage(scanId, regionId))
      ensures FindCroppedImage(scanId, regionId) == Some(image)
    {
      CropLookupMisses(scanId, regionId);
      var filename := Normalized(scanId) + "_region_" + Normalized(regionId) + ".jpg";
      croppedImages := croppedImages[filename := image];
      path := PathIn("cropped_images", filename);
    }

    /** save_xml_intermediate */
    method SaveXmlIntermediate(xml: string, scanId: string, stage: string) returns (path: string)
      modifies this
      ensures xmlIntermediate == old(xmlIntermediate)[XmlName(scanId, stage) := xml]
      ensures inputScans == old(inputScans) && croppedImages == old(croppedImages)
      ensures results == old(results) && logs == old(logs)
      ensures path == PathIn("xml_intermediate", XmlName(scanId, stage))
      ensures Normalized(scanId) == scanId ==> LoadXmlIntermediate(scanId, stage) == Some(xml)
    {
      var filename := Normalized(scanId) + "_" + stage + ".xml";
      xmlIntermediate := xmlIntermediate[filename := xml];
      path := PathIn("xml_intermediate", filename);
    }

    /** save_final_json: the id is not normalised, so load_final_json finds the data under any id. */
    method SaveFinalJson(data: Json, scanId: string) returns (path: string)
      modifies this
      ensures results == old(results)[ResultName(scanId) := data]
      ensures inputScans == old(inputScans) && croppedImages == old(croppedImages)
      ensures xmlIntermediate == old(xmlIntermediate) && logs == old(logs)
      ensures path == PathIn("results", ResultName(scanId))
      ensures LoadFinalJson(scanId) == Some(data)
    {
      var filename := scanId + "_result.json";
      results := results[filename := data];
      path := PathIn("results", filename);
    }

    /** save_log */
    method SaveLog(content: string, scanId: string) returns (path: string)
      modifies this
      ensures logs == old(logs)[LogName(scanId) := content]
      ensures inputScans == old(inputScans) && croppedImages == old(croppedImages)
      ensures results == old(results) && xmlIntermediate == old(xmlIntermediate)
      ensures path == PathIn("logs", LogName(scanId))
    {
      var filename := Normalized(scanId) + ".log";
      logs := logs[filename := content];
      path := PathIn("logs", filename);
    }

    /**
     * list_scans: the stems of the *.jpg entries of input_scans; listing is the directory's
     * entries in the order the file system yields them.
     */
    method ListScans(listing: seq<string>) returns (ids: seq<string>)
      requires forall name :: name in listing <==> name in inputScans
      ensures ids == ScanStems(listing)
    {
      ids := [];
      for i := 0 to |listing|
        invariant ids == ScanStems(listing[..i])
      {
        assert listing[..i + 1][..i] == listing[..i];
        var name := listing[i];
        if IsJpg(name) {
          ids := ids + [Stem(name)];
        }
      }
      assert listing[..|listing|] == listing;
    }

    /**
     * cleanup_scan: removes the input scan, the {id}_*.jpg crops, the {id}_*.xml files and the
     * result, all by the id as given; the logs stay.
     */
    method CleanupScan(scanId: string)
      modifies this
      ensures inputScans == old(inputScans) - {InputScanLookupName(scanId)}
      ensures croppedImages == map name | name in old(croppedImages) && !MatchesScanGlob(name, scanId, ".jpg") :: old(croppedImages)[name]
      ensures xmlIntermediate == map name | name in old(xmlIntermediate) && !MatchesScanGlob(name, scanId, ".xml") :: old(xmlIntermediate)[name]
      ensures results == old(results) - {ResultName(scanId)}
      ensures logs == old(logs)
      ensures LoadInputScan(scanId).None? && LoadFinalJson(scanId).None?
      ensures Normalized(scanId) == scanId ==> forall r :: FindCroppedImage(scanId, r).None?
    {
      inputScans := inputScans - {scanId + ".jpg"};
      croppedImages := map name | name in croppedImages && !MatchesScanGlob(name, scanId, ".jpg") :: croppedImages[name];
      xmlIntermediate := map name | name in xmlIntermediate && !MatchesScanGlob(name, scanId, ".xml") :: xmlIntermediate[name];
      results := results - {scanId + "_result.json"};
      forall r | Normalized(scanId) == scanId ensures CropName(scanId, r) !in croppedImages {
        CleanupMatchesCrop(scanId, r);
      }
    }
  }

  // ---- what the names promise ----

  /** The name a save writes is the name the load opens exactly when the id is already normalised. */
  lemma InputNamesMeetIff(scanId: string)
    ensures InputScanName(scanId) == InputScanLookupName(scanId) <==> Normalized(scanId) == scanId
  {
    if InputScanName(scanId) == InputScanLookupName(scanId) {
      assert Normalized(scanId) == InputScanName(scanId)[..|scanId|];
    }
  }

  /** The same for the XML files of every stage. */
  lemma XmlNamesMeetIff(scanId: string, stage: string)
    ensures XmlName(scanId, stage) == XmlLookupName(scanId, stage) <==> Normalized(scanId) == scanId
  {
    if XmlName(scanId, stage) == XmlLookupName(scanId, stage) {
      assert Normalized(scanId) == XmlName(scanId, stage)[..|scanId|];
    }
  }

  /** The crop file load_cropped_image opens is never the one save_cropped_image wrote for the same ids: it is 7 characters shorter. */
  lemma CropLookupMisses(scanId: string, regionId: string)
    ensures |CropName(scanId, regionId)| == |CropLookupName(scanId, regionId)| + 7
    ensures CropName(scanId, regionId) != CropLookupName(scanId, regionId)
  {
  }

  /** An id without blanks and capitals is already normalised. */
  lemma NormalizedPlain(s: string)
    requires forall i :: 0 <= i < |s| ==> s[i] != ' ' && !('A' <= s[i] <= 'Z') && !('\U{400}' <= s[i] <= '\U{42F}')
    ensures Normalized(s) == s
  {
    assert SpacesToUnderscores(s) == s;
  }

  /** Normalising twice changes nothing more. */
  lemma NormalizedIdempotent(s: string)
    ensures Normalized(Normalized(s)) == Normalized(s)
  {
    var n := Normalized(s);
    assert SpacesToUnderscores(n) == n;
    assert forall i :: 0 <= i < |n| ==> LowerChar(n[i]) == n[i];
  }

  /** For a normalised id, every crop saved for it falls under cleanup_scan's {id}_*.jpg glob. */
  lemma CleanupMatchesCrop(scanId: string, regionId: string)
    requires Normalized(scanId) == scanId
    ensures MatchesScanGlob(CropName(scanId, regionId), scanId, ".jpg")
  {
    var n := CropName(scanId, regionId);
    assert n == scanId + "_" + ("region_" + Normalized(regionId) + ".jpg");
  }

  /** Each id list_scans returns other than ".jpg" itself names a listed file that load_input_scan finds by it. */
  lemma {:induction false} ScanStemsLoad(listing: seq<string>)
    ensures forall id <- ScanStems(listing) :: id == ".jpg" || InputScanLookupName(id) in listing
  {
    if listing != [] {
      var pre := listing[..|listing| - 1];
      var name := listing[|listing| - 1];
      ScanStemsLoad(pre);
      if IsJpg(name) && name != ".jpg" {
        var s := name[..|name| - 4];
        assert name == s + ".jpg";
        SuffixOfStemExt(s, ".jpg");
      }
    }
  }
}
