// ml-training/prepare_data.py: cutting the labelled regions of the scans into training crops, one
// image and one text file per region, and counting the crops saved.
module PrepareData {
  import opened Wrappers
  import opened Text
  import opened Paths
  import opened JsonValues

  // ---- find_image ----

  /** The names glob.glob(input_image_dir/base.*) yields: the listed names that start with base + ".". */
  function Globbed(listing: seq<string>, base: string): (r: seq<string>)
    ensures |r| <= |listing|
  {
    if listing == [] then []
    else
      var n := listing[|listing| - 1];
      Globbed(listing[..|listing| - 1], base) + if StartsWith(n, base + ".") then [n] else []
  }

  /** The glob keeps exactly the names of the form base.*, in listing order. */
  lemma {:induction false} GlobbedSpec(listing: seq<string>, base: string)
    ensures forall n :: n in Globbed(listing, base) <==> n in listing && StartsWith(n, base + ".")
  {
    if listing != [] {
      var init := listing[..|listing| - 1];
      GlobbedSpec(init, base);
      assert listing == init + [listing[|listing| - 1]];
    }
  }

  /** The lower-cased extension is one find_image accepts. */
  predicate ImageName(n: string)
  {
    Lower(SplitExt(n).1) in {".jpg", ".jpeg", ".png"}
  }

  /** The first accepted path of a glob result, if any. */
  function FirstImage(paths: seq<string>): Option<string>
  {
    if paths == [] then None
    else if ImageName(paths[0]) then Some(paths[0])
    else FirstImage(paths[1..])
  }

  /** FirstImage picks the first accepted name and is None exactly when no name is accepted. */
  lemma {:induction false} FirstImageSpec(paths: seq<string>)
    ensures FirstImage(paths).Some? ==>
      exists k :: 0 <= k < |paths| && paths[k] == FirstImage(paths).value && ImageName(paths[k])
        && forall j :: 0 <= j < k ==> !ImageName(paths[j])
    ensures FirstImage(paths).None? <==> forall k :: 0 <= k < |paths| ==> !ImageName(paths[k])
  {
    if paths != [] && !ImageName(paths[0]) {
      var rest := paths[1..];
      FirstImageSpec(rest);
      if FirstImage(rest).Some? {
        var k :| 0 <= k < |rest| && rest[k] == FirstImage(rest).value && ImageName(rest[k])
          && forall j :: 0 <= j < k ==> !ImageName(rest[j]);
        assert paths[k + 1] == rest[k];
        forall j | 0 <= j < k + 1 ensures !ImageName(paths[j]) {
          if j > 0 { assert paths[j] == rest[j - 1]; }
        }
      }
      forall k | 0 <= k < |paths| && FirstImage(rest).None? ensures !ImageName(paths[k]) {
        if k > 0 { assert paths[k] == rest[k - 1]; }
      }
    }
  }

  /** find_image: the first globbed base.* whose lower-cased extension is .jpg, .jpeg or .png. */
  method FindImage(listing: seq<string>, base: string) returns (r: Option<string>)
    ensures r == FirstImage(Globbed(listing, base))
  {
    var paths := Globbed(listing, base);
    var i := 0;
    while i < |paths|
      invariant 0 <= i <= |paths|
      invariant FirstImage(paths) == FirstImage(paths[i..])
    {
      assert paths[i..][1..] == paths[i + 1..];
      if ImageName(paths[i]) {
        return Some(paths[i]);
      }
      i := i + 1;
    }
    return None;
  }

  // ---- the root of a label file ----

  /**
   * data.get('json', data).get('json'): AttributeError when data is not a dict, or when its "json"
   * entry is present and not a dict; None when the second "json" level is missing.
   */
  function Root(data: Json): (r: Result<Json, string>)
    ensures r.Ok? <==> data.JObj? && ("json" in data.fields ==> data.fields["json"].JObj?)
    ensures r.Err? ==> r.error == "AttributeError"
  {
    if !data.JObj? then Err("AttributeError")
    else
      var inner := GetOr(data.fields, "json", data);
      if inner.JObj? then Ok(Get(inner.fields, "json")) else Err("AttributeError")
  }

  /** A label file nested twice under "json" has the inner dict as its root. */
  lemma RootDoubleNested(root: map<string, Json>, outer: map<string, Json>, inner: map<string, Json>)
    requires "json" in outer && outer["json"] == JObj(inner)
    requires "json" in inner && inner["json"] == JObj(root)
    ensures Root(JObj(outer)) == Ok(JObj(root))
  {
  }

  /** A label file nested once, or not at all, has None as its root. */
  lemma RootSingleNested(outer: map<string, Json>)
    requires "json" in outer ==> outer["json"].JObj? && "json" !in outer["json"].fields
    ensures Root(JObj(outer)) == Ok(JNull)
  {
  }

  // ---- the regions of a root ----

  /** The single region built from root["crop"]: its four coordinates (None when absent) and root's "text". */
  function CropRegion(root: map<string, Json>, c: map<string, Json>): Json
  {
    JObj(map[
      "coordinates" := JObj(map[
        "min_x" := Get(c, "min_x"), "min_y" := Get(c, "min_y"),
        "max_x" := Get(c, "max_x"), "max_y" := Get(c, "max_y")]),
      "corrected_text" := GetOr(root, "text", JStr(""))])
  }

  /**
   * root.get('regions', []), replaced by [CropRegion] when it is falsy and root has a "crop";
   * AttributeError when root is not a dict, or the crop is not one.
   */
  function Regions(root: Json): (r: Result<Json, string>)
    ensures r.Ok? ==> root.JObj?
    ensures r.Ok? && "crop" !in root.fields ==> r.value == GetOr(root.fields, "regions", JArr([]))
    ensures r.Ok? && Truthy(GetOr(root.fields, "regions", JArr([]))) ==> r.value == root.fields["regions"]
  {
    if !root.JObj? then Err("AttributeError")
    else
      var regions := GetOr(root.fields, "regions", JArr([]));
      if !Truthy(regions) && "crop" in root.fields then
        var c := root.fields["crop"];
        if c.JObj? then Ok(JArr([CropRegion(root.fields, c.fields)])) else Err("AttributeError")
      else Ok(regions)
  }

  /** `for r in regions` over a truthy value: a list's items; a dict or string yields strings, on which r.get fails. */
  function Items(regions: Json): (r: Result<seq<Json>, string>)
    ensures r.Ok? <==> regions.JArr?
    ensures r.Ok? ==> r.value == regions.items
  {
    match regions
    case JArr(a) => Ok(a)
    case JObj(_) => Err("AttributeError")
    case JStr(_) => Err("AttributeError")
    case _ => Err("TypeError")
  }

  // ---- one region ----

  datatype Box = Box(left: int, top: int, right: int, bottom: int)

  /** int(x) on a float: truncation toward zero. */
  function Trunc(x: real): (r: int)
    ensures x >= 0.0 ==> r as real <= x < r as real + 1.0
    ensures x < 0.0 ==> r as real - 1.0 < x <= r as real
  {
    if x >= 0.0 then x.Floor else -((-x).Floor)
  }

  /**
   * int(float(v)): a number truncated, a boolean as 0 or 1, a string as parseNum reads it; None
   * where Python raises (None, a list, a dict, a string that is not a number).
   */
  function Number(v: Json, parseNum: string -> Option<int>): (r: Option<int>)
    ensures v.JNum? ==> r == Some(Trunc(v.n))
    ensures v.JStr? ==> r == parseNum(v.s)
    ensures v.JNull? || v.JArr? || v.JObj? ==> r.None?
  {
    match v
    case JNum(n) => Some(Trunc(n))
    case JBool(b) => Some(if b then 1 else 0)
    case JStr(s) => parseNum(s)
    case _ => None
  }

  /** max(0, min(v, hi)) */
  function Clamp(v: int, hi: nat): (r: nat)
    ensures r <= hi
    ensures 0 <= v <= hi ==> r == v
    ensures v < 0 ==> r == 0
    ensures v > hi ==> r == hi
  {
    if v < 0 then 0 else if v > hi then hi else v
  }

  predicate HasCorners(c: map<string, Json>)
  {
    "min_x" in c && "min_y" in c && "max_x" in c && "max_y" in c
  }

  /**
   * The crop rectangle of a region: Err where Python raises (a region or a truthy "coordinates"
   * that is not a dict), None for a region skipped (a corner missing, a corner not a number, an
   * empty or inverted rectangle after clamping to the image).
   */
  function RegionBox(r: Json, w: nat, h: nat, parseNum: string -> Option<int>): (res: Result<Option<Box>, string>)
    ensures res.Ok? ==> r.JObj?
    ensures res.Ok? && res.value.Some? ==>
      var b := res.value.value;
      0 <= b.left < b.right <= w && 0 <= b.top < b.bottom <= h
  {
    if !r.JObj? then Err("AttributeError")
    else
      var coords := Or(Get(r.fields, "coordinates"), JObj(map[]));
      if !coords.JObj? then Err("AttributeError")
      else
        var c := coords.fields;
        if !HasCorners(c) then Ok(None)
        else
          var l, t, rt, b := Number(c["min_x"], parseNum), Number(c["min_y"], parseNum),
            Number(c["max_x"], parseNum), Number(c["max_y"], parseNum);
          if l.None? || t.None? || rt.None? || b.None? then Ok(None)
          else
            var box := Box(Clamp(l.value, w), Clamp(t.value, h), Clamp(rt.value, w), Clamp(b.value, h));
            if box.right <= box.left || box.bottom <= box.top then Ok(None) else Ok(Some(box))
  }

  /** A region whose coordinates lie inside the image and enclose some area is cropped exactly there. */
  lemma RegionBoxInside(fields: map<string, Json>, c: map<string, Json>, w: nat, h: nat,
                        parseNum: string -> Option<int>, left: nat, top: nat, right: nat, bottom: nat)
    requires "coordinates" in fields && fields["coordinates"] == JObj(c)
    requires HasCorners(c)
    requires c["min_x"] == JNum(left as real) && c["min_y"] == JNum(top as real)
    requires c["max_x"] == JNum(right as real) && c["max_y"] == JNum(bottom as real)
    requires left < right <= w && top < bottom <= h
    ensures RegionBox(JObj(fields), w, h, parseNum) == Ok(Some(Box(left, top, right, bottom)))
  {
    assert Truthy(JObj(c)) by { assert "min_x" in c; }
    assert Trunc(left as real) == left && Trunc(top as real) == top;
    assert Trunc(right as real) == right && Trunc(bottom as real) == bottom;
  }

  /** A region lacking one of the four corners is skipped, never cropped. */
  lemma MissingCornerSkipped(fields: map<string, Json>, w: nat, h: nat, parseNum: string -> Option<int>)
    requires Get(fields, "coordinates").JObj? && !HasCorners(Get(fields, "coordinates").fields)
    ensures RegionBox(JObj(fields), w, h, parseNum) == Ok(None)
  {
  }

  /** A region with a corner that int(float(...)) rejects is skipped. */
  lemma NonNumericSkipped(fields: map<string, Json>, c: map<string, Json>, w: nat, h: nat,
                          parseNum: string -> Option<int>, corner: string)
    requires "coordinates" in fields && fields["coordinates"] == JObj(c)
    requires HasCorners(c) && corner in c && corner in {"min_x", "min_y", "max_x", "max_y"}
    requires Number(c[corner], parseNum).None?
    ensures RegionBox(JObj(fields), w, h, parseNum) == Ok(None)
  {
    assert Truthy(JObj(c)) by { assert "min_x" in c; }
  }

  /** (corrected_text or concatenated_text or '').strip(): AttributeError when the value picked is not a string. */
  function RegionText(r: map<string, Json>): (res: Result<string, string>)
    ensures var c, t := Get(r, "corrected_text"), Get(r, "concatenated_text");
      && (c.JStr? && c.s != "" ==> res == Ok(Strip(c.s)))
      && (!Truthy(c) && t.JStr? && t.s != "" ==> res == Ok(Strip(t.s)))
      && (!Truthy(c) && !Truthy(t) ==> res == Ok(""))
      && (res.Err? <==> (Truthy(c) && !c.JStr?) || (!Truthy(c) && Truthy(t) && !t.JStr?))
  {
    var v := Or(Or(Get(r, "corrected_text"), Get(r, "concatenated_text")), JStr(""));
    if v.JStr? then Ok(Strip(v.s)) else Err("AttributeError")
  }

  // ---- the label files ----

  datatype Size = Size(width: nat, height: nat)

  /** A label file: its name in labels_dir and what json.load returned (None when reading failed). */
  datatype LabelFile = LabelFile(name: string, data: Option<Json>)

  /**
   * The file system around the run: the listing of input_image_dir in glob order, what
   * Image.open gives for a path (None when it raises), int(float(s)) for strings, and whether
   * cropping and saving region k of a label file, and writing its text, succeeded.
   */
  datatype Env = Env(
    images: seq<string>,
    openImage: string -> Option<Size>,
    parseNum: string -> Option<int>,
    cropSaved: (string, nat) -> bool,
    textSaved: (string, nat) -> bool)

  /** A saved crop: the label file and region it came from, the image, the rectangle, the text and whether the text was written. */
  datatype Sample = Sample(source: string, region: nat, image: string, box: Box, text: string, textSaved: bool)

  /** One pass of the region loop: Err where it raises, None where it continues, the sample where it counts. */
  function RegionStep(source: string, img: string, size: Size, k: nat, r: Json, env: Env): (res: Result<Option<Sample>, string>)
    ensures res.Ok? && res.value.Some? ==>
      var s := res.value.value;
      s.source == source && s.region == k && s.image == img && env.cropSaved(source, k)
      && s.textSaved == env.textSaved(source, k)
      && 0 <= s.box.left < s.box.right <= size.width && 0 <= s.box.top < s.box.bottom <= size.height
  {
    match RegionBox(r, size.width, size.height, env.parseNum)
    case Err(e) => Err(e)
    case Ok(None) => Ok(None)
    case Ok(Some(box)) =>
      if !env.cropSaved(source, k) then Ok(None)
      else
        match RegionText(r.fields)
        case Err(e) => Err(e)
        case Ok(t) => Ok(Some(Sample(source, k, img, box, t, env.textSaved(source, k))))
  }

  /** The samples of the first regions of a label file, in order; the first error stops the run. */
  function RegionsDone(source: string, img: string, size: Size, regions: seq<Json>, env: Env): Result<seq<Sample>, string>
  {
    if regions == [] then Ok([])
    else
      var n := |regions| - 1;
      match RegionsDone(source, img, size, regions[..n], env)
      case Err(e) => Err(e)
      case Ok(prev) =>
        match RegionStep(source, img, size, n, regions[n], env)
        case Err(e) => Err(e)
        case Ok(o) => Ok(prev + if o.Some? then [o.value] else [])
  }

  /**
   * The body of the loop over label files, with a missing image skipped: Err where it raises,
   * otherwise the samples it saved.
   */
  function FileStep(file: LabelFile, env: Env): Result<seq<Sample>, string>
  {
    if file.data.None? then Ok([])
    else
      match Root(file.data.value)
      case Err(e) => Err(e)
      case Ok(root) =>
        var img := FirstImage(Globbed(env.images, SplitExt(file.name).0));
        if img.None? then Ok([])
        else
          var size := env.openImage(img.value);
          if size.None? then Ok([])
          else
            match Regions(root)
            case Err(e) => Err(e)
            case Ok(regions) =>
              if !Truthy(regions) then Ok([])
              else
                match Items(regions)
                case Err(e) => Err(e)
                case Ok(items) => RegionsDone(file.name, img.value, size.value, items, env)
  }

  /** The loop body as written: a missing image makes os.listdir(json_path) raise on the label file. */
  function FileStepAsWritten(file: LabelFile, env: Env): Result<seq<Sample>, string>
  {
    if file.data.Some? && Root(file.data.value).Ok? && FirstImage(Globbed(env.images, SplitExt(file.name).0)).None?
    then Err("NotADirectoryError")
    else FileStep(file, env)
  }

  /** The label files already processed: the samples saved so far, or the first error. */
  function Prepared(files: seq<LabelFile>, env: Env): Result<seq<Sample>, string>
  {
    if files == [] then Ok([])
    else
      var n := |files| - 1;
      match Prepared(files[..n], env)
      case Err(e) => Err(e)
      case Ok(prev) =>
        match FileStep(files[n], env)
        case Err(e) => Err(e)
        case Ok(s) => Ok(prev + s)
  }

  // ---- what the loops promise ----

  /** The root of a label file nested only once under "json" is None, and reading its regions raises. */
  lemma SingleNestingRaises(file: LabelFile, env: Env, inner: map<string, Json>)
    requires file.data == Some(JObj(map["json" := JObj(inner)])) && "json" !in inner
    requires FirstImage(Globbed(env.images, SplitExt(file.name).0)).Some?
    requires env.openImage(FirstImage(Globbed(env.images, SplitExt(file.name).0)).value).Some?
    ensures FileStep(file, env) == Err("AttributeError")
  {
    RootSingleNested(map["json" := JObj(inner)]);
  }

  /** Empty regions and a "crop" dict give the single region built from the crop. */
  lemma CropFallback(root: map<string, Json>, c: map<string, Json>)
    requires "crop" in root && root["crop"] == JObj(c)
    requires !Truthy(GetOr(root, "regions", JArr([])))
    ensures Regions(JObj(root)) == Ok(JArr([CropRegion(root, c)]))
  {
  }

  /** Empty regions and no "crop": the label file is skipped. */
  lemma NoRegionsSkipped(file: LabelFile, env: Env, outer: map<string, Json>, root: map<string, Json>)
    requires file.data == Some(JObj(outer)) && Root(JObj(outer)) == Ok(JObj(root))
    requires "crop" !in root && !Truthy(GetOr(root, "regions", JArr([])))
    ensures FileStep(file, env) == Ok([])
  {
  }

  /**
   * A crop lacking a corner still gives all four corner keys (the missing one as None), so the
   * region passes the key check and is skipped at the conversion instead.
   */
  lemma CropMissingCornerSkipped(root: map<string, Json>, c: map<string, Json>, w: nat, h: nat,
                                 parseNum: string -> Option<int>)
    requires "min_x" !in c || "min_y" !in c || "max_x" !in c || "max_y" !in c
    ensures var coords := CropRegion(root, c).fields["coordinates"];
      coords.JObj? && HasCorners(coords.fields)
    ensures RegionBox(CropRegion(root, c), w, h, parseNum) == Ok(None)
  {
    var coords := CropRegion(root, c).fields["coordinates"];
    assert Truthy(coords) by { assert "min_x" in coords.fields; }
  }

  /** The loop body as written raises on every readable label file that has no image. */
  lemma MissingImageRaises(file: LabelFile, env: Env)
    requires file.data.Some? && Root(file.data.value).Ok?
    requires FirstImage(Globbed(env.images, SplitExt(file.name).0)).None?
    ensures FileStepAsWritten(file, env) == Err("NotADirectoryError")
    ensures FileStep(file, env) == Ok([])
  {
  }

  /** The label file "scan.json" globs "scan.*", which "scan.txt" matches without being an image. */
  lemma ScanNames()
    ensures SplitExt("scan.json").0 == "scan"
    ensures FirstImage(Globbed(["scan.txt"], "scan")) == None
  {
    SplitExtStemExt("scan", ".json");
    assert "scan" + ".json" == "scan.json";
    assert Globbed(["scan.txt"], "scan") == ["scan.txt"] by {
      assert "scan.txt"[..5] == "scan" + ".";
    }
    SplitExtStemExt("scan", ".txt");
    assert "scan" + ".txt" == "scan.txt";
    assert Lower(".txt") == ".txt";
  }

  /** "scan.json" with a well-formed root and an image directory holding only "scan.txt". */
  lemma MissingImageExample()
    ensures var file := LabelFile("scan.json", Some(JObj(map["json" := JObj(map["json" := JObj(map[])])])));
      var env := Env(["scan.txt"], _ => None, _ => None, (_, _) => true, (_, _) => true);
      FileStepAsWritten(file, env) == Err("NotADirectoryError") && FileStep(file, env) == Ok([])
  {
    ScanNames();
    MissingImageRaises(LabelFile("scan.json", Some(JObj(map["json" := JObj(map["json" := JObj(map[])])]))),
      Env(["scan.txt"], _ => None, _ => None, (_, _) => true, (_, _) => true));
  }

  /** With the missing image skipped, a run in which no label file finds an image saves nothing and does not raise. */
  lemma {:induction false} NoImagesNoSamples(files: seq<LabelFile>, env: Env)
    requires forall k :: 0 <= k < |files| && files[k].data.Some? ==> Root(files[k].data.value).Ok?
    requires forall k :: 0 <= k < |files| ==> FirstImage(Globbed(env.images, SplitExt(files[k].name).0)).None?
    ensures Prepared(files, env) == Ok([])
  {
    if files != [] {
      var n := |files| - 1;
      assert forall k :: 0 <= k < n ==> files[..n][k] == files[k];
      NoImagesNoSamples(files[..n], env);
      assert FileStep(files[n], env) == Ok([]);
      var none: seq<Sample> := [];
      assert none + none == none;
    }
  }

  /** Every sample is a crop that was saved, inside its image, whether or not its text was written. */
  lemma {:induction false} SamplesSaved(source: string, img: string, size: Size, regions: seq<Json>, env: Env)
    requires RegionsDone(source, img, size, regions, env).Ok?
    ensures forall s :: s in RegionsDone(source, img, size, regions, env).value ==>
      s.source == source && s.image == img && env.cropSaved(source, s.region) && s.region < |regions|
      && 0 <= s.box.left < s.box.right <= size.width && 0 <= s.box.top < s.box.bottom <= size.height
  {
    if regions != [] {
      SamplesSaved(source, img, size, regions[..|regions| - 1], env);
    }
  }

  /** Whether a text write fails changes no region's outcome except the sample's flag. */
  lemma RegionStepTextFree(source: string, img: string, size: Size, k: nat, r: Json, env: Env,
                           textSaved: (string, nat) -> bool)
    ensures var a, b := RegionStep(source, img, size, k, r, env), RegionStep(source, img, size, k, r, env.(textSaved := textSaved));
      a.Err? <==> b.Err?
    ensures var a, b := RegionStep(source, img, size, k, r, env), RegionStep(source, img, size, k, r, env.(textSaved := textSaved));
      a.Ok? ==> (a.value.Some? <==> b.value.Some?)
  {
  }

  /** total counts the crops saved: the run raises, and counts, the same whatever text writes fail. */
  lemma {:induction false} TextWritesNotCounted(files: seq<LabelFile>, env: Env, textSaved: (string, nat) -> bool)
    ensures var a, b := Prepared(files, env), Prepared(files, env.(textSaved := textSaved));
      (a.Err? <==> b.Err?) && (a.Ok? ==> |a.value| == |b.value|)
  {
    if files != [] {
      var n := |files| - 1;
      TextWritesNotCounted(files[..n], env, textSaved);
      FileStepTextFree(files[n], env, textSaved);
    }
  }

  lemma FileStepTextFree(file: LabelFile, env: Env, textSaved: (string, nat) -> bool)
    ensures var a, b := FileStep(file, env), FileStep(file, env.(textSaved := textSaved));
      (a.Err? <==> b.Err?) && (a.Ok? ==> |a.value| == |b.value|)
  {
    var env2 := env.(textSaved := textSaved);
    if file.data.Some? && Root(file.data.value).Ok? {
      var img := FirstImage(Globbed(env.images, SplitExt(file.name).0));
      if img.Some? && env.openImage(img.value).Some? {
        var regions := Regions(Root(file.data.value).value);
        if regions.Ok? && Truthy(regions.value) && Items(regions.value).Ok? {
          RegionsTextFree(file.name, img.value, env.openImage(img.value).value, Items(regions.value).value, env, textSaved);
        }
      }
    }
  }

  lemma {:induction false} RegionsTextFree(source: string, img: string, size: Size, regions: seq<Json>, env: Env,
                                           textSaved: (string, nat) -> bool)
    ensures var a, b := RegionsDone(source, img, size, regions, env), RegionsDone(source, img, size, regions, env.(textSaved := textSaved));
      (a.Err? <==> b.Err?) && (a.Ok? ==> |a.value| == |b.value|)
  {
    if regions != [] {
      var n := |regions| - 1;
      RegionsTextFree(source, img, size, regions[..n], env, textSaved);
      RegionStepTextFree(source, img, size, n, regions[n], env, textSaved);
    }
  }

  // ---- the whole run ----

  /** os.path.join(d, name) */
  function JoinPath(d: string, name: string): string
  {
    if d == "" || EndsWith(d, "/") then d + name else d + "/" + name
  }

  datatype Summary = Summary(textDir: string, imageDir: string, total: nat)

  /** An error met by the regions seen so far is the error of the label file. */
  lemma {:induction false} RegionsErrStays(source: string, img: string, size: Size, regions: seq<Json>, env: Env, j: nat)
    requires j <= |regions| && RegionsDone(source, img, size, regions[..j], env).Err?
    ensures RegionsDone(source, img, size, regions, env) == RegionsDone(source, img, size, regions[..j], env)
    decreases |regions| - j
  {
    if j < |regions| {
      assert regions[..j + 1][..j] == regions[..j];
      RegionsErrStays(source, img, size, regions, env, j + 1);
    } else {
      assert regions[..j] == regions;
    }
  }

  /** An error met by the label files seen so far is the error of the run. */
  lemma {:induction false} PreparedErrStays(files: seq<LabelFile>, env: Env, i: nat)
    requires i <= |files| && Prepared(files[..i], env).Err?
    ensures Prepared(files, env) == Prepared(files[..i], env)
    decreases |files| - i
  {
    if i < |files| {
      assert files[..i + 1][..i] == files[..i];
      PreparedErrStays(files, env, i + 1);
    } else {
      assert files[..i] == files;
    }
  }

  /** A region that passes or is skipped extends the label file's samples by its sample, if any. */
  lemma RegionsSnoc(source: string, img: string, size: Size, regions: seq<Json>, env: Env, k: nat,
                    prev: seq<Sample>, o: Option<Sample>)
    requires k < |regions| && RegionsDone(source, img, size, regions[..k], env) == Ok(prev)
    requires RegionStep(source, img, size, k, regions[k], env) == Ok(o)
    ensures RegionsDone(source, img, size, regions[..k + 1], env) == Ok(prev + if o.Some? then [o.value] else [])
  {
    assert regions[..k + 1][..k] == regions[..k];
  }

  /** A region that raises makes the whole label file raise. */
  lemma RegionsRaise(source: string, img: string, size: Size, regions: seq<Json>, env: Env, k: nat)
    requires k < |regions| && RegionsDone(source, img, size, regions[..k], env).Ok?
    requires RegionStep(source, img, size, k, regions[k], env).Err?
    ensures RegionsDone(source, img, size, regions, env) == Err(RegionStep(source, img, size, k, regions[k], env).error)
  {
    assert regions[..k + 1][..k] == regions[..k];
    RegionsErrStays(source, img, size, regions, env, k + 1);
  }

  /** A label file that passes or is skipped extends the run's samples by its own. */
  lemma PreparedSnoc(files: seq<LabelFile>, env: Env, i: nat, prev: seq<Sample>, s: seq<Sample>)
    requires i < |files| && Prepared(files[..i], env) == Ok(prev) && FileStep(files[i], env) == Ok(s)
    ensures Prepared(files[..i + 1], env) == Ok(prev + s)
  {
    assert files[..i + 1][..i] == files[..i];
  }

  /** A label file that raises makes the run raise. */
  lemma PreparedRaise(files: seq<LabelFile>, env: Env, i: nat)
    requires i < |files| && Prepared(files[..i], env).Ok? && FileStep(files[i], env).Err?
    ensures Prepared(files, env) == Err(FileStep(files[i], env).error)
  {
    assert files[..i + 1][..i] == files[..i];
    PreparedErrStays(files, env, i + 1);
  }

  /**
   * The region loop of one label file: appends each region's sample and counts it; Err where
   * the loop raises.
   */
  method ProcessRegions(source: string, img: string, size: Size, regions: seq<Json>, env: Env)
    returns (r: Result<nat, string>, saved: seq<Sample>)
    ensures r.Err? <==> RegionsDone(source, img, size, regions, env).Err?
    ensures r.Err? ==> r.error == RegionsDone(source, img, size, regions, env).error
    ensures r.Ok? ==> saved == RegionsDone(source, img, size, regions, env).value && r.value == |saved|
  {
    var count := 0;
    saved := [];
    for k := 0 to |regions|
      invariant RegionsDone(source, img, size, regions[..k], env) == Ok(saved)
      invariant count == |saved|
    {
      var region := regions[k];
      ghost var step := RegionStep(source, img, size, k, region, env);
      var box := RegionBox(region, size.width, size.height, env.parseNum);
      if box.Err? {
        assert step == Err(box.error);
        RegionsRaise(source, img, size, regions, env, k);
        return Err(box.error), saved;
      }
      if box.value.None? || !env.cropSaved(source, k) {
        assert step == Ok(None);
        RegionsSnoc(source, img, size, regions, env, k, saved, None);
        assert saved + [] == saved;
        continue;
      }
      var text := RegionText(region.fields);
      if text.Err? {
        assert step == Err(text.error);
        RegionsRaise(source, img, size, regions, env, k);
        return Err(text.error), saved;
      }
      var sample := Sample(source, k, img, box.value.value, text.value, env.textSaved(source, k));
      assert step == Ok(Some(sample));
      RegionsSnoc(source, img, size, regions, env, k, saved, Some(sample));
      saved := saved + [sample];
      count := count + 1;
    }
    assert regions[..|regions|] == regions;
    r := Ok(count);
  }

  /**
   * prepare_dataset: for every readable label file with an image, crops and saves each valid
   * region and counts it; the summary names the two output directories and the total.
   */
  method PrepareDataset(files: seq<LabelFile>, destination: string, env: Env)
    returns (r: Result<Summary, string>, samples: seq<Sample>)
    ensures r.Err? <==> Prepared(files, env).Err?
    ensures r.Err? ==> r.error == Prepared(files, env).error
    ensures r.Ok? ==> (samples == Prepared(files, env).value
      && r.value == Summary(JoinPath(destination, "texts"), JoinPath(destination, "images"), |samples|))
  {
    var total := 0;
    samples := [];
    for i := 0 to |files|
      invariant Prepared(files[..i], env) == Ok(samples)
      invariant total == |samples|
    {
      var file := files[i];
      ghost var step := FileStep(file, env);
      if file.data.None? {
        PreparedSnoc(files, env, i, samples, []);
        assert samples + [] == samples;
        continue;
      }
      var root := Root(file.data.value);
      if root.Err? {
        PreparedRaise(files, env, i);
        return Err(root.error), samples;
      }
      var img := FindImage(env.images, SplitExt(file.name).0);
      if img.None? {
        PreparedSnoc(files, env, i, samples, []);
        assert samples + [] == samples;
        continue;
      }
      var size := env.openImage(img.value);
      if size.None? {
        PreparedSnoc(files, env, i, samples, []);
        assert samples + [] == samples;
        continue;
      }
      var regions := Regions(root.value);
      if regions.Err? {
        PreparedRaise(files, env, i);
        return Err(regions.error), samples;
      }
      if !Truthy(regions.value) {
        PreparedSnoc(files, env, i, samples, []);
        assert samples + [] == samples;
        continue;
      }
      var items := Items(regions.value);
      if items.Err? {
        PreparedRaise(files, env, i);
        return Err(items.error), samples;
      }
      var count, saved := ProcessRegions(file.name, img.value, size.value, items.value, env);
      assert step == RegionsDone(file.name, img.value, size.value, items.value, env);
      if count.Err? {
        PreparedRaise(files, env, i);
        return Err(count.error), samples;
      }
      PreparedSnoc(files, env, i, samples, saved);
      samples := samples + saved;
      total := total + count.value;
    }
    assert files[..|files|] == files;
    r := Ok(Summary(JoinPath(destination, "texts"), JoinPath(destination, "images"), total));
  }
}
