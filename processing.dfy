// The postprocessing step applied to one OCR result (postprocessing/src/processing.py): the regions
// with text are gathered, corrected by a language model in one batch, and scattered back in place.
module Processing {
  import opened Wrappers
  import opened Text
  import opened JsonValues
  import opened ReportEntities

  /** One region of the model's answer: the corrected text, the entities (as dumped), the confidence. */
  datatype RegionResult = RegionResult(correctedText: string, entities: seq<Json>, confidence: real)

  /** The language model, as a function of the batch of texts; Err when the call raises. */
  type Llm = seq<Json> -> Result<seq<RegionResult>, string>

  /** The answer schema demands exactly one region per text sent. */
  ghost predicate ExactLength(llm: Llm)
  {
    forall texts :: llm(texts).Ok? ==> |llm(texts).value| == |texts|
  }

  /** obj.get("concatenated_text", "") */
  function ConcatenatedText(m: map<string, Json>): Json
  {
    GetOr(m, "concatenated_text", JStr(""))
  }

  /** A region the model must see: a dict with a truthy concatenated_text. */
  predicate HasText(region: Json)
  {
    region.JObj? && Truthy(ConcatenatedText(region.fields))
  }

  /** What a region without text becomes: empty correction, no entities, confidence 0. */
  function Blank(region: Json): (r: Json)
    ensures region.JObj? && !HasText(region) ==>
              r == JObj(region.fields["corrected_text" := JStr("")]["named_entities" := JArr([])]["confidence" := JNum(0.0)])
    ensures !region.JObj? || HasText(region) ==> r == region
  {
    if region.JObj? && !HasText(region) then
      JObj(region.fields["corrected_text" := JStr("")]["named_entities" := JArr([])]["confidence" := JNum(0.0)])
    else region
  }

  /** The i-th result written into its region. */
  function Apply(region: Json, res: RegionResult): Json
  {
    if region.JObj? then
      JObj(region.fields["corrected_text" := JStr(res.correctedText)]["named_entities" := JArr(res.entities)]
                        ["confidence" := JNum(res.confidence)])
    else region
  }

  predicate AllDicts(items: seq<Json>) { forall j :: 0 <= j < |items| ==> items[j].JObj? }

  predicate StrictlyIncreasing(xs: seq<nat>) { forall a, b :: 0 <= a < b < |xs| ==> xs[a] < xs[b] }

  /** The texts sent to the model and the positions of their regions, in region order. */
  function Gather(items: seq<Json>): (r: (seq<Json>, seq<nat>))
    ensures |r.0| == |r.1| && StrictlyIncreasing(r.1)
    ensures forall k :: 0 <= k < |r.1| ==> r.1[k] < |items| && HasText(items[r.1[k]]) && r.0[k] == ConcatenatedText(items[r.1[k]].fields)
    ensures forall j :: 0 <= j < |items| && HasText(items[j]) ==> j in r.1
  {
    if items == [] then ([], [])
    else
      var n := |items| - 1;
      var prev := Gather(items[..n]);
      assert forall j :: 0 <= j < n ==> items[..n][j] == items[j];
      if HasText(items[n]) then (prev.0 + [ConcatenatedText(items[n].fields)], prev.1 + [n]) else prev
  }

  /** The regions after results[..k] are scattered to their positions. */
  function Scatter(regions: seq<Json>, indices: seq<nat>, results: seq<RegionResult>, k: nat): (r: seq<Json>)
    requires k <= |indices| && k <= |results| && forall a :: 0 <= a < |indices| ==> indices[a] < |regions|
    ensures |r| == |regions|
  {
    if k == 0 then regions
    else
      var prev := Scatter(regions, indices, results, k - 1);
      prev[indices[k - 1] := Apply(prev[indices[k - 1]], results[k - 1])]
  }

  /** Every region without text blanked, the others as they were. */
  function Blanked(items: seq<Json>): (r: seq<Json>)
    ensures |r| == |items| && forall j :: 0 <= j < |items| ==> r[j] == Blank(items[j])
  {
    seq(|items|, j requires 0 <= j < |items| => Blank(items[j]))
  }

  /** The gathering loop: it blanks regions in order and stops with AttributeError at the first non-dict. */
  function GatherOutcome(items: seq<Json>): (r: (seq<Json>, Result<(), string>))
  {
    if AllDicts(items) then (Blanked(items), Ok(()))
    else
      var e := FirstNonDict(items);
      (Blanked(items)[..e] + items[e..], Err("AttributeError"))
  }

  /** The scattering loop: results beyond the gathered positions raise IndexError, fewer leave regions as they are. */
  function ScatterOutcome(regions: seq<Json>, indices: seq<nat>, results: seq<RegionResult>): (r: (seq<Json>, Result<(), string>))
    requires forall a :: 0 <= a < |indices| ==> indices[a] < |regions|
  {
    if |results| <= |indices| then (Scatter(regions, indices, results, |results|), Ok(()))
    else (Scatter(regions, indices, results, |indices|), Err("IndexError"))
  }

  /** The batch step on the gathered regions: no call without texts, the call's error raised as is. */
  function BatchOutcome(regions: seq<Json>, texts: seq<Json>, indices: seq<nat>, llm: Llm): (r: (seq<Json>, Result<(), string>))
    requires forall a :: 0 <= a < |indices| ==> indices[a] < |regions|
  {
    if texts == [] then (regions, Ok(()))
    else if llm(texts).Err? then (regions, Err(llm(texts).error))
    else ScatterOutcome(regions, indices, llm(texts).value)
  }

  /** What process_text leaves in the dict and what it returns or raises. */
  function ProcessTextSpec(data: Json, llm: Llm): (r: (Json, Result<(), string>))
  {
    if data.JArr? then (data, if JStr("regions") in data.items then Err("TypeError") else Err("ValueError"))
    else if data.JStr? then (data, if Contains(data.s, "regions") then Err("TypeError") else Err("ValueError"))
    else if !data.JObj? then (data, Err("TypeError"))
    else if "regions" !in data.fields then (data, Err("ValueError"))
    else if Iterate(data.fields["regions"]).Err? then (data, Err(Iterate(data.fields["regions"]).error))
    else if !data.fields["regions"].JArr? then (data, Ok(()))
    else
      var m := data.fields;
      var items := Iterate(m["regions"]).value;
      var gathered := GatherOutcome(items);
      if gathered.1.Err? then (JObj(m["regions" := JArr(gathered.0)]), gathered.1)
      else
        var g := Gather(items);
        var batch := BatchOutcome(gathered.0, g.0, g.1, llm);
        (JObj(m["regions" := JArr(batch.0)]), batch.1)
  }

  /** The position of the first region that is not a dict. */
  function FirstNonDict(items: seq<Json>): (r: nat)
    requires !AllDicts(items)
    ensures r < |items| && !items[r].JObj? && AllDicts(items[..r])
  {
    if !items[0].JObj? then 0
    else
      var r := FirstNonDict(items[1..]) + 1;
      assert forall j :: 0 <= j < r ==> items[..r][j] == (if j == 0 then items[0] else items[1..][..r - 1][j - 1]);
      r
  }

  /** Gathering one more region extends the texts and positions by that region when it has text. */
  lemma GatherStep(items: seq<Json>, i: nat)
    requires i < |items|
    ensures Gather(items[..i + 1]) ==
              var g := Gather(items[..i]);
              if HasText(items[i]) then (g.0 + [ConcatenatedText(items[i].fields)], g.1 + [i]) else g
  {
    assert items[..i + 1][..i] == items[..i];
  }

  /** The first non-dict is the one the loop stops at. */
  lemma FirstNonDictAt(items: seq<Json>, i: nat)
    requires i < |items| && AllDicts(items[..i]) && !items[i].JObj?
    ensures FirstNonDict(items) == i
  {
    var e := FirstNonDict(items);
    assert forall j :: 0 <= j < i ==> items[..i][j] == items[j];
    assert forall j :: 0 <= j < e ==> items[..e][j] == items[j];
  }

  /** The first loop of process_text: blank the regions without text, collect the others' texts and positions. */
  method GatherRegions(items: seq<Json>) returns (regions: seq<Json>, texts: seq<Json>, indices: seq<nat>, r: Result<(), string>)
    ensures (regions, r) == GatherOutcome(items)
    ensures r.Ok? ==> (texts, indices) == Gather(items)
  {
    regions := items;
    texts, indices := [], [];
    assert regions == Blanked(items)[..0] + items[0..];
    for i := 0 to |items|
      invariant AllDicts(items[..i])
      invariant regions == Blanked(items)[..i] + items[i..]
      invariant (texts, indices) == Gather(items[..i])
    {
      var stop;
      regions, texts, indices, stop := GatherNext(items, i, regions, texts, indices);
      if stop {
        return regions, texts, indices, Err("AttributeError");
      }
    }
    assert items[..|items|] == items;
    assert regions == Blanked(items);
    r := Ok(());
  }

  /** One turn of the gathering loop: stop at a region that is not a dict, else blank it or collect its text. */
  method GatherNext(items: seq<Json>, i: nat, regions: seq<Json>, texts: seq<Json>, indices: seq<nat>)
    returns (regions': seq<Json>, texts': seq<Json>, indices': seq<nat>, stop: bool)
    requires i < |items| && AllDicts(items[..i]) && regions == Blanked(items)[..i] + items[i..]
    requires (texts, indices) == Gather(items[..i])
    ensures stop ==> (regions', Err("AttributeError")) == GatherOutcome(items)
    ensures !stop ==> AllDicts(items[..i + 1]) && regions' == Blanked(items)[..i + 1] + items[i + 1..]
                      && (texts', indices') == Gather(items[..i + 1])
  {
    BlankedStep(items, i, regions);
    regions', texts', indices', stop := regions, texts, indices, false;
    var obj := regions[i];
    if !obj.JObj? {
      FirstNonDictAt(items, i);
      return regions, texts, indices, true;
    }
    GatherStep(items, i);
    var text := ConcatenatedText(obj.fields);
    if Truthy(text) {
      texts' := texts + [text];
      indices' := indices + [i];
    } else {
      regions' := regions[i := Blank(obj)];
    }
  }

  /** One turn of the gathering loop over the regions blanked so far. */
  lemma BlankedStep(items: seq<Json>, i: nat, regions: seq<Json>)
    requires i < |items| && regions == Blanked(items)[..i] + items[i..] && AllDicts(items[..i])
    ensures regions[i] == items[i]
    ensures !items[i].JObj? ==> !AllDicts(items)
    ensures items[i].JObj? ==> AllDicts(items[..i + 1])
    ensures regions[i := Blank(items[i])] == Blanked(items)[..i + 1] + items[i + 1..]
    ensures HasText(items[i]) ==> regions == Blanked(items)[..i + 1] + items[i + 1..]
  {
    assert regions[i] == items[i..][0];
    if items[i].JObj? {
      var pre := items[..i + 1];
      forall j | 0 <= j < |pre| ensures pre[j].JObj? {
        if j < i { assert pre[j] == items[..i][j]; }
      }
    }
    var r' := Blanked(items)[..i + 1] + items[i + 1..];
    var upd := regions[i := Blank(items[i])];
    assert |r'| == |upd|;
    forall j | 0 <= j < |upd| ensures upd[j] == r'[j] {
    }
  }

  /** The second loop of process_text: the k-th result goes to the region at the k-th gathered position. */
  method ScatterResults(regions: seq<Json>, indices: seq<nat>, results: seq<RegionResult>) returns (out: seq<Json>, r: Result<(), string>)
    requires forall a :: 0 <= a < |indices| ==> indices[a] < |regions|
    ensures (out, r) == ScatterOutcome(regions, indices, results)
  {
    out := regions;
    var k := 0;
    while k < |results|
      invariant 0 <= k <= |results| && k <= |indices|
      invariant out == Scatter(regions, indices, results, k)
    {
      if k == |indices| {
        return out, Err("IndexError");
      }
      var at := indices[k];
      out := out[at := Apply(out[at], results[k])];
      k := k + 1;
    }
    r := Ok(());
  }

  /**
   * process_text: the dict is changed in place, so the dict as left behind is returned alongside the
   * outcome, including when an exception interrupts the work.
   */
  method ProcessText(data: Json, llm: Llm) returns (out: Json, r: Result<(), string>)
    ensures (out, r) == ProcessTextSpec(data, llm)
  {
    if !data.JObj? {
      var spec := ProcessTextSpec(data, llm);
      return data, spec.1;
    }
    var m := data.fields;
    if "regions" !in m {
      return data, Err("ValueError");
    }
    var listed := Iterate(m["regions"]);
    if listed.Err? {
      return data, Err(listed.error);
    }
    if !m["regions"].JArr? {
      return data, Ok(());
    }
    var items := listed.value;
    var regions, texts, indices, gathered := GatherRegions(items);
    if gathered.Err? {
      return JObj(m["regions" := JArr(regions)]), gathered;
    }
    if texts == [] {
      return JObj(m["regions" := JArr(regions)]), Ok(());
    }
    var response := llm(texts);
    if response.Err? {
      return JObj(m["regions" := JArr(regions)]), Err(response.error);
    }
    var scattered;
    scattered, r := ScatterResults(regions, indices, response.value);
    out := JObj(m["regions" := JArr(scattered)]);
  }

  /** The k-th result lands on the k-th gathered position. */
  lemma {:induction false} ScatterHit(regions: seq<Json>, indices: seq<nat>, results: seq<RegionResult>, k: nat, a: nat)
    requires k <= |indices| && k <= |results| && forall b :: 0 <= b < |indices| ==> indices[b] < |regions|
    requires StrictlyIncreasing(indices) && a < k
    ensures Scatter(regions, indices, results, k)[indices[a]] == Apply(regions[indices[a]], results[a])
  {
    if a < k - 1 {
      ScatterHit(regions, indices, results, k - 1, a);
    } else {
      ScatterMiss(regions, indices, results, k - 1, indices[a]);
    }
  }

  /** A position no scattered result targets keeps its region. */
  lemma {:induction false} ScatterMiss(regions: seq<Json>, indices: seq<nat>, results: seq<RegionResult>, k: nat, j: nat)
    requires k <= |indices| && k <= |results| && forall b :: 0 <= b < |indices| ==> indices[b] < |regions|
    requires StrictlyIncreasing(indices) && j < |regions| && forall b :: 0 <= b < k ==> indices[b] != j
    ensures Scatter(regions, indices, results, k)[j] == regions[j]
  {
    if k > 0 {
      ScatterMiss(regions, indices, results, k - 1, j);
    }
  }

  /** The region list process_text leaves, when there is one. */
  function RegionsOf(out: Json): seq<Json>
  {
    if out.JObj? && "regions" in out.fields && out.fields["regions"].JArr? then out.fields["regions"].items else []
  }

  /** A dict without "regions" raises ValueError and is left as it was. */
  lemma NoRegionsRaises(m: map<string, Json>, llm: Llm)
    requires "regions" !in m
    ensures ProcessTextSpec(JObj(m), llm) == (JObj(m), Err("ValueError"))
  {
  }

  /**
   * Regions given as "" or {} are iterated without a single turn, so the dict comes back as it was:
   * the value is not replaced by a list.
   */
  lemma EmptyRegionsUnchanged(m: map<string, Json>, llm: Llm)
    requires "regions" in m && (m["regions"] == JStr("") || m["regions"] == JObj(map[]))
    ensures ProcessTextSpec(JObj(m), llm) == (JObj(m), Ok(()))
  {
  }

  /** A region value that is neither a list nor empty raises before anything changes. */
  lemma NonListRegionsRaise(m: map<string, Json>, llm: Llm)
    requires "regions" in m && !m["regions"].JArr? && m["regions"] != JStr("") && m["regions"] != JObj(map[])
    ensures ProcessTextSpec(JObj(m), llm).0 == JObj(m) && ProcessTextSpec(JObj(m), llm).1.Err?
  {
  }

  /** process_text never touches a key other than "regions", whatever happens. */
  lemma OtherKeysUntouched(m: map<string, Json>, llm: Llm)
    ensures var out := ProcessTextSpec(JObj(m), llm).0;
            out.JObj? && forall k :: k != "regions" ==> (k in out.fields <==> k in m) && (k in m ==> out.fields[k] == m[k])
  {
  }

  /** Nothing is gathered from regions without text. */
  lemma {:induction false} GatherNone(items: seq<Json>)
    requires forall j :: 0 <= j < |items| ==> !HasText(items[j])
    ensures Gather(items) == ([], [])
  {
    if items != [] {
      GatherNone(items[..|items| - 1]);
    }
  }

  /** Without a region that has text the model is not consulted: any model gives the same outcome. */
  lemma NoTextNoCall(m: map<string, Json>, llm1: Llm, llm2: Llm)
    requires "regions" in m && m["regions"].JArr? && forall j :: 0 <= j < |m["regions"].items| ==> !HasText(m["regions"].items[j])
    ensures ProcessTextSpec(JObj(m), llm1) == ProcessTextSpec(JObj(m), llm2)
  {
    GatherNone(m["regions"].items);
  }

  /**
   * With a list of dict regions and a model that answers one result per text, process_text succeeds;
   * each region without text is blanked, the k-th region with text receives the k-th result, and
   * the list keeps its length and order.
   */
  lemma ProcessTextRegions(m: map<string, Json>, llm: Llm)
    requires "regions" in m && m["regions"].JArr? && AllDicts(m["regions"].items) && ExactLength(llm)
    requires llm(Gather(m["regions"].items).0).Ok? || Gather(m["regions"].items).0 == []
    ensures var items := m["regions"].items;
            var out := ProcessTextSpec(JObj(m), llm);
            var g := Gather(items);
            && out.1 == Ok(())
            && |RegionsOf(out.0)| == |items|
            && (forall j :: 0 <= j < |items| && !HasText(items[j]) ==> RegionsOf(out.0)[j] == Blank(items[j]))
            && (forall k :: 0 <= k < |g.1| ==> RegionsOf(out.0)[g.1[k]] == Apply(items[g.1[k]], llm(g.0).value[k]))
  {
    var items := m["regions"].items;
    var g := Gather(items);
    var blanked := Blanked(items);
    if g.0 == [] {
      assert RegionsOf(ProcessTextSpec(JObj(m), llm).0) == blanked;
    } else {
      var results := llm(g.0).value;
      var out := Scatter(blanked, g.1, results, |results|);
      assert RegionsOf(ProcessTextSpec(JObj(m), llm).0) == out;
      forall j | 0 <= j < |items| && !HasText(items[j])
        ensures out[j] == Blank(items[j])
      {
        ScatterMiss(blanked, g.1, results, |results|, j);
      }
      forall k | 0 <= k < |g.1|
        ensures out[g.1[k]] == Apply(items[g.1[k]], results[k])
      {
        ScatterHit(blanked, g.1, results, |results|, k);
      }
    }
  }
}
