// Entity and text extraction of the report builder (backend/src/services/report/report.py): the key
// fallbacks of _norm_entity and _pick_corrected_text, _iter_text_and_ents, and _group_entities with its
// grouping by type, per-type de-duplication and type reordering. Exceptions are Err(<exception name>).
module ReportEntities {
  import opened Wrappers
  import opened Text
  import opened JsonValues

  // ---- Python conversions ----

  /** str(v): a string as is; any other value through its Python text form, which `show` stands for. */
  function PyStr(v: Json, show: Json -> string): (r: string)
    ensures v.JStr? ==> r == v.s
  {
    if v.JStr? then v.s else show(v)
  }

  /** `d.get(k1) or d.get(k2) or ... or ""`. */
  function FirstOr(m: map<string, Json>, keys: seq<string>): Json
  {
    if keys == [] then JStr("") else Or(Get(m, keys[0]), FirstOr(m, keys[1..]))
  }

  /** The chain yields the value of the first key whose value is truthy, and "" when there is none. */
  lemma {:induction false} FirstOrPicksFirstTruthy(m: map<string, Json>, keys: seq<string>, k: nat)
    requires k <= |keys|
    requires forall j :: 0 <= j < k ==> !Truthy(Get(m, keys[j]))
    ensures k < |keys| && Truthy(Get(m, keys[k])) ==> FirstOr(m, keys) == m[keys[k]]
    ensures k == |keys| ==> FirstOr(m, keys) == JStr("")
  {
    if k > 0 {
      assert !Truthy(Get(m, keys[0]));
      FirstOrPicksFirstTruthy(m, keys[1..], k - 1);
    } else if keys != [] && k == |keys| {
      assert false;
    }
  }

  /**
   * `for x in v` where every x is then used as a dict: a list gives its items, an empty string or dict
   * gives nothing; a non-empty string or dict yields strings (no .get: AttributeError); anything else is
   * not iterable (TypeError).
   */
  function Iterate(v: Json): (r: Result<seq<Json>, string>)
    ensures v.JArr? ==> r == Ok(v.items)
    ensures r.Ok? && !v.JArr? ==> r.value == []
  {
    match v
    case JArr(items) => Ok(items)
    case JStr(s) => if s == "" then Ok([]) else Err("AttributeError")
    case JObj(m) => if m == map[] then Ok([]) else Err("AttributeError")
    case _ => Err("TypeError")
  }

  /** `v or []` iterated: every falsy value gives no items. */
  lemma IterateFalsy(v: Json)
    requires !Truthy(v)
    ensures Iterate(Or(v, JArr([]))) == Ok([])
  {
  }

  // ---- _norm_entity, _pick_corrected_text ----

  const TypeKeys: seq<string> := ["type", "label", "kind", "entity_type"]
  const ValueKeys: seq<string> := ["value", "text", "name", "entity_value"]

  /** _norm_entity: the first truthy type key and the first truthy value key, each as str(); e must be a dict. */
  function NormEntity(e: Json, show: Json -> string): (r: Result<(string, string), string>)
    ensures r.Ok? <==> e.JObj?
  {
    if !e.JObj? then Err("AttributeError")
    else Ok((PyStr(FirstOr(e.fields, TypeKeys), show), PyStr(FirstOr(e.fields, ValueKeys), show)))
  }

  /** _norm_entity with none of the type keys truthy gives the empty type. */
  lemma NormEntityNoType(e: Json, show: Json -> string)
    requires e.JObj? && forall j :: 0 <= j < |TypeKeys| ==> !Truthy(Get(e.fields, TypeKeys[j]))
    ensures NormEntity(e, show).value.0 == ""
  {
    FirstOrPicksFirstTruthy(e.fields, TypeKeys, |TypeKeys|);
  }

  /** _pick_corrected_text: str(data.get("corrected_text") or data.get("text") or ""). */
  function PickCorrectedText(data: map<string, Json>, show: Json -> string): string
  {
    PyStr(FirstOr(data, ["corrected_text", "text"]), show)
  }

  /** A truthy corrected_text wins over text; with neither truthy the text is empty. */
  lemma PickCorrectedTextFallback(data: map<string, Json>, show: Json -> string)
    ensures Truthy(Get(data, "corrected_text")) ==> PickCorrectedText(data, show) == PyStr(data["corrected_text"], show)
    ensures !Truthy(Get(data, "corrected_text")) && Truthy(Get(data, "text")) ==> PickCorrectedText(data, show) == PyStr(data["text"], show)
    ensures !Truthy(Get(data, "corrected_text")) && !Truthy(Get(data, "text")) ==> PickCorrectedText(data, show) == ""
  {
    var keys := ["corrected_text", "text"];
    FirstOrPicksFirstTruthy(data, keys, 0);
    if !Truthy(Get(data, keys[0])) {
      FirstOrPicksFirstTruthy(data, keys, 1);
      if !Truthy(Get(data, keys[1])) {
        FirstOrPicksFirstTruthy(data, keys, 2);
      }
    }
  }

  // ---- _iter_text_and_ents ----

  /** Neither starts nor ends with a blank. */
  predicate Stripped(t: string) { t != [] ==> !IsSpace(t[0]) && !IsSpace(t[|t| - 1]) }

  /** One (text, ents) pair: the stripped text and the raw named_entities value. */
  datatype TextEnts = TextEnts(text: string, ents: Json)

  /** The pair of one region, None when it has neither text nor entities. */
  function RegionPair(reg: Json): (r: Result<Option<TextEnts>, string>)
    ensures r.Ok? && r.value.Some? ==>
      (r.value.value.text != "" || Truthy(r.value.value.ents)) && Stripped(r.value.value.text)
  {
    if !reg.JObj? then Err("AttributeError")
    else
      var raw := FirstOr(reg.fields, ["corrected_text", "concatenated_text"]);
      if !raw.JStr? then Err("AttributeError")
      else
        var text := Strip(raw.s);
        var ents := Or(Get(reg.fields, "named_entities"), JArr([]));
        if text != "" || Truthy(ents) then Ok(Some(TextEnts(text, ents))) else Ok(None)
  }

  /** Every pair has a non-empty stripped text or truthy entities. */
  predicate GoodPairs(ps: seq<TextEnts>)
  {
    forall k :: 0 <= k < |ps| ==> (ps[k].text != "" || Truthy(ps[k].ents)) && Stripped(ps[k].text)
  }

  lemma GoodPairsSnoc(ps: seq<TextEnts>, p: TextEnts)
    requires GoodPairs(ps) && (p.text != "" || Truthy(p.ents)) && Stripped(p.text)
    ensures GoodPairs(ps + [p])
  {
  }

  /** The pairs of the regions, in order; regions with neither text nor entities are skipped. */
  function RegionPairs(regions: seq<Json>): (r: Result<seq<TextEnts>, string>)
    ensures r.Ok? ==> |r.value| <= |regions|
    ensures r.Ok? ==> forall k :: 0 <= k < |r.value| ==> r.value[k].text != "" || Truthy(r.value[k].ents)
    ensures r.Ok? ==> forall k :: 0 <= k < |r.value| ==> Stripped(r.value[k].text)
  {
    if regions == [] then Ok([])
    else
      match RegionPairs(regions[..|regions| - 1])
      case Err(e) => Err(e)
      case Ok(acc) =>
        match RegionPair(regions[|regions| - 1])
        case Err(e) => Err(e)
        case Ok(None) => Ok(acc)
        case Ok(Some(p)) =>
          assert GoodPairs(acc);
          GoodPairsSnoc(acc, p);
          Ok(acc + [p])
  }

  /**
   * _iter_text_and_ents: a dict with "regions" gives the pairs of its regions; any other payload gives
   * exactly one pair, from the top-level corrected_text/text and named_entities.
   */
  function IterTextAndEnts(payload: Json, show: Json -> string): (r: Result<seq<TextEnts>, string>)
    ensures payload.JObj? && "regions" !in payload.fields ==> r.Ok? && |r.value| == 1
    ensures !payload.JObj? ==> r.Err?
  {
    if payload.JObj? && "regions" in payload.fields then
      match Iterate(payload.fields["regions"])
      case Err(e) => Err(e)
      case Ok(regions) => RegionPairs(regions)
    else if !payload.JObj? then Err("AttributeError")
    else
      var m := payload.fields;
      Ok([TextEnts(Strip(PickCorrectedText(m, show)), Or(Get(m, "named_entities"), JArr([])))])
  }


  // ---- _group_entities ----

  /** One entry of the OrderedDict: an entity type and its values. */
  datatype Group = Group(etype: string, values: seq<string>)

  predicate DistinctTypes(g: seq<Group>)
  {
    forall i, j :: 0 <= i < j < |g| ==> g[i].etype != g[j].etype
  }

  /** The position of type t, or -1 (`t in grouped` is FindType(grouped, t) >= 0). */
  function FindType(g: seq<Group>, t: string): (r: int)
    ensures -1 <= r < |g|
    ensures r >= 0 ==> g[r].etype == t
    ensures r < 0 <==> forall i :: 0 <= i < |g| ==> g[i].etype != t
  {
    if g == [] then -1 else if g[|g| - 1].etype == t then |g| - 1 else FindType(g[..|g| - 1], t)
  }

  /** In a sequence with distinct types the position of a type is the only one holding it. */
  lemma FindTypeUnique(g: seq<Group>, t: string, i: int)
    requires DistinctTypes(g) && 0 <= i < |g| && g[i].etype == t
    ensures FindType(g, t) == i
  {
  }

  /** grouped.get(t, []) */
  function Lookup(g: seq<Group>, t: string): seq<string>
  {
    var i := FindType(g, t);
    if i < 0 then [] else g[i].values
  }

  predicate NonEmptyValues(g: seq<Group>)
  {
    forall i :: 0 <= i < |g| ==> g[i].values != []
  }

  /** A pair that _group_entities keeps: its type or its value is non-empty after stripping. */
  predicate Kept(p: (string, string)) { p.0 != "" || p.1 != "" }

  /** grouped[t].append(v), creating the entry at the end when t is new. */
  function AddValue(g: seq<Group>, t: string, v: string): seq<Group>
  {
    var i := FindType(g, t);
    if i < 0 then g + [Group(t, [v])] else g[i := Group(t, g[i].values + [v])]
  }

  /** The grouping loop over the normalised pairs. */
  function Collect(pairs: seq<(string, string)>): seq<Group>
  {
    if pairs == [] then []
    else
      var g := Collect(pairs[..|pairs| - 1]);
      var p := pairs[|pairs| - 1];
      if Kept(p) then AddValue(g, p.0, p.1) else g
  }

  /** The values of the kept pairs of type t, in order. */
  function ValuesOf(pairs: seq<(string, string)>, t: string): seq<string>
  {
    if pairs == [] then []
    else
      var p := pairs[|pairs| - 1];
      ValuesOf(pairs[..|pairs| - 1], t) + (if Kept(p) && p.0 == t then [p.1] else [])
  }

  /** Adding a value keeps the types distinct, extends t's values by v and leaves every other type alone. */
  lemma AddValueLookup(g: seq<Group>, t: string, v: string)
    requires DistinctTypes(g) && NonEmptyValues(g)
    ensures DistinctTypes(AddValue(g, t, v)) && NonEmptyValues(AddValue(g, t, v))
    ensures Lookup(AddValue(g, t, v), t) == Lookup(g, t) + [v]
    ensures forall u :: u != t ==> Lookup(AddValue(g, t, v), u) == Lookup(g, u)
  {
    if FindType(g, t) < 0 {
      AddNewType(g, t, v);
    } else {
      AddKnownType(g, t, v);
    }
  }

  lemma AddNewType(g: seq<Group>, t: string, v: string)
    requires DistinctTypes(g) && FindType(g, t) < 0
    ensures forall u :: FindType(AddValue(g, t, v), u) == if u == t then |g| else FindType(g, u)
  {
    assert AddValue(g, t, v)[..|g|] == g;
  }

  lemma AddKnownType(g: seq<Group>, t: string, v: string)
    requires DistinctTypes(g) && FindType(g, t) >= 0
    ensures DistinctTypes(AddValue(g, t, v))
    ensures forall u :: FindType(AddValue(g, t, v), u) == FindType(g, u)
  {
    var g' := AddValue(g, t, v);
    assert forall k :: 0 <= k < |g| ==> g'[k].etype == g[k].etype;
    forall u ensures FindType(g', u) == FindType(g, u) {
      var k := FindType(g, u);
      if k >= 0 {
        FindTypeUnique(g', u, k);
      }
    }
  }

  /**
   * Grouping puts every kept value under its type, in order, with one entry per type; a type is present
   * exactly when some kept pair has it; dropped pairs leave no trace.
   */
  lemma {:induction false} CollectLookup(pairs: seq<(string, string)>)
    ensures DistinctTypes(Collect(pairs)) && NonEmptyValues(Collect(pairs))
    ensures forall t :: Lookup(Collect(pairs), t) == ValuesOf(pairs, t)
    ensures forall t :: FindType(Collect(pairs), t) >= 0 <==> ValuesOf(pairs, t) != []
  {
    if pairs != [] {
      var init := pairs[..|pairs| - 1];
      var p := pairs[|pairs| - 1];
      CollectLookup(init);
      if Kept(p) {
        AddValueLookup(Collect(init), p.0, p.1);
      }
    }
  }

  // ---- de-duplication ----

  /** The distinct values in order of first occurrence (the seen/unique loop). */
  function Dedup(vals: seq<string>): (r: seq<string>)
    ensures forall i, j :: 0 <= i < j < |r| ==> r[i] != r[j]
    ensures forall v :: v in r <==> v in vals
  {
    if vals == [] then []
    else
      var a := Dedup(vals[..|vals| - 1]);
      var x := vals[|vals| - 1];
      if x in a then a else a + [x]
  }

  /** De-duplication keeps order: the distinct values of a prefix come first, in the same order. */
  lemma {:induction false} DedupPrefix(vals: seq<string>, n: nat)
    requires n <= |vals|
    ensures Dedup(vals[..n]) <= Dedup(vals)
    decreases |vals| - n
  {
    if n < |vals| {
      assert vals[..n + 1][..n] == vals[..n];
      assert Dedup(vals[..n]) <= Dedup(vals[..n + 1]);
      DedupPrefix(vals, n + 1);
    } else {
      assert vals[..n] == vals;
    }
  }

  /** A list without repeats is left as it is. */
  lemma {:induction false} DedupDistinct(vals: seq<string>)
    requires forall i, j :: 0 <= i < j < |vals| ==> vals[i] != vals[j]
    ensures Dedup(vals) == vals
  {
    if vals != [] {
      DedupDistinct(vals[..|vals| - 1]);
    }
  }

  function DedupAll(g: seq<Group>): (r: seq<Group>)
    ensures |r| == |g| && forall i :: 0 <= i < |g| ==> r[i] == Group(g[i].etype, Dedup(g[i].values))
  {
    seq(|g|, i requires 0 <= i < |g| => Group(g[i].etype, Dedup(g[i].values)))
  }

  /** De-duplication does not move entries, so every type keeps its position and gets its distinct values. */
  lemma DedupAllLookup(g: seq<Group>)
    ensures forall t :: FindType(DedupAll(g), t) == FindType(g, t)
    ensures forall t :: Lookup(DedupAll(g), t) == Dedup(Lookup(g, t))
    ensures DistinctTypes(g) ==> DistinctTypes(DedupAll(g))
  {
    forall t ensures FindType(DedupAll(g), t) == FindType(g, t) {
      DedupAllFind(g, t);
    }
  }

  lemma {:induction false} DedupAllFind(g: seq<Group>, t: string)
    ensures FindType(DedupAll(g), t) == FindType(g, t)
  {
    if g != [] {
      assert DedupAll(g)[..|g| - 1] == DedupAll(g[..|g| - 1]);
      DedupAllFind(g[..|g| - 1], t);
    }
  }

  // ---- reordering ----

  /** The first loop of the reordering: the listed types that are present, once each, in list order. */
  function PickListed(g: seq<Group>, order: seq<string>): seq<Group>
  {
    if order == [] then []
    else
      var acc := PickListed(g, order[..|order| - 1]);
      var t := order[|order| - 1];
      var i := FindType(g, t);
      if i < 0 || FindType(acc, t) >= 0 then acc else acc + [g[i]]
  }

  /** The second loop: the entries whose type was not picked, in their order. */
  function Unpicked(g: seq<Group>, picked: seq<Group>): seq<Group>
  {
    if g == [] then []
    else Unpicked(g[..|g| - 1], picked) + (if FindType(picked, g[|g| - 1].etype) < 0 then [g[|g| - 1]] else [])
  }

  function Reorder(g: seq<Group>, order: seq<string>): seq<Group>
  {
    var p := PickListed(g, order);
    p + Unpicked(g, p)
  }

  /** The picked entries are entries of g with distinct listed types, and every present listed type is picked. */
  lemma {:induction false} PickListedFacts(g: seq<Group>, order: seq<string>)
    requires DistinctTypes(g)
    ensures var p := PickListed(g, order);
            DistinctTypes(p) && (forall k :: 0 <= k < |p| ==> p[k] in g && p[k].etype in order)
    ensures forall t :: t in order && FindType(g, t) >= 0 ==> FindType(PickListed(g, order), t) >= 0
  {
    if order != [] {
      var init := order[..|order| - 1];
      PickListedFacts(g, init);
      var acc := PickListed(g, init);
      forall u | u in order && FindType(g, u) >= 0 ensures FindType(PickListed(g, order), u) >= 0 {
        if u != order[|order| - 1] {
          assert u in init;
          var k := FindType(acc, u);
          assert PickListed(g, order)[k] == acc[k];
        }
      }
    }
  }

  /** The unpicked entries are exactly the entries of g whose type is not picked, in order. */
  lemma {:induction false} UnpickedFacts(g: seq<Group>, p: seq<Group>)
    ensures var u := Unpicked(g, p);
            (forall k :: 0 <= k < |u| ==> u[k] in g && FindType(p, u[k].etype) < 0)
            && (forall i :: 0 <= i < |g| && FindType(p, g[i].etype) < 0 ==> g[i] in u)
  {
    if g != [] {
      var init := g[..|g| - 1];
      UnpickedFacts(init, p);
      forall i | 0 <= i < |g| && FindType(p, g[i].etype) < 0 ensures g[i] in Unpicked(g, p) {
        if i < |g| - 1 { assert g[i] == init[i]; }
      }
    }
  }

  /** The unpicked entries of a sequence with distinct types have distinct types. */
  lemma {:induction false} UnpickedDistinct(g: seq<Group>, p: seq<Group>)
    requires DistinctTypes(g)
    ensures DistinctTypes(Unpicked(g, p))
  {
    if g != [] {
      var init := g[..|g| - 1];
      UnpickedDistinct(init, p);
      UnpickedFacts(init, p);
      var ui := Unpicked(init, p);
      forall k | 0 <= k < |ui| ensures ui[k].etype != g[|g| - 1].etype {
        var j :| 0 <= j < |init| && init[j] == ui[k];
      }
    }
  }

  /** An entry of a sequence has its type present there. */
  lemma InFind(g: seq<Group>, x: Group)
    requires x in g
    ensures FindType(g, x.etype) >= 0
  {
  }

  /**
   * The reordered sequence is the picked entries, which carry listed types, followed by the unpicked
   * ones, which carry unlisted types; together they are the entries of g, each once.
   */
  lemma ReorderSplit(g: seq<Group>, order: seq<string>)
    requires DistinctTypes(g)
    ensures var p := PickListed(g, order);
            var r := Reorder(g, order);
            && DistinctTypes(r)
            && (forall k :: 0 <= k < |r| ==> r[k] in g)
            && (forall k :: 0 <= k < |r| ==> (r[k].etype in order <==> k < |p|))
            && (forall x :: x in g ==> x in r)
  {
    var p := PickListed(g, order);
    var u := Unpicked(g, p);
    PickListedFacts(g, order);
    UnpickedFacts(g, p);
    UnpickedDistinct(g, p);
    UnpickedUnlisted(g, order);
    AppendListedUnlisted(p, u, g, order);
    ReorderCovers(g, order);
  }

  /** No unpicked entry carries a listed type. */
  lemma UnpickedUnlisted(g: seq<Group>, order: seq<string>)
    requires DistinctTypes(g)
    ensures var u := Unpicked(g, PickListed(g, order));
      forall k :: 0 <= k < |u| ==> u[k].etype !in order
  {
    var p := PickListed(g, order);
    var u := Unpicked(g, p);
    PickListedFacts(g, order);
    UnpickedFacts(g, p);
    forall k | 0 <= k < |u| ensures u[k].etype !in order {
      InFind(g, u[k]);
    }
  }

  /** Listed entries followed by unlisted ones: types stay distinct and the listed ones come first. */
  lemma AppendListedUnlisted(p: seq<Group>, u: seq<Group>, g: seq<Group>, order: seq<string>)
    requires DistinctTypes(p) && DistinctTypes(u)
    requires forall k :: 0 <= k < |p| ==> p[k] in g && p[k].etype in order
    requires forall k :: 0 <= k < |u| ==> u[k] in g && u[k].etype !in order
    ensures var r := p + u;
      && DistinctTypes(r)
      && (forall k :: 0 <= k < |r| ==> r[k] in g)
      && (forall k :: 0 <= k < |r| ==> (r[k].etype in order <==> k < |p|))
  {
    var r := p + u;
    forall k | 0 <= k < |r| ensures r[k] in g && (r[k].etype in order <==> k < |p|) {
      if k >= |p| {
        assert r[k] == u[k - |p|];
      }
    }
    forall i, j | 0 <= i < j < |r| ensures r[i].etype != r[j].etype {
      if j < |p| {
      } else if i >= |p| {
        assert r[i] == u[i - |p|] && r[j] == u[j - |p|];
      } else {
        assert r[j] == u[j - |p|];
      }
    }
  }

  /** Every entry of g is in the reordered sequence. */
  lemma ReorderCovers(g: seq<Group>, order: seq<string>)
    requires DistinctTypes(g)
    ensures forall x :: x in g ==> x in Reorder(g, order)
  {
    var p := PickListed(g, order);
    var u := Unpicked(g, p);
    var r := Reorder(g, order);
    PickListedFacts(g, order);
    UnpickedFacts(g, p);
    assert r[..|p|] == p && r[|p|..] == u;
    forall x | x in g ensures x in r {
      var i :| 0 <= i < |g| && g[i] == x;
      if FindType(p, x.etype) >= 0 {
        var k := FindType(p, x.etype);
        assert p[k] in g;
        var j :| 0 <= j < |g| && g[j] == p[k];
        assert r[k] == x;
      } else {
        assert x in u;
      }
    }
  }

  /**
   * Reordering keeps the entries: the types stay distinct, the same types are present with the same
   * values, and a type listed in order comes before every unlisted one.
   */
  lemma ReorderKeeps(g: seq<Group>, order: seq<string>)
    requires DistinctTypes(g)
    ensures DistinctTypes(Reorder(g, order))
    ensures forall t :: Lookup(Reorder(g, order), t) == Lookup(g, t)
    ensures forall t :: FindType(Reorder(g, order), t) >= 0 <==> FindType(g, t) >= 0
    ensures var r := Reorder(g, order);
            forall i, j :: 0 <= i < |r| && 0 <= j < |r| && r[i].etype in order && r[j].etype !in order ==> i < j
  {
    var r := Reorder(g, order);
    ReorderSplit(g, order);
    forall t ensures Lookup(r, t) == Lookup(g, t) && (FindType(r, t) >= 0 <==> FindType(g, t) >= 0) {
      var i := FindType(g, t);
      if i >= 0 {
        assert g[i] in g;
        var k :| 0 <= k < |r| && r[k] == g[i];
        FindTypeUnique(r, t, k);
      }
    }
  }

  // ---- the order of the types ----

  /** The position of the first kept pair of type t, or -1. */
  function FirstKept(pairs: seq<(string, string)>, t: string): (r: int)
    ensures -1 <= r < |pairs|
  {
    if pairs == [] then -1
    else
      var f := FirstKept(pairs[..|pairs| - 1], t);
      var p := pairs[|pairs| - 1];
      if f >= 0 then f else if Kept(p) && p.0 == t then |pairs| - 1 else -1
  }

  /** The position of the first occurrence of t in order, or -1. */
  function FirstListed(order: seq<string>, t: string): (r: int)
    ensures -1 <= r < |order|
    ensures r >= 0 <==> t in order
  {
    if order == [] then -1
    else
      var f := FirstListed(order[..|order| - 1], t);
      if f >= 0 then f else if order[|order| - 1] == t then |order| - 1 else -1
  }

  /** An entry with a new type goes at the end and moves no other type. */
  lemma FindTypeSnoc(g: seq<Group>, x: Group)
    requires FindType(g, x.etype) < 0
    ensures forall u :: FindType(g + [x], u) == if u == x.etype then |g| else FindType(g, u)
  {
    assert (g + [x])[..|g|] == g;
  }

  /**
   * Grouping keeps the types in the order of their first kept pair: a type is present exactly when it
   * has a kept pair, and of two present types the one whose first kept pair comes first comes first.
   */
  lemma {:induction false} CollectOrder(pairs: seq<(string, string)>)
    ensures forall t :: FindType(Collect(pairs), t) >= 0 <==> FirstKept(pairs, t) >= 0
    ensures forall t, u :: FindType(Collect(pairs), t) >= 0 && FindType(Collect(pairs), u) >= 0 ==>
              (FindType(Collect(pairs), t) < FindType(Collect(pairs), u) <==> FirstKept(pairs, t) < FirstKept(pairs, u))
  {
    if pairs != [] {
      var init := pairs[..|pairs| - 1];
      var p := pairs[|pairs| - 1];
      CollectOrder(init);
      CollectLookup(init);
      var g := Collect(init);
      if Kept(p) {
        if FindType(g, p.0) < 0 {
          FindTypeSnoc(g, Group(p.0, [p.1]));
        } else {
          AddKnownType(g, p.0, p.1);
        }
      }
    }
  }

  /** A type is picked exactly when it is listed and present. */
  lemma {:induction false} PickListedPresent(g: seq<Group>, order: seq<string>)
    ensures forall t :: FindType(PickListed(g, order), t) >= 0 <==> t in order && FindType(g, t) >= 0
  {
    if order != [] {
      var init := order[..|order| - 1];
      var t := order[|order| - 1];
      PickListedPresent(g, init);
      var acc := PickListed(g, init);
      var i := FindType(g, t);
      assert forall u :: u in order <==> u in init || u == t;
      if i >= 0 && FindType(acc, t) < 0 {
        assert PickListed(g, order) == acc + [g[i]];
        FindTypeSnoc(acc, g[i]);
      } else {
        assert PickListed(g, order) == acc;
      }
    }
  }

  /** Of two picked types the one listed first comes first. */
  lemma {:induction false} PickListedOrder(g: seq<Group>, order: seq<string>)
    ensures forall t, u :: FindType(PickListed(g, order), t) >= 0 && FindType(PickListed(g, order), u) >= 0 ==>
              (FindType(PickListed(g, order), t) < FindType(PickListed(g, order), u) <==> FirstListed(order, t) < FirstListed(order, u))
  {
    if order != [] {
      var init := order[..|order| - 1];
      var t := order[|order| - 1];
      PickListedPresent(g, init);
      PickListedOrder(g, init);
      var acc := PickListed(g, init);
      var i := FindType(g, t);
      assert forall u :: FirstListed(order, u) == if u in init then FirstListed(init, u) else if u == t then |order| - 1 else -1;
      if i >= 0 && FindType(acc, t) < 0 {
        assert PickListed(g, order) == acc + [g[i]];
        FindTypeSnoc(acc, g[i]);
      } else {
        assert PickListed(g, order) == acc;
      }
    }
  }

  /** The unpicked entries keep their order in g. */
  lemma {:induction false} UnpickedOrder(g: seq<Group>, p: seq<Group>)
    requires DistinctTypes(g)
    ensures forall t :: FindType(Unpicked(g, p), t) >= 0 <==> FindType(g, t) >= 0 && FindType(p, t) < 0
    ensures forall t, u :: FindType(Unpicked(g, p), t) >= 0 && FindType(Unpicked(g, p), u) >= 0 ==>
              (FindType(Unpicked(g, p), t) < FindType(Unpicked(g, p), u) <==> FindType(g, t) < FindType(g, u))
  {
    if g != [] {
      var init := g[..|g| - 1];
      var x := g[|g| - 1];
      assert g == init + [x];
      assert DistinctTypes(init) by {
        forall i, j | 0 <= i < j < |init| ensures init[i].etype != init[j].etype {
          assert init[i] == g[i] && init[j] == g[j];
        }
      }
      assert FindType(init, x.etype) < 0 by {
        forall i | 0 <= i < |init| ensures init[i].etype != x.etype {
          assert init[i] == g[i];
        }
      }
      UnpickedOrder(init, p);
      FindTypeSnoc(init, x);
      var u0 := Unpicked(init, p);
      if FindType(p, x.etype) < 0 {
        assert Unpicked(g, p) == u0 + [x];
        FindTypeSnoc(u0, x);
      } else {
        assert Unpicked(g, p) == u0;
      }
    }
  }

  /** The position of a type in a concatenation: in the second part if it is there, else in the first. */
  lemma {:induction false} FindTypeAppend(p: seq<Group>, u: seq<Group>, t: string)
    ensures FindType(p + u, t) == if FindType(u, t) >= 0 then |p| + FindType(u, t) else FindType(p, t)
  {
    if u == [] {
      assert p + u == p;
    } else {
      var init := u[..|u| - 1];
      assert (p + u)[..|p + u| - 1] == p + init;
      FindTypeAppend(p, init, t);
    }
  }

  /**
   * Reordering puts the listed types present in g first, in the order of their first listing, and the
   * unlisted types after them in their order in g.
   */
  lemma ReorderOrder(g: seq<Group>, order: seq<string>)
    requires DistinctTypes(g)
    ensures forall t, u :: t in order && u in order && FindType(g, t) >= 0 && FindType(g, u) >= 0 ==>
              (FindType(Reorder(g, order), t) < FindType(Reorder(g, order), u) <==> FirstListed(order, t) < FirstListed(order, u))
    ensures forall t, u :: t !in order && u !in order && FindType(g, t) >= 0 && FindType(g, u) >= 0 ==>
              (FindType(Reorder(g, order), t) < FindType(Reorder(g, order), u) <==> FindType(g, t) < FindType(g, u))
  {
    var p := PickListed(g, order);
    var rest := Unpicked(g, p);
    PickListedPresent(g, order);
    PickListedOrder(g, order);
    UnpickedOrder(g, p);
    forall t {
      FindTypeAppend(p, rest, t);
    }
  }

  // ---- the whole grouping ----

  /** The pairs _group_entities iterates over: each entity normalised, then both halves stripped. */
  function NormPairs(ents: seq<Json>, show: Json -> string): Result<seq<(string, string)>, string>
  {
    if ents == [] then Ok([])
    else
      match NormPairs(ents[..|ents| - 1], show)
      case Err(e) => Err(e)
      case Ok(acc) =>
        match NormEntity(ents[|ents| - 1], show)
        case Err(e) => Err(e)
        case Ok(p) => Ok(acc + [(Strip(p.0), Strip(p.1))])
  }

  /** _group_entities(ents, order=order, deduplicate=dedup): group, then de-duplicate, then reorder when order is non-empty. */
  function GroupEntitiesSpec(ents: Json, order: seq<string>, dedup: bool, show: Json -> string): Result<seq<Group>, string>
  {
    match Iterate(Or(ents, JArr([])))
    case Err(e) => Err(e)
    case Ok(items) =>
      match NormPairs(items, show)
      case Err(e) => Err(e)
      case Ok(pairs) =>
        var g := Collect(pairs);
        var g2 := if dedup then DedupAll(g) else g;
        Ok(if order != [] then Reorder(g2, order) else g2)
  }

  /** One more entity: its normalised pair is appended, or its failure becomes the result. */
  lemma NormPairsStep(ents: seq<Json>, i: nat, show: Json -> string)
    requires i < |ents|
    ensures NormPairs(ents[..i + 1], show) ==
            match NormPairs(ents[..i], show)
            case Err(e) => Err(e)
            case Ok(acc) =>
              match NormEntity(ents[i], show)
              case Err(e) => Err(e)
              case Ok(p) => Ok(acc + [(Strip(p.0), Strip(p.1))])
  {
    assert ents[..i + 1][..i] == ents[..i];
  }

  lemma NormPairsSnoc(ents: seq<Json>, i: nat, show: Json -> string, acc: seq<(string, string)>, p: (string, string))
    requires i < |ents| && NormPairs(ents[..i], show) == Ok(acc) && NormEntity(ents[i], show) == Ok(p)
    ensures NormPairs(ents[..i + 1], show) == Ok(acc + [(Strip(p.0), Strip(p.1))])
  {
    NormPairsStep(ents, i, show);
  }

  /** The first entity that fails to normalise decides the result. */
  lemma {:induction false} NormPairsFailsAt(ents: seq<Json>, i: nat, show: Json -> string, acc: seq<(string, string)>)
    requires i < |ents| && NormPairs(ents[..i], show) == Ok(acc) && NormEntity(ents[i], show).Err?
    ensures NormPairs(ents, show) == Err(NormEntity(ents[i], show).error)
  {
    NormPairsFailStep(ents, i, show, acc);
    NormPairsErrSticks(ents, show, i + 1);
  }

  /** A dict-less entity after a normalised prefix raises its AttributeError. */
  lemma NormPairsFailStep(ents: seq<Json>, i: nat, show: Json -> string, acc: seq<(string, string)>)
    requires i < |ents| && NormPairs(ents[..i], show) == Ok(acc) && NormEntity(ents[i], show).Err?
    ensures NormPairs(ents[..i + 1], show) == Err(NormEntity(ents[i], show).error)
    ensures NormEntity(ents[i], show).error == "AttributeError"
  {
    NormPairsStep(ents, i, show);
  }

  /** Once a normalisation fails, the longer prefixes fail with the same error. */
  lemma {:induction false} NormPairsErrSticks(ents: seq<Json>, show: Json -> string, n: nat)
    requires n <= |ents| && NormPairs(ents[..n], show).Err?
    ensures NormPairs(ents, show) == NormPairs(ents[..n], show)
    decreases |ents| - n
  {
    if n < |ents| {
      NormPairsStep(ents, n, show);
      NormPairsErrSticks(ents, show, n + 1);
    } else {
      assert ents[..n] == ents;
    }
  }

  /** The grouping step on one more pair. */
  lemma CollectStep(pairs: seq<(string, string)>, p: (string, string))
    ensures Collect(pairs + [p]) == if Kept(p) then AddValue(Collect(pairs), p.0, p.1) else Collect(pairs)
  {
    assert (pairs + [p])[..|pairs|] == pairs;
  }

  /** The grouping loop of _group_entities. */
  method CollectGroups(items: seq<Json>, show: Json -> string) returns (r: Result<seq<Group>, string>)
    ensures NormPairs(items, show).Err? ==> r == Err(NormPairs(items, show).error)
    ensures NormPairs(items, show).Ok? ==> r == Ok(Collect(NormPairs(items, show).value))
  {
    var grouped: seq<Group> := [];
    ghost var pairs: seq<(string, string)> := [];
    var i := 0;
    while i < |items|
      invariant 0 <= i <= |items|
      invariant NormPairs(items[..i], show) == Ok(pairs)
      invariant grouped == Collect(pairs)
    {
      var ne := NormEntity(items[i], show);
      if ne.Err? {
        NormPairsFailsAt(items, i, show, pairs);
        return Err(ne.error);
      }
      var etype := Strip(ne.value.0);
      var eval := Strip(ne.value.1);
      NormPairsSnoc(items, i, show, pairs, ne.value);
      CollectStep(pairs, (etype, eval));
      pairs := pairs + [(etype, eval)];
      grouped := AddEntity(grouped, etype, eval);
      i := i + 1;
    }
    assert items[..|items|] == items;
    return Ok(grouped);
  }

  /** The body of the grouping loop: the value goes under its type unless both are blank. */
  method AddEntity(grouped: seq<Group>, etype: string, eval: string) returns (g: seq<Group>)
    ensures g == if Kept((etype, eval)) then AddValue(grouped, etype, eval) else grouped
  {
    g := grouped;
    if etype != "" || eval != "" {
      var k := FindType(g, etype);
      if k < 0 {
        g := g + [Group(etype, [eval])];
      } else {
        g := g[k := Group(etype, g[k].values + [eval])];
      }
    }
  }

  /** The de-duplication loops: each entry's values replaced by the first occurrences, in place. */
  method DedupGroups(g0: seq<Group>) returns (grouped: seq<Group>)
    ensures grouped == DedupAll(g0)
  {
    grouped := g0;
    for k := 0 to |g0|
      invariant |grouped| == |g0|
      invariant forall j :: 0 <= j < k ==> grouped[j] == Group(g0[j].etype, Dedup(g0[j].values))
      invariant forall j :: k <= j < |g0| ==> grouped[j] == g0[j]
    {
      var unique := DedupValues(grouped[k].values);
      grouped := grouped[k := Group(grouped[k].etype, unique)];
    }
  }

  /** The inner loop: a value is kept the first time it is seen. */
  method DedupValues(vals: seq<string>) returns (unique: seq<string>)
    ensures unique == Dedup(vals)
  {
    var seen: set<string> := {};
    unique := [];
    for m := 0 to |vals|
      invariant unique == Dedup(vals[..m])
      invariant seen == set v | v in unique
    {
      assert vals[..m + 1][..m] == vals[..m];
      if vals[m] !in seen {
        seen := seen + {vals[m]};
        unique := unique + [vals[m]];
      }
    }
    assert vals[..|vals|] == vals;
  }

  /** The reordering loops: listed types first, in list order, then the rest in their order. */
  method ReorderGroups(grouped: seq<Group>, order: seq<string>) returns (ordered: seq<Group>)
    ensures ordered == Reorder(grouped, order)
  {
    ordered := [];
    var i := 0;
    while i < |order|
      invariant 0 <= i <= |order|
      invariant ordered == PickListed(grouped, order[..i])
    {
      assert order[..i + 1][..i] == order[..i];
      var t := order[i];
      var k := FindType(grouped, t);
      if k >= 0 && FindType(ordered, t) < 0 {
        ordered := ordered + [grouped[k]];
      }
      i := i + 1;
    }
    assert order[..|order|] == order;
    var picked := ordered;
    var j := 0;
    while j < |grouped|
      invariant 0 <= j <= |grouped|
      invariant ordered == picked + Unpicked(grouped[..j], picked)
    {
      assert grouped[..j + 1][..j] == grouped[..j];
      if FindType(picked, grouped[j].etype) < 0 {
        ordered := ordered + [grouped[j]];
      }
      j := j + 1;
    }
    assert grouped[..|grouped|] == grouped;
  }

  /** _group_entities. */
  method GroupEntities(ents: Json, order: seq<string>, dedup: bool, show: Json -> string) returns (r: Result<seq<Group>, string>)
    ensures r == GroupEntitiesSpec(ents, order, dedup, show)
  {
    var items := Iterate(Or(ents, JArr([])));
    if items.Err? {
      return Err(items.error);
    }
    var c := CollectGroups(items.value, show);
    if c.Err? {
      return Err(c.error);
    }
    var grouped := c.value;
    if dedup {
      grouped := DedupGroups(grouped);
    }
    if order != [] {
      grouped := ReorderGroups(grouped, order);
    }
    return Ok(grouped);
  }

  /**
   * What _group_entities promises about its result g for the normalised pairs: one entry per type; a
   * type is present exactly when some kept pair has it; its values are all of them in order, or their
   * first occurrences with dedup; without an order the types come in the order of their first kept
   * pair; with one, the listed types come first in the order of their first listing and the unlisted
   * ones follow in the order of their first kept pair.
   */
  lemma GroupingShape(pairs: seq<(string, string)>, order: seq<string>, dedup: bool)
    ensures var g1 := Collect(pairs);
            var g2 := if dedup then DedupAll(g1) else g1;
            var g := if order != [] then Reorder(g2, order) else g2;
            && DistinctTypes(g)
            && (forall t :: FindType(g, t) >= 0 <==> ValuesOf(pairs, t) != [])
            && (forall t :: Lookup(g, t) == if dedup then Dedup(ValuesOf(pairs, t)) else ValuesOf(pairs, t))
            && (order != [] ==> forall i, j :: 0 <= i < |g| && 0 <= j < |g| && g[i].etype in order && g[j].etype !in order ==> i < j)
            && (forall t, u :: FindType(g, t) >= 0 && FindType(g, u) >= 0 && (order == [] || (t !in order && u !in order)) ==>
                  (FindType(g, t) < FindType(g, u) <==> FirstKept(pairs, t) < FirstKept(pairs, u)))
            && (forall t, u :: FindType(g, t) >= 0 && FindType(g, u) >= 0 && t in order && u in order ==>
                  (FindType(g, t) < FindType(g, u) <==> FirstListed(order, t) < FirstListed(order, u)))
  {
    GroupingContents(pairs, order, dedup);
    GroupingOrder(pairs, order, dedup);
  }

  /** The entries of the grouping: distinct types, present when kept, with their values. */
  lemma GroupingContents(pairs: seq<(string, string)>, order: seq<string>, dedup: bool)
    ensures var g1 := Collect(pairs);
            var g2 := if dedup then DedupAll(g1) else g1;
            var g := if order != [] then Reorder(g2, order) else g2;
            && DistinctTypes(g)
            && (forall t :: FindType(g, t) >= 0 <==> ValuesOf(pairs, t) != [])
            && (forall t :: Lookup(g, t) == if dedup then Dedup(ValuesOf(pairs, t)) else ValuesOf(pairs, t))
            && (order != [] ==> forall i, j :: 0 <= i < |g| && 0 <= j < |g| && g[i].etype in order && g[j].etype !in order ==> i < j)
  {
    var g1 := Collect(pairs);
    CollectLookup(pairs);
    var g2 := if dedup then DedupAll(g1) else g1;
    DedupAllLookup(g1);
    if order != [] {
      ReorderKeeps(g2, order);
    }
  }

  /** The type order of the grouping. */
  lemma GroupingOrder(pairs: seq<(string, string)>, order: seq<string>, dedup: bool)
    ensures var g1 := Collect(pairs);
            var g2 := if dedup then DedupAll(g1) else g1;
            var g := if order != [] then Reorder(g2, order) else g2;
            && (forall t, u :: FindType(g, t) >= 0 && FindType(g, u) >= 0 && (order == [] || (t !in order && u !in order)) ==>
                  (FindType(g, t) < FindType(g, u) <==> FirstKept(pairs, t) < FirstKept(pairs, u)))
            && (forall t, u :: FindType(g, t) >= 0 && FindType(g, u) >= 0 && t in order && u in order ==>
                  (FindType(g, t) < FindType(g, u) <==> FirstListed(order, t) < FirstListed(order, u)))
  {
    var g1 := Collect(pairs);
    CollectLookup(pairs);
    var g2 := if dedup then DedupAll(g1) else g1;
    DedupAllLookup(g1);
    TypeOrder(pairs, g2, order);
  }

  /** The type order of a grouping whose entries sit where Collect put them, reordered when order is non-empty. */
  lemma TypeOrder(pairs: seq<(string, string)>, g2: seq<Group>, order: seq<string>)
    requires DistinctTypes(g2) && forall t :: FindType(g2, t) == FindType(Collect(pairs), t)
    ensures var g := if order != [] then Reorder(g2, order) else g2;
            && (forall t, u :: FindType(g, t) >= 0 && FindType(g, u) >= 0 && (order == [] || (t !in order && u !in order)) ==>
                  (FindType(g, t) < FindType(g, u) <==> FirstKept(pairs, t) < FirstKept(pairs, u)))
            && (forall t, u :: FindType(g, t) >= 0 && FindType(g, u) >= 0 && t in order && u in order ==>
                  (FindType(g, t) < FindType(g, u) <==> FirstListed(order, t) < FirstListed(order, u)))
  {
    CollectOrder(pairs);
    if order != [] {
      ReorderKeeps(g2, order);
      ReorderOrder(g2, order);
    }
  }
}
