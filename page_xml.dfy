// ml/page_xml/xmlPAGE.py: the pageData builder of PAGE XML documents (new_page, add_element,
// remove_element, add_baseline) and the two readers of an element's id and region type.
module PageXml {
  import opened Wrappers
  import opened Text

  // ---- elements ----

  /** An attribute value: ElementTree stores whatever it is given; new_page stores integers. */
  datatype Attr = AStr(s: string) | AInt(i: int)

  /** str(i) for an integer. */
  function IntStr(i: int): (r: string)
    ensures r != [] && (r[0] == '-' <==> i < 0)
  {
    if i < 0 then "-" + NatToStr(-i) else NatToStr(i)
  }

  /** str() of an attribute value. */
  function AttrStr(a: Attr): string
  {
    match a
    case AStr(s) => s
    case AInt(i) => IntStr(i)
  }

  /** An ElementTree element: its tag, attributes, text and children in document order. */
  datatype Elem = Elem(tag: string, attrib: map<string, Attr>, text: Option<string>, children: seq<Elem>)

  /** An element of the document is addressed by the child indices that lead to it from the root. */
  predicate ValidPath(e: Elem, p: seq<nat>)
    decreases |p|
  {
    p == [] || (p[0] < |e.children| && ValidPath(e.children[p[0]], p[1..]))
  }

  /** The element at path p. */
  function At(e: Elem, p: seq<nat>): Elem
    requires ValidPath(e, p)
    decreases |p|
  {
    if p == [] then e else At(e.children[p[0]], p[1..])
  }

  /** The two edits pageData makes to an element: SubElement appends a child, remove drops one. */
  datatype Edit = Append(child: Elem) | Remove(index: nat)

  function Apply(x: Elem, ed: Edit): (r: Elem)
    requires ed.Remove? ==> ed.index < |x.children|
    ensures r.tag == x.tag && r.attrib == x.attrib && r.text == x.text
    ensures ed.Append? ==> r.children == x.children + [ed.child]
    ensures ed.Remove? ==> r.children == x.children[..ed.index] + x.children[ed.index + 1..]
  {
    match ed
    case Append(c) => x.(children := x.children + [c])
    case Remove(k) => x.(children := x.children[..k] + x.children[k + 1..])
  }

  predicate Applicable(x: Elem, ed: Edit)
  {
    ed.Remove? ==> ed.index < |x.children|
  }

  /** The document with the element at path p edited in place. */
  function Modify(e: Elem, p: seq<nat>, ed: Edit): Elem
    requires ValidPath(e, p) && Applicable(At(e, p), ed)
    decreases |p|
  {
    if p == [] then Apply(e, ed)
    else e.(children := e.children[p[0] := Modify(e.children[p[0]], p[1..], ed)])
  }

  /** The edited element is the edit of the old one. */
  lemma {:induction false} ModifyAt(e: Elem, p: seq<nat>, ed: Edit)
    requires ValidPath(e, p) && Applicable(At(e, p), ed)
    ensures ValidPath(Modify(e, p, ed), p) && At(Modify(e, p, ed), p) == Apply(At(e, p), ed)
    decreases |p|
  {
    if p != [] {
      ModifyAt(e.children[p[0]], p[1..], ed);
    }
  }

  /** An element outside the edited one, and not above it, is unchanged and at the same path. */
  lemma {:induction false} ModifyAway(e: Elem, p: seq<nat>, ed: Edit, q: seq<nat>)
    requires ValidPath(e, p) && Applicable(At(e, p), ed) && ValidPath(e, q)
    requires !(p <= q) && !(q <= p)
    ensures ValidPath(Modify(e, p, ed), q) && At(Modify(e, p, ed), q) == At(e, q)
    decreases |p|
  {
    if p[0] == q[0] {
      ModifyAway(e.children[p[0]], p[1..], ed, q[1..]);
    }
  }

  /** The elements above the edited one keep their paths. */
  lemma {:induction false} ModifyKeepsAncestors(e: Elem, p: seq<nat>, ed: Edit, q: seq<nat>)
    requires ValidPath(e, p) && Applicable(At(e, p), ed) && q <= p
    ensures ValidPath(Modify(e, p, ed), q)
    decreases |p|
  {
    if q != [] {
      ModifyKeepsAncestors(e.children[p[0]], p[1..], ed, q[1..]);
    }
  }

  /** A path that runs through p: first to p, then on from there. */
  lemma {:induction false} AtAppend(e: Elem, p: seq<nat>, r: seq<nat>)
    requires ValidPath(e, p)
    ensures ValidPath(e, p + r) <==> ValidPath(At(e, p), r)
    ensures ValidPath(e, p + r) ==> At(e, p + r) == At(At(e, p), r)
    decreases |p|
  {
    if p != [] {
      assert (p + r)[0] == p[0] && (p + r)[1..] == p[1..] + r;
      var c := e.children[p[0]];
      AtAppend(c, p[1..], r);
      assert At(e, p) == At(c, p[1..]);
      assert ValidPath(e, p + r) <==> ValidPath(c, p[1..] + r);
      if ValidPath(e, p + r) {
        assert At(e, p + r) == At(c, p[1..] + r);
      }
    } else {
      assert p + r == r;
    }
  }

  /** Appending below p changes no path: every element keeps its place. */
  lemma {:induction false} AppendKeepsPaths(e: Elem, p: seq<nat>, c: Elem, q: seq<nat>)
    requires ValidPath(e, p) && ValidPath(e, q)
    ensures ValidPath(Modify(e, p, Append(c)), q)
    decreases |p|
  {
    if p != [] && q != [] && p[0] == q[0] {
      AppendKeepsPaths(e.children[p[0]], p[1..], c, q[1..]);
    }
  }

  /** Where the element at q sits once child k of the element at parent is removed: None for that child and what it holds. */
  function AfterRemoval(q: seq<nat>, parent: seq<nat>, k: nat): Option<seq<nat>>
  {
    if |parent| < |q| && q[..|parent|] == parent then
      if q[|parent|] == k then None
      else if q[|parent|] > k then Some(q[|parent| := q[|parent|] - 1])
      else Some(q)
    else Some(q)
  }

  /** Below the parent, a sibling c of the removed child k, and all it holds, moves to index c - 1 when it came after k. */
  lemma RemovalKeepsSibling(e: Elem, parent: seq<nat>, k: nat, c: nat, rest: seq<nat>)
    requires ValidPath(e, parent) && k < |At(e, parent).children| && c != k
    requires ValidPath(e, parent + ([c] + rest))
    ensures var d, c' := Modify(e, parent, Remove(k)), if c > k then c - 1 else c;
      ValidPath(d, parent + ([c'] + rest)) && At(d, parent + ([c'] + rest)) == At(e, parent + ([c] + rest))
  {
    var d := Modify(e, parent, Remove(k));
    var c' := if c > k then c - 1 else c;
    ModifyAt(e, parent, Remove(k));
    AtAppend(e, parent, [c] + rest);
    AtAppend(d, parent, [c'] + rest);
    var x := At(e, parent);
    assert ([c] + rest)[1..] == rest && ([c'] + rest)[1..] == rest;
    assert At(d, parent).children[c'] == x.children[c];
  }

  /**
   * remove_element leaves every other element in place: an element outside the removed child is
   * still in the document, at its new path, and unchanged unless it contains the parent.
   */
  lemma RemovalKeepsOthers(e: Elem, parent: seq<nat>, k: nat, q: seq<nat>)
    requires ValidPath(e, parent) && k < |At(e, parent).children| && ValidPath(e, q)
    requires AfterRemoval(q, parent, k).Some?
    ensures var d, q' := Modify(e, parent, Remove(k)), AfterRemoval(q, parent, k).value;
      ValidPath(d, q') && (!(q <= parent) ==> At(d, q') == At(e, q))
  {
    if q <= parent {
      ModifyKeepsAncestors(e, parent, Remove(k), q);
    } else if |parent| < |q| && q[..|parent|] == parent {
      var c := q[|parent|];
      var rest := q[|parent| + 1..];
      assert q == parent + ([c] + rest);
      assert AfterRemoval(q, parent, k).value == parent + ([if c > k then c - 1 else c] + rest);
      RemovalKeepsSibling(e, parent, k, c, rest);
    } else {
      assert !(parent <= q);
      ModifyAway(e, parent, Remove(k), q);
    }
  }

  // ---- the pattern of get_region_type ----

  /** The index of the first newline, or |s|: `.` matches no newline. */
  function LineEnd(s: string): (r: nat)
    ensures r <= |s|
    ensures forall q :: 0 <= q < r ==> s[q] != '\n'
    ensures r < |s| ==> s[r] == '\n'
  {
    if s == [] || s[0] == '\n' then 0 else 1 + LineEnd(s[1..])
  }

  /** The last index p <= bound at which pat occurs in s, or -1. */
  function LastOccurrence(s: string, pat: string, bound: int): (r: int)
    ensures r == -1 || 0 <= r <= bound
    ensures r >= 0 ==> OccursAt(s, pat, r)
    ensures forall p :: r < p <= bound ==> !OccursAt(s, pat, p)
    decreases if bound < 0 then 0 else bound + 1
  {
    if bound < 0 then -1
    else if OccursAt(s, pat, bound) then bound
    else LastOccurrence(s, pat, bound - 1)
  }

  /**
   * One way re.match(r".*structure {.*type:(.*);.*}", s) succeeds: "structure {" at i, "type:"
   * at j after it, the group ending at the ';' at k, a '}' at m after that, and no newline
   * before m. Group 1 is then s[j + 5..k].
   */
  predicate Match(s: string, i: int, j: int, k: int, m: int)
  {
    0 <= i && i + 11 <= j && j + 5 <= k < m < |s|
    && OccursAt(s, "structure {", i) && OccursAt(s, "type:", j) && s[k] == ';' && s[m] == '}'
    && forall q :: 0 <= q < m ==> s[q] != '\n'
  }

  /**
   * The positions (i, j, k, m) of the greedy match, or i == -1 when the pattern does not match:
   * every `.*` takes as much as it can, so the match taken has the latest '}' on the first line,
   * the latest ';' before it, the latest "type:" that leaves room for the group, and the latest
   * "structure {" before that.
   */
  function Latest(s: string): (r: (int, int, int, int))
    ensures r.0 >= 0 ==> r.0 + 11 <= r.1 && r.1 + 5 <= r.2 && r.2 < r.3 < |s|
  {
    var line := s[..LineEnd(s)];
    var m := LastIndexOf(line, '}');
    if m < 0 then (-1, -1, -1, -1)
    else
      var k := LastIndexOf(line[..m], ';');
      if k < 0 then (-1, -1, -1, -1)
      else
        var j := LastOccurrence(line, "type:", k - 5);
        if j < 0 then (-1, -1, -1, -1)
        else
          var i := LastOccurrence(line, "structure {", j - 11);
          if i < 0 then (-1, -1, -1, -1) else (i, j, k, m)
  }

  /** get_region_type's re.match(...).group(1), or None when the pattern does not match. */
  function RegionType(s: string): Option<string>
  {
    var (i, j, k, m) := Latest(s);
    if i < 0 then None else Some(s[j + 5..k])
  }

  /** An occurrence inside the first line is one in the whole string. */
  lemma OccursInLine(s: string, n: nat, pat: string, p: int)
    requires n <= |s|
    ensures OccursAt(s[..n], pat, p) ==> OccursAt(s, pat, p)
    ensures OccursAt(s, pat, p) && p + |pat| <= n ==> OccursAt(s[..n], pat, p)
  {
    if 0 <= p && p + |pat| <= n {
      assert s[..n][p..p + |pat|] == s[p..p + |pat|];
    }
  }

  /** The greedy positions form a match. */
  lemma LatestMatches(s: string)
    requires Latest(s).0 >= 0
    ensures Match(s, Latest(s).0, Latest(s).1, Latest(s).2, Latest(s).3)
  {
    var n := LineEnd(s);
    var line := s[..n];
    var (i, j, k, m) := Latest(s);
    OccursInLine(s, n, "type:", j);
    OccursInLine(s, n, "structure {", i);
    assert line[..m][k] == ';';
  }

  /** Every match lies at or before the greedy positions, so the pattern matches only when Latest finds one. */
  lemma LatestIsLast(s: string, i: int, j: int, k: int, m: int)
    requires Match(s, i, j, k, m)
    ensures Latest(s).0 >= 0 && i <= Latest(s).0 && j <= Latest(s).1 && k <= Latest(s).2 && m <= Latest(s).3
  {
    var n := LineEnd(s);
    var line := s[..n];
    assert m < n;
    assert line[m] == '}';
    var m0 := LastIndexOf(line, '}');
    assert line[..m0][k] == ';';
    var k0 := LastIndexOf(line[..m0], ';');
    OccursInLine(s, n, "type:", j);
    var j0 := LastOccurrence(line, "type:", k0 - 5);
    OccursInLine(s, n, "structure {", i);
  }

  /**
   * RegionType succeeds exactly when the pattern matches, and then returns the group of the
   * match that is latest in every position, the one Python's backtracking settles on.
   */
  lemma RegionTypeSpec(s: string)
    ensures RegionType(s).Some? <==> exists i, j, k, m :: Match(s, i, j, k, m)
    ensures RegionType(s).Some? ==>
      exists i, j, k, m :: Match(s, i, j, k, m) && RegionType(s).value == s[j + 5..k]
        && forall i', j', k', m' :: Match(s, i', j', k', m') ==> i' <= i && j' <= j && k' <= k
  {
    var (i, j, k, m) := Latest(s);
    forall i', j', k', m' | Match(s, i', j', k', m') ensures i' <= i && j' <= j && k' <= k && i >= 0 {
      LatestIsLast(s, i', j', k', m');
    }
    if i >= 0 {
      LatestMatches(s);
    }
  }

  /** The custom attribute add_element writes. */
  function Custom(rType: string): string
  {
    "structure {type:" + rType + ";}"
  }

  /** The first 16 characters of add_element's custom attribute. */
  lemma CustomHead(t: string)
    ensures var s := Custom(t);
      && |s| == |t| + 18 && s[..11] == "structure {" && s[11..16] == "type:"
      && (forall q :: 11 < q < 16 ==> !OccursAt(s, "type:", q))
      && (forall q :: 0 <= q < 16 ==> s[q] != '\n')
  {
    var head := "structure {type:";
    var s := Custom(t);
    assert s == head + t + ";}";
    assert forall q :: 0 <= q < 16 ==> s[q] == head[q];
    forall q | 11 < q < 16 ensures !OccursAt(s, "type:", q) {
      assert s[q] != 't';
      if q + 5 <= |s| {
        assert s[q..q + 5][0] == s[q];
      }
    }
  }

  /** The rest of add_element's custom attribute: the type, then ";}". */
  lemma CustomTail(t: string)
    ensures var s := Custom(t);
      && |s| == |t| + 18 && s[16..16 + |t|] == t && s[16 + |t|] == ';' && s[17 + |t|] == '}'
  {
    var s := Custom(t);
    assert s == "structure {type:" + t + ";}";
  }

  /** The custom attribute is one line when the type is. */
  lemma CustomLine(t: string)
    requires forall q :: 0 <= q < |t| ==> t[q] != '\n'
    ensures LineEnd(Custom(t)) == |Custom(t)|
  {
    var s := Custom(t);
    CustomHead(t);
    CustomTail(t);
    forall q | 16 <= q < 16 + |t| ensures s[q] != '\n' {
      assert s[q] == s[16..16 + |t|][q - 16];
    }
  }

  /** An occurrence inside a slice is an occurrence in the slice. */
  lemma OccursInSlice(s: string, a: nat, b: nat, pat: string, p: int)
    requires a <= b <= |s| && OccursAt(s, pat, p) && a <= p && p + |pat| <= b
    ensures OccursAt(s[a..b], pat, p - a)
  {
    forall q | 0 <= q < |pat| ensures s[a..b][p - a + q] == pat[q] {
      assert s[p..p + |pat|][q] == pat[q];
    }
  }

  /** Without "type:" in the type, the last "type:" of the custom attribute before its ';' is the one at 11. */
  lemma CustomLastType(t: string)
    requires forall p :: !OccursAt(t, "type:", p)
    ensures LastOccurrence(Custom(t), "type:", 11 + |t|) == 11
  {
    var s := Custom(t);
    CustomHead(t);
    CustomTail(t);
    forall p | 16 <= p <= 11 + |t| ensures !OccursAt(s, "type:", p) {
      if OccursAt(s, "type:", p) {
        OccursInSlice(s, 16, 16 + |t|, "type:", p);
      }
    }
    assert OccursAt(s, "type:", 11);
  }

  /** Reading back add_element's custom attribute gives its type, when the type holds no newline and no "type:". */
  lemma RegionTypeOfCustom(t: string)
    requires forall q :: 0 <= q < |t| ==> t[q] != '\n'
    requires forall p :: !OccursAt(t, "type:", p)
    ensures RegionType(Custom(t)) == Some(t)
  {
    var s := Custom(t);
    CustomHead(t);
    CustomTail(t);
    CustomLine(t);
    CustomLastType(t);
    assert s[..|s|] == s;
    assert LastIndexOf(s, '}') == 17 + |t|;
    assert LastIndexOf(s[..17 + |t|], ';') == 16 + |t|;
    assert LastOccurrence(s, "structure {", 0) == 0;
  }

  // ---- what pageData builds ----

  function Leaf(tag: string, text: string): Elem
  {
    Elem(tag, map[], Some(text), [])
  }

  /** new_page's document: PcGts holding Metadata (Creator, Created, LastChange) and the Page. */
  function NewDocument(creator: string, created: string, lastChange: string, name: string, rows: int, cols: int): (d: Elem)
    ensures d.tag == "PcGts" && |d.children| == 2
    ensures d.children[0].tag == "Metadata" && |d.children[0].children| == 3
    ensures d.children[0].children[0] == Leaf("Creator", creator)
    ensures d.children[1].tag == "Page" && d.children[1].children == []
    ensures d.children[1].attrib == map["imageFilename" := AStr(name), "imageWidth" := AInt(cols), "imageHeight" := AInt(rows)]
  {
    Elem("PcGts", map[], None, [
      Elem("Metadata", map[], None, [Leaf("Creator", creator), Leaf("Created", created), Leaf("LastChange", lastChange)]),
      Elem("Page", map["imageFilename" := AStr(name), "imageWidth" := AInt(cols), "imageHeight" := AInt(rows)], None, [])])
  }

  /** add_element's new element: id str(r_id), the structure custom, and one Coords child. */
  function Region(rClass: string, rId: Attr, rType: string, rCoords: string): Elem
  {
    Elem(rClass, map["id" := AStr(AttrStr(rId)), "custom" := AStr(Custom(rType))], None,
      [Elem("Coords", map["points" := AStr(rCoords)], None, [])])
  }

  function Baseline(bCoords: string): Elem
  {
    Elem("Baseline", map["points" := AStr(bCoords)], None, [])
  }

  /** get_id: str() of the id attribute, which is "None" when there is none. */
  function GetId(e: Elem): (r: string)
    ensures "id" !in e.attrib ==> r == "None"
    ensures "id" in e.attrib ==> r == AttrStr(e.attrib["id"])
  {
    if "id" in e.attrib then AttrStr(e.attrib["id"]) else "None"
  }

  /** get_region_type: the pattern's group, None when custom is missing, not a string, or does not match. */
  function GetRegionType(e: Elem): (r: Option<string>)
    ensures "custom" !in e.attrib ==> r.None?
    ensures "custom" in e.attrib && e.attrib["custom"].AStr? ==> r == RegionType(e.attrib["custom"].s)
  {
    if "custom" in e.attrib && e.attrib["custom"].AStr? then RegionType(e.attrib["custom"].s) else None
  }

  /** An element add_element built reads back its id, its type, and has exactly one Coords child holding the points. */
  lemma RegionReadsBack(rClass: string, rId: Attr, rType: string, rCoords: string)
    requires forall q :: 0 <= q < |rType| ==> rType[q] != '\n'
    requires forall p :: !OccursAt(rType, "type:", p)
    ensures var x := Region(rClass, rId, rType, rCoords);
      && x.tag == rClass && GetId(x) == AttrStr(rId) && GetRegionType(x) == Some(rType)
      && |x.children| == 1 && x.children[0].tag == "Coords" && x.children[0].attrib == map["points" := AStr(rCoords)]
  {
    RegionTypeOfCustom(rType);
  }

  // ---- the builder ----

  /** Where the page goes once child k of the element at parent is removed. */
  function PageAfterRemoval(page: Option<seq<nat>>, parent: seq<nat>, k: nat): Option<seq<nat>>
  {
    if page.None? then None else AfterRemoval(page.value, parent, k)
  }

  class PageData {
    var imgName: string
    var creator: string
    /** self.xml: None until new_page. */
    var xml: Option<Elem>
    /** Where self.page sits in the document; None before new_page and once it is removed from it. */
    var page: Option<seq<nat>>

    predicate Valid()
      reads this
    {
      (xml.None? ==> page.None?) && (xml.Some? && page.Some? ==> ValidPath(xml.value, page.value))
    }

    /** pageData(img_name, creator): the creator defaults to "P2PaLA-PRHLT". */
    constructor(imgName: string, creator: Option<string>)
      ensures Valid()
      ensures this.imgName == imgName && this.creator == (if creator.None? then "P2PaLA-PRHLT" else creator.value)
      ensures xml.None? && page.None?
    {
      this.imgName := imgName;
      this.creator := if creator.None? then "P2PaLA-PRHLT" else creator.value;
      xml := None;
      page := None;
    }

    /** new_page: a fresh document whose Page is the root's second child; Created and LastChange are read from the clock. */
    method NewPage(name: string, rows: int, cols: int, created: string, lastChange: string)
      modifies this
      ensures Valid()
      ensures xml == Some(NewDocument(creator, created, lastChange, name, rows, cols)) && page == Some([1])
      ensures imgName == old(imgName) && creator == old(creator)
    {
      xml := Some(NewDocument(creator, created, lastChange, name, rows, cols));
      page := Some([1]);
    }

    /**
     * add_element: appends the new element to parent (the page by default) and returns its path;
     * a page removed from the document takes the element out of sight (None).
     */
    method AddElement(rClass: string, rId: Attr, rType: string, rCoords: string, parent: Option<seq<nat>>)
      returns (added: Option<seq<nat>>)
      requires Valid() && xml.Some?
      requires parent.Some? ==> ValidPath(xml.value, parent.value)
      modifies this
      ensures Valid() && page == old(page) && imgName == old(imgName) && creator == old(creator)
      ensures var target := if parent.Some? then parent else old(page);
        && (target.None? ==> xml == old(xml) && added.None?)
        && (target.Some? ==>
          && xml == Some(Modify(old(xml.value), target.value, Append(Region(rClass, rId, rType, rCoords))))
          && added == Some(target.value + [|At(old(xml.value), target.value).children|]))
    {
      var target := if parent.Some? then parent else page;
      if target.None? {
        return None;
      }
      var doc := xml.value;
      var n := |At(doc, target.value).children|;
      xml := Some(Modify(doc, target.value, Append(Region(rClass, rId, rType, rCoords))));
      if page.Some? {
        AppendKeepsPaths(doc, target.value, Region(rClass, rId, rType, rCoords), page.value);
      }
      added := Some(target.value + [n]);
    }

    /** remove_element: drops child k of parent (the page by default); ValueError when there is no such child. */
    method RemoveElement(k: nat, parent: Option<seq<nat>>) returns (r: Result<(), string>)
      requires Valid() && xml.Some?
      requires parent.Some? ==> ValidPath(xml.value, parent.value)
      requires parent.Some? || page.Some?
      modifies this
      ensures Valid() && imgName == old(imgName) && creator == old(creator)
      ensures var target := if parent.Some? then parent.value else old(page).value;
        && (r.Ok? <==> k < |At(old(xml.value), target).children|)
        && (r.Ok? ==> xml == Some(Modify(old(xml.value), target, Remove(k))) && page == PageAfterRemoval(old(page), target, k))
        && (r.Err? ==> r.error == "ValueError" && xml == old(xml) && page == old(page))
    {
      var target := if parent.Some? then parent.value else page.value;
      var doc := xml.value;
      if k >= |At(doc, target).children| {
        return Err("ValueError");
      }
      xml := Some(Modify(doc, target, Remove(k)));
      if page.Some? && AfterRemoval(page.value, target, k).Some? {
        RemovalKeepsOthers(doc, target, k, page.value);
      }
      page := PageAfterRemoval(page, target, k);
      r := Ok(());
    }

    /** add_baseline: appends one Baseline child carrying the points to parent. */
    method AddBaseline(bCoords: string, parent: seq<nat>)
      requires Valid() && xml.Some? && ValidPath(xml.value, parent)
      modifies this
      ensures Valid() && page == old(page) && imgName == old(imgName) && creator == old(creator)
      ensures xml == Some(Modify(old(xml.value), parent, Append(Baseline(bCoords))))
    {
      var doc := xml.value;
      xml := Some(Modify(doc, parent, Append(Baseline(bCoords))));
      if page.Some? {
        AppendKeepsPaths(doc, parent, Baseline(bCoords), page.value);
      }
    }
  }

  /** After add_element the parent has exactly one more child, last, the element built; its older children are as they were. */
  lemma AddElementAppendsOne(doc: Elem, parent: seq<nat>, rClass: string, rId: Attr, rType: string, rCoords: string)
    requires ValidPath(doc, parent)
    ensures var d := Modify(doc, parent, Append(Region(rClass, rId, rType, rCoords)));
      var n := |At(doc, parent).children|;
      && ValidPath(d, parent) && ValidPath(d, parent + [n])
      && At(d, parent).children == At(doc, parent).children + [Region(rClass, rId, rType, rCoords)]
      && At(d, parent + [n]) == Region(rClass, rId, rType, rCoords)
  {
    var c := Region(rClass, rId, rType, rCoords);
    var d := Modify(doc, parent, Append(c));
    ModifyAt(doc, parent, Append(c));
    AtAppend(d, parent, [|At(doc, parent).children|]);
  }

  /** add_baseline gives the parent one more child, last, a Baseline carrying the points. */
  lemma AddBaselineAppendsOne(doc: Elem, parent: seq<nat>, bCoords: string)
    requires ValidPath(doc, parent)
    ensures var d := Modify(doc, parent, Append(Baseline(bCoords)));
      && ValidPath(d, parent)
      && At(d, parent).children == At(doc, parent).children + [Baseline(bCoords)]
      && At(d, parent).tag == At(doc, parent).tag && At(d, parent).attrib == At(doc, parent).attrib
  {
    ModifyAt(doc, parent, Append(Baseline(bCoords)));
  }

  /** remove_element takes exactly child k out: the siblings before it and after it stay, in order. */
  lemma RemoveElementDropsOne(doc: Elem, parent: seq<nat>, k: nat)
    requires ValidPath(doc, parent) && k < |At(doc, parent).children|
    ensures var d, cs := Modify(doc, parent, Remove(k)), At(doc, parent).children;
      && ValidPath(d, parent)
      && At(d, parent).children == cs[..k] + cs[k + 1..]
      && |At(d, parent).children| == |cs| - 1
  {
    ModifyAt(doc, parent, Remove(k));
  }

  /** On a new page, the default parent is the Page element, with the image's name and size. */
  lemma NewPageHasPage(creator: string, created: string, lastChange: string, name: string, rows: int, cols: int)
    ensures var d := NewDocument(creator, created, lastChange, name, rows, cols);
      && ValidPath(d, [1]) && At(d, [1]).tag == "Page"
      && At(d, [1]).attrib["imageWidth"] == AInt(cols) && At(d, [1]).attrib["imageHeight"] == AInt(rows)
      && At(d, [1]).attrib["imageFilename"] == AStr(name)
  {
    var d := NewDocument(creator, created, lastChange, name, rows, cols);
    assert [1][1..] == [];
  }
}
