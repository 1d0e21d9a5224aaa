// Point lists written as "x1,y1 x2,y2 ..." in PAGE XML Coords/@points, and the two ways the OCR side
// reads them: _parse_coordinates (ml/text_concatenator.py, repeated verbatim in ml/pipeline_processor.py)
// and get_node_coordinates (ml/ocr_page.py).
module OcrCoords {
  import opened Wrappers
  import opened Text

  datatype Point = Point(x: int, y: int)

  /** A natural number written in decimal, optionally signed. */
  function IntToStr(i: int): (r: string)
    ensures r != []
  {
    if i < 0 then "-" + NatToStr(-i) else NatToStr(i)
  }

  /** "x,y" */
  function RenderPoint(p: Point): string { IntToStr(p.x) + "," + IntToStr(p.y) }

  /** The points attribute: the rendered points separated by single spaces. */
  function RenderPoints(pts: seq<Point>): string
  {
    Join(seq(|pts|, i requires 0 <= i < |pts| => RenderPoint(pts[i])), " ")
  }

  /** The sign of a numeric literal, and what follows it. */
  function SplitSign(s: string): (bool, string)
  {
    if s != [] && (s[0] == '-' || s[0] == '+') then (s[0] == '-', s[1..]) else (false, s)
  }

  function Signed(negative: bool, n: nat): int { if negative then -(n as int) else n as int }

  /**
   * int(float(s)) on a token in plain decimal notation: an optional sign, digits and at most one
   * point, at least one digit in all. The value is truncated toward zero, so it is the integer part.
   * None stands for ValueError. float() also accepts exponents ("1e2"), digit-group underscores ("1_0")
   * and inf/nan; those forms are not modelled and come out as None here.
   */
  function ParseDecimal(s: string): (r: Option<int>)
    ensures r.Some? ==> s != []
  {
    var (negative, body) := SplitSign(s);
    var parts := Split(body, '.');
    if |parts| > 2 || !AllDigits(parts[0]) then None
    else
      var frac := if |parts| == 2 then parts[1] else "";
      if !AllDigits(frac) || |parts[0]| + |frac| == 0 then None
      else Some(Signed(negative, ParseNat(parts[0])))
  }

  /** int(s): surrounding blanks, an optional sign, then one or more decimal digits. */
  function ParseInt(s: string): (r: Option<int>)
  {
    var (negative, body) := SplitSign(Strip(s));
    if body == [] || !AllDigits(body) then None else Some(Signed(negative, ParseNat(body)))
  }

  // ---- _parse_coordinates ----

  /** One whitespace-separated token: skipped (Some(None)) without a comma, a point for exactly one comma and two numbers, ValueError otherwise. */
  function CoordToken(tok: string): (r: Option<Option<Point>>)
  {
    if ',' !in tok then Some(None)
    else
      var xy := Split(tok, ',');
      if |xy| != 2 then None
      else
        var x := ParseDecimal(xy[0]);
        var y := ParseDecimal(xy[1]);
        if x.None? || y.None? then None else Some(Some(Point(x.value, y.value)))
  }

  /** The points of toks, in order, or ValueError at the first malformed token. */
  function CoordTokens(toks: seq<string>): (r: Result<seq<Point>, string>)
    ensures r.Ok? ==> |r.value| <= |toks|
    ensures r.Err? ==> r.error == "ValueError"
  {
    if toks == [] then Ok([])
    else
      var prev := CoordTokens(toks[..|toks| - 1]);
      var t := CoordToken(toks[|toks| - 1]);
      if prev.Err? then prev
      else if t.None? then Err("ValueError")
      else if t.value.None? then prev
      else Ok(prev.value + [t.value.value])
  }

  /** What _parse_coordinates returns or raises. */
  function Coordinates(s: string): Result<seq<Point>, string>
  {
    if s == "" then Ok([]) else CoordTokens(Words(s))
  }

  /** _parse_coordinates: the loop over the whitespace-separated tokens. */
  method ParseCoordinates(s: string) returns (r: Result<seq<Point>, string>)
    ensures r == Coordinates(s)
  {
    if s == "" {
      return Ok([]);
    }
    var pairs := Words(s);
    var coords: seq<Point> := [];
    var i := 0;
    while i < |pairs|
      invariant 0 <= i <= |pairs|
      invariant CoordTokens(pairs[..i]) == Ok(coords)
    {
      assert pairs[..i + 1][..i] == pairs[..i];
      var pair := pairs[i];
      if ',' in pair {
        var xy := Split(pair, ',');
        if |xy| != 2 {
          FailurePersists(pairs, i + 1);
          return Err("ValueError");
        }
        var x := ParseDecimal(xy[0]);
        var y := ParseDecimal(xy[1]);
        if x.None? || y.None? {
          FailurePersists(pairs, i + 1);
          return Err("ValueError");
        }
        coords := coords + [Point(x.value, y.value)];
      }
      i := i + 1;
    }
    assert pairs[..|pairs|] == pairs;
    r := Ok(coords);
  }

  /** Once a token has raised, the later tokens do not matter. */
  lemma {:induction false} FailurePersists(toks: seq<string>, k: nat)
    requires k <= |toks| && CoordTokens(toks[..k]).Err?
    ensures CoordTokens(toks).Err?
    decreases |toks| - k
  {
    if k < |toks| {
      assert toks[..k + 1][..k] == toks[..k];
      FailurePersists(toks, k + 1);
    } else {
      assert toks[..k] == toks;
    }
  }

  // ---- get_node_coordinates ----

  /** One token of string.split(" "): int() of the text before the first comma and of the text after it; IndexError without a comma, ValueError for a non-integer. */
  function NodeToken(tok: string): (r: Result<Point, string>)
  {
    var xy := Split(tok, ',');
    var x := ParseInt(xy[0]);
    if x.None? then Err("ValueError")
    else if |xy| < 2 then Err("IndexError")
    else
      var y := ParseInt(xy[1]);
      if y.None? then Err("ValueError") else Ok(Point(x.value, y.value))
  }

  function NodeTokens(toks: seq<string>): (r: Result<seq<Point>, string>)
    ensures r.Ok? ==> |r.value| == |toks|
  {
    if toks == [] then Ok([])
    else
      var t := NodeToken(toks[0]);
      if t.Err? then Err(t.error)
      else
        var rest := NodeTokens(toks[1..]);
        if rest.Err? then rest else Ok([t.value] + rest.value)
  }

  /** get_node_coordinates: every token separated by a single space is a point; a malformed one raises instead of being skipped. */
  function NodeCoordinates(s: string): (r: Result<seq<Point>, string>)
    ensures r.Ok? ==> |r.value| == |Split(s, ' ')|
  {
    NodeTokens(Split(s, ' '))
  }

  // ---- properties ----

  lemma NatToStrNoSign(n: nat)
    ensures AllDigits(NatToStr(n)) && ',' !in NatToStr(n) && '.' !in NatToStr(n) && ' ' !in NatToStr(n)
  {
    var d := NatToStr(n);
    assert forall i :: 0 <= i < |d| ==> IsDigit(d[i]);
  }

  /** The sign of a rendered integer is read off first, leaving its digits. */
  lemma SignOfRendered(i: int)
    ensures var n: nat := if i < 0 then -i else i;
            SplitSign(IntToStr(i)) == (i < 0, NatToStr(n)) && AllDigits(NatToStr(n))
  {
    var n: nat := if i < 0 then -i else i;
    var d := NatToStr(n);
    NatToStrNoSign(n);
    if i < 0 { assert ("-" + d)[1..] == d; }
    else { assert IsDigit(d[0]); }
  }

  /** A rendered integer reads back as itself through int(float(...)). */
  lemma DecimalRoundTrip(i: int)
    ensures ParseDecimal(IntToStr(i)) == Some(i)
  {
    var n: nat := if i < 0 then -i else i;
    SignOfRendered(i);
    NatToStrNoSign(n);
    ParseNatToStr(n);
    SplitNoSep(NatToStr(n), '.');
  }

  /** A rendered integer reads back as itself through int(...). */
  lemma IntRoundTrip(i: int)
    ensures ParseInt(IntToStr(i)) == Some(i)
  {
    var n: nat := if i < 0 then -i else i;
    var d := NatToStr(n);
    SignOfRendered(i);
    ParseNatToStr(n);
    IntToStrChars(i);
    StripPlain(IntToStr(i));
  }

  /** Strip leaves a string that neither starts nor ends with a blank. */
  lemma StripPlain(s: string)
    requires s != [] && !IsSpace(s[0]) && !IsSpace(s[|s| - 1])
    ensures Strip(s) == s
  {
  }

  lemma IntToStrChars(i: int)
    ensures ',' !in IntToStr(i) && ' ' !in IntToStr(i) && forall k :: 0 <= k < |IntToStr(i)| ==> !IsSpace(IntToStr(i)[k])
  {
    var n: nat := if i < 0 then -i else i;
    NatToStrNoSign(n);
    var d := NatToStr(n);
    forall k | 0 <= k < |IntToStr(i)| ensures !IsSpace(IntToStr(i)[k]) {
      if i < 0 && k == 0 { } else {
        var j := if i < 0 then k - 1 else k;
        assert IntToStr(i)[k] == d[j];
        assert IsDigit(d[j]);
      }
    }
  }

  /** A rendered point splits at its comma into its two coordinates. */
  lemma PointSplit(p: Point)
    ensures Split(RenderPoint(p), ',') == [IntToStr(p.x), IntToStr(p.y)]
    ensures ',' in RenderPoint(p) && ' ' !in RenderPoint(p) && IsWord(RenderPoint(p))
  {
    IntToStrChars(p.x);
    IntToStrChars(p.y);
    SplitAtSep(IntToStr(p.x), ',', IntToStr(p.y));
    SplitNoSep(IntToStr(p.x), ',');
    SplitNoSep(IntToStr(p.y), ',');
    var r := RenderPoint(p);
    assert r[|IntToStr(p.x)|] == ',';
    forall k | 0 <= k < |r| ensures !IsSpace(r[k]) {
      if k < |IntToStr(p.x)| { assert r[k] == IntToStr(p.x)[k]; }
      else if k > |IntToStr(p.x)| { assert r[k] == IntToStr(p.y)[k - |IntToStr(p.x)| - 1]; }
    }
  }

  /** _parse_coordinates reads back every rendered point list. */
  lemma CoordinatesRoundTrip(pts: seq<Point>)
    ensures Coordinates(RenderPoints(pts)) == Ok(pts)
  {
    var toks := seq(|pts|, i requires 0 <= i < |pts| => RenderPoint(pts[i]));
    forall i | 0 <= i < |toks| ensures IsWord(toks[i]) { PointSplit(pts[i]); }
    WordsOfJoin(toks);
    if pts == [] {
      assert RenderPoints(pts) == "";
    } else {
      assert RenderPoints(pts)[..|toks[0]|] == toks[0] by { JoinStartsWithFirst(toks, " "); }
      assert RenderPoints(pts) != "";
      forall i | 0 <= i < |toks| ensures CoordToken(toks[i]) == Some(Some(pts[i])) { CoordTokenOfPoint(pts[i]); }
      TokensRoundTrip(pts, toks);
    }
  }

  /** Tokens that each read as a point read back as those points, in order. */
  lemma {:induction false} TokensRoundTrip(pts: seq<Point>, toks: seq<string>)
    requires |toks| == |pts| && forall i :: 0 <= i < |pts| ==> CoordToken(toks[i]) == Some(Some(pts[i]))
    ensures CoordTokens(toks) == Ok(pts)
  {
    if pts != [] {
      var n := |pts| - 1;
      ReadPrefix(pts, toks, n);
      TokensRoundTrip(pts[..n], toks[..n]);
      CoordTokensSnoc(toks, pts[..n], pts[n]);
      assert pts[..n] + [pts[n]] == pts;
    }
  }

  lemma ReadPrefix(pts: seq<Point>, toks: seq<string>, n: nat)
    requires |toks| == |pts| && forall i :: 0 <= i < |pts| ==> CoordToken(toks[i]) == Some(Some(pts[i]))
    requires n < |pts|
    ensures |toks[..n]| == |pts[..n]| && forall i :: 0 <= i < n ==> CoordToken(toks[..n][i]) == Some(Some(pts[..n][i]))
    ensures CoordToken(toks[n]) == Some(Some(pts[n]))
  {
  }

  /** One more token that reads as a point adds that point. */
  lemma CoordTokensSnoc(toks: seq<string>, prev: seq<Point>, p: Point)
    requires toks != [] && CoordTokens(toks[..|toks| - 1]) == Ok(prev)
    requires CoordToken(toks[|toks| - 1]) == Some(Some(p))
    ensures CoordTokens(toks) == Ok(prev + [p])
  {
  }

  /** get_node_coordinates reads back every non-empty rendered point list. */
  lemma NodeCoordinatesRoundTrip(pts: seq<Point>)
    requires pts != []
    ensures NodeCoordinates(RenderPoints(pts)) == Ok(pts)
  {
    var toks := seq(|pts|, i requires 0 <= i < |pts| => RenderPoint(pts[i]));
    forall i | 0 <= i < |toks| ensures ' ' !in toks[i] { PointSplit(pts[i]); }
    SplitOfJoin(toks);
    NodeTokensRoundTrip(pts, toks);
  }

  lemma {:induction false} NodeTokensRoundTrip(pts: seq<Point>, toks: seq<string>)
    requires |toks| == |pts| && forall i :: 0 <= i < |pts| ==> toks[i] == RenderPoint(pts[i])
    ensures NodeTokens(toks) == Ok(pts)
  {
    if pts != [] {
      NodeTokensRoundTrip(pts[1..], toks[1..]);
      NodeTokenOfPoint(pts[0]);
      assert [pts[0]] + pts[1..] == pts;
    }
  }

  lemma CoordTokenOfPoint(p: Point)
    ensures CoordToken(RenderPoint(p)) == Some(Some(p))
  {
    PointSplit(p);
    DecimalRoundTrip(p.x);
    DecimalRoundTrip(p.y);
  }

  lemma NodeTokenOfPoint(p: Point)
    ensures NodeToken(RenderPoint(p)) == Ok(p)
  {
    PointSplit(p);
    IntRoundTrip(p.x);
    IntRoundTrip(p.y);
  }

  /** The two readers part ways on the empty string: no points for one, ValueError for the other. */
  lemma EmptyPoints()
    ensures Coordinates("") == Ok([])
    ensures NodeCoordinates("") == Err("ValueError")
  {
    assert Split("", ' ') == [""];
    assert Split("", ',') == [""];
  }

  /** A token without a comma is skipped by _parse_coordinates, while get_node_coordinates raises on it. */
  lemma BareToken(tok: string)
    requires ',' !in tok
    ensures CoordToken(tok) == Some(None)
    ensures NodeToken(tok) == if ParseInt(tok).Some? then Err("IndexError") else Err("ValueError")
  {
    SplitNoSep(tok, ',');
  }

  // ---- words and joins ----

  lemma JoinStartsWithFirst(parts: seq<string>, sep: string)
    requires parts != []
    ensures |Join(parts, sep)| >= |parts[0]| && Join(parts, sep)[..|parts[0]|] == parts[0]
  {
  }

  /** str.split() undoes a join with single spaces of words. */
  lemma {:induction false} WordsOfJoin(toks: seq<string>)
    requires forall i :: 0 <= i < |toks| ==> IsWord(toks[i])
    ensures Words(Join(toks, " ")) == toks
  {
    if toks == [] {
    } else if |toks| == 1 {
      WordsOfWord(toks[0], "");
      assert toks[0] + "" == toks[0];
    } else {
      WordsOfJoin(toks[1..]);
      var rest := Join(toks[1..], " ");
      JoinCons(toks, " ");
      WordsOfWord(toks[0], " " + rest);
      WordsAfterBlank(rest);
    }
  }

  lemma JoinCons(parts: seq<string>, sep: string)
    requires |parts| >= 2
    ensures Join(parts, sep) == parts[0] + (sep + Join(parts[1..], sep))
  {
  }

  /** A word followed by nothing or by a blank comes out of split() first. */
  lemma WordsOfWord(w: string, tail: string)
    requires IsWord(w) && (tail == [] || IsSpace(tail[0]))
    ensures Words(w + tail) == [w] + Words(tail)
  {
    var s := w + tail;
    assert TrimLeft(s) == s by { assert s[0] == w[0]; }
    WordPrefixIs(w, tail);
    assert s[|w|..] == tail;
  }

  lemma WordsLeadingBlank(s: string)
    requires s != [] && IsSpace(s[0])
    ensures Words(s) == Words(s[1..])
  {
    assert TrimLeft(s) == TrimLeft(s[1..]);
  }

  lemma WordsAfterBlank(rest: string)
    ensures Words(" " + rest) == Words(rest)
  {
    WordsLeadingBlank(" " + rest);
    assert (" " + rest)[1..] == rest;
  }

  lemma {:induction false} WordPrefixIs(w: string, tail: string)
    requires IsWord(w) && (tail == [] || IsSpace(tail[0]))
    ensures WordPrefix(w + tail) == w
  {
    var s := w + tail;
    if |w| == 1 {
      assert s[..1] == w;
    } else {
      WordPrefixIs(w[1..], tail);
      assert s[1..] == w[1..] + tail;
      assert [s[0]] + w[1..] == w;
    }
  }

  /** str.split(" ") undoes a join with single spaces of space-free tokens. */
  lemma {:induction false} SplitOfJoin(toks: seq<string>)
    requires toks != [] && forall i :: 0 <= i < |toks| ==> ' ' !in toks[i]
    ensures Split(Join(toks, " "), ' ') == toks
  {
    if |toks| == 1 {
      SplitNoSep(toks[0], ' ');
    } else {
      SplitOfJoin(toks[1..]);
      var rest := Join(toks[1..], " ");
      assert Join(toks, " ") == toks[0] + [' '] + rest;
      SplitAtSep(toks[0], ' ', rest);
      SplitNoSep(toks[0], ' ');
      assert [toks[0]] + toks[1..] == toks;
    }
  }

  // ---- the y key of a line ----

  function SumY(pts: seq<Point>): int
  {
    if pts == [] then 0 else SumY(pts[..|pts| - 1]) + pts[|pts| - 1].y
  }

  /** sum(y) / len(points), as an exact rational. */
  function AverageY(pts: seq<Point>): real
    requires pts != []
  {
    SumY(pts) as real / |pts| as real
  }
}
