// ml/text_concatenator.py: the concatenated text of each OCR region, the hyphen-continuation analysis
// and the summary written into the concatenation result.
module TextConcatenator {
  import opened Wrappers
  import opened Text
  import opened OcrCoords
  import opened OcrRecords
  import StableSort
  import ResultSeq

  // ---- _simple_concatenate_lines ----

  /** The stripped texts of the lines, those that are not blank, in order. */
  function Parts(lines: seq<OcrLine>): (r: seq<string>)
    ensures |r| <= |lines|
    ensures forall i :: 0 <= i < |r| ==> r[i] != [] && !IsSpace(r[i][0]) && !IsSpace(r[i][|r[i]| - 1])
  {
    if lines == [] then []
    else
      var prev, t := Parts(lines[..|lines| - 1]), Strip(TextOr(lines[|lines| - 1]));
      StrippedSnoc(prev, t);
      prev + (if t != [] then [t] else [])
  }

  lemma StrippedSnoc(p: seq<string>, t: string)
    requires forall i :: 0 <= i < |p| ==> p[i] != [] && !IsSpace(p[i][0]) && !IsSpace(p[i][|p[i]| - 1])
    requires t != [] ==> !IsSpace(t[0]) && !IsSpace(t[|t| - 1])
    ensures var r := p + (if t != [] then [t] else []);
      forall i :: 0 <= i < |r| ==> r[i] != [] && !IsSpace(r[i][0]) && !IsSpace(r[i][|r[i]| - 1])
  {
  }

  /** The words of the lines' texts, line after line. */
  function LineWords(lines: seq<OcrLine>): seq<string>
  {
    if lines == [] then [] else LineWords(lines[..|lines| - 1]) + Words(TextOr(lines[|lines| - 1]))
  }

  /** _simple_concatenate_lines: strip each text, keep the non-empty ones, join them with single spaces. */
  method SimpleConcatenateLines(lines: seq<OcrLine>) returns (r: string)
    ensures r == Join(Parts(lines), " ")
  {
    var parts: seq<string> := [];
    for i := 0 to |lines|
      invariant parts == Parts(lines[..i])
    {
      assert lines[..i + 1][..i] == lines[..i];
      var text := Strip(TextOr(lines[i]));
      if text != [] {
        parts := parts + [text];
      }
    }
    assert lines[..|lines|] == lines;
    r := Join(parts, " ");
  }

  /** Nothing is lost or split apart: split() of the concatenation gives the words of every line in order. */
  lemma {:induction false} SimpleConcatenationWords(lines: seq<OcrLine>)
    ensures Words(Join(Parts(lines), " ")) == LineWords(lines)
  {
    if lines != [] {
      var pre := lines[..|lines| - 1];
      var raw := TextOr(lines[|lines| - 1]);
      var t := Strip(raw);
      SimpleConcatenationWords(pre);
      WordsStrip(raw);
      var p := Parts(pre);
      if t == [] {
        assert Parts(lines) == p + [];
        AppendEmpty(p);
        AppendEmpty(LineWords(pre));
      } else {
        assert Parts(lines) == p + [t];
        JoinWords(p, t);
      }
    }
  }

  /** Joining one more non-empty part adds its words after the others. */
  lemma JoinWords(p: seq<string>, t: string)
    ensures Words(Join(p + [t], " ")) == Words(Join(p, " ")) + Words(t)
  {
    JoinSnoc(p, t, " ");
    if p == [] {
      assert Words(Join(p, " ")) == [];
    } else {
      var j := Join(p, " ");
      ConcatAssoc(j, " ", t);
      WordsAppend(j, " " + t);
      WordsAfterBlank(t);
    }
  }

  // ---- _sort_lines_by_y_coordinate ----

  /** get_y_coordinate: 0 without coordinates or points, else the points' mean y; the parser's ValueError escapes. */
  function YKey(l: OcrLine): (r: Result<real, string>)
    ensures l.coordinates == "" ==> r == Ok(0.0)
    ensures r.Err? <==> Coordinates(l.coordinates).Err?
    ensures r.Err? ==> r.error == "ValueError"
  {
    if l.coordinates == "" then Ok(0.0)
    else
      match Coordinates(l.coordinates)
      case Err(e) => Err(e)
      case Ok(pts) => if pts == [] then Ok(0.0) else Ok(AverageY(pts))
  }

  /** The key sorted() orders by, once every key has been computed. */
  function LineKey(l: OcrLine): real
  {
    if YKey(l).Ok? then YKey(l).value else 0.0
  }

  predicate AllKeyed(lines: seq<OcrLine>)
  {
    forall i | 0 <= i < |lines| :: YKey(lines[i]).Ok?
  }

  /** sorted(text_lines, key=get_y_coordinate): every key is computed first, so one bad line raises. */
  function SortLinesByY(lines: seq<OcrLine>): Result<seq<OcrLine>, string>
  {
    if AllKeyed(lines) then Ok(StableSort.Sort(lines, LineKey)) else Err("ValueError")
  }

  /** The lines come back ordered top to bottom, as a permutation that keeps the order of lines at the same height. */
  lemma SortLinesByYSpec(lines: seq<OcrLine>)
    ensures SortLinesByY(lines).Ok? <==> forall i :: 0 <= i < |lines| ==> YKey(lines[i]).Ok?
    ensures SortLinesByY(lines).Ok? ==>
      var s := SortLinesByY(lines).value;
      && (forall i, j :: 0 <= i < j < |s| ==> LineKey(s[i]) <= LineKey(s[j]))
      && multiset(s) == multiset(lines)
      && (forall k :: StableSort.WithKey(s, LineKey, k) == StableSort.WithKey(lines, LineKey, k))
  {
    StableSort.SortSorted(lines, LineKey);
    forall k ensures StableSort.WithKey(StableSort.Sort(lines, LineKey), LineKey, k) == StableSort.WithKey(lines, LineKey, k) {
      StableSort.SortStable(lines, LineKey, k);
    }
  }

  // ---- _is_text_continuous ----

  /**
   * str.isupper() on one character, for the capitals of ASCII, Latin-1, Latin Extended-A, basic Greek
   * and Cyrillic. In the paired blocks a capital is followed by its small letter, so capitals sit at
   * even code points, except in U+0139..U+0148, U+0179..U+017E and U+04C1..U+04CE, where they sit at
   * odd ones.
   */
  predicate IsUpper(c: char)
  {
    var n := c as int;
    ('A' <= c <= 'Z') || ('\U{C0}' <= c <= '\U{DE}' && c != '\U{D7}')
    || ('\U{100}' <= c <= '\U{137}' && n % 2 == 0) || ('\U{139}' <= c <= '\U{148}' && n % 2 == 1)
    || ('\U{14A}' <= c <= '\U{177}' && n % 2 == 0) || c == '\U{178}' || ('\U{179}' <= c <= '\U{17E}' && n % 2 == 1)
    || c == '\U{386}' || ('\U{388}' <= c <= '\U{38A}') || c == '\U{38C}' || ('\U{38E}' <= c <= '\U{38F}')
    || ('\U{391}' <= c <= '\U{3AB}' && c != '\U{3A2}')
    || ('\U{400}' <= c <= '\U{42F}')
    || ('\U{460}' <= c <= '\U{481}' && n % 2 == 0) || ('\U{48A}' <= c <= '\U{4C0}' && n % 2 == 0)
    || ('\U{4C1}' <= c <= '\U{4CE}' && n % 2 == 1) || ('\U{4D0}' <= c <= '\U{4FF}' && n % 2 == 0)
  }

  /** In U+04C1..U+04CE the capital comes first at an odd code point: Ӂ is a capital, ӂ is not. */
  lemma CyrillicOddCapitals()
    ensures !IsTextContinuous("a-", "\U{4C1}") && IsTextContinuous("a-", "\U{4C2}")
    ensures !IsTextContinuous("a-", "\U{100}") && !IsTextContinuous("a-", "\U{391}") && IsTextContinuous("a-", "\U{3B1}")
  {
  }

  /** _is_text_continuous: only a hyphen at the end of the first text followed by a text that does not start with a capital. */
  function IsTextContinuous(text1: string, text2: string): (r: bool)
    ensures r <==> text1 != [] && text2 != [] && text1[|text1| - 1] == '-' && !IsUpper(text2[0])
  {
    if text1 == [] || text2 == [] then false
    else EndsWith(text1, "-") && text2 != [] && !IsUpper(text2[0])
  }

  // ---- _analyze_text_continuity ----

  datatype ProcessedLine = ProcessedLine(
    line: OcrLine,
    isContinuation: bool,
    isLineBreak: bool,
    mergedWithPrevious: bool,
    mergedText: Option<string>,
    originalText: Option<string>)

  /** line.copy() with the three flags cleared. */
  function Unmarked(l: OcrLine): ProcessedLine
  {
    ProcessedLine(l, false, false, false, None, None)
  }

  function Abs(x: real): real { if x < 0.0 then -x else x }

  /** _is_potential_line_break: both lines have points and their mean heights are less than 50 apart. */
  function PotentialLineBreak(line1: OcrLine, line2: OcrLine): (r: Result<bool, string>)
    ensures r.Err? ==> r.error == "ValueError"
    ensures r == Ok(true) ==> Coordinates(line1.coordinates).Ok? && Coordinates(line1.coordinates).value != []
  {
    match Coordinates(line1.coordinates)
    case Err(e) => Err(e)
    case Ok(c1) =>
      match Coordinates(line2.coordinates)
      case Err(e) => Err(e)
      case Ok(c2) =>
        if c1 != [] && c2 != [] then Ok(Abs(AverageY(c2) - AverageY(c1)) < 50.0) else Ok(false)
  }

  /** One turn of the loop for a line after the first; previous is the already processed line before it. */
  function Step(previous: ProcessedLine, l: OcrLine): (r: Result<ProcessedLine, string>)
    ensures r.Err? ==> r.error == "KeyError" || r.error == "ValueError"
  {
    if previous.line.text.None? || l.text.None? then Err("KeyError")
    else
      var text1, text2 := previous.line.text.value, l.text.value;
      if IsTextContinuous(text1, text2) then
        if EndsWith(text1, "-") then
          var merged := text1[..|text1| - 1] + text2;
          Ok(ProcessedLine(l.(text := Some(merged)), true, false, true, Some(merged), Some(text2)))
        else
          Ok(ProcessedLine(l, true, true, true, None, None))
      else
        match PotentialLineBreak(previous.line, l)
        case Err(e) => Err(e)
        case Ok(b) => Ok(Unmarked(l).(isLineBreak := b))
  }

  /** What _analyze_text_continuity returns or raises. */
  function Analyze(lines: seq<OcrLine>): (r: Result<seq<ProcessedLine>, string>)
    ensures r.Ok? ==> |r.value| == |lines|
  {
    if lines == [] then Ok([])
    else
      var pre := lines[..|lines| - 1];
      var prev := Analyze(pre);
      if prev.Err? then prev
      else if pre == [] then Ok([Unmarked(lines[0])])
      else
        var s := Step(prev.value[|pre| - 1], lines[|lines| - 1]);
        if s.Err? then Err(s.error) else Ok(prev.value + [s.value])
  }

  /** _analyze_text_continuity: the loop over the lines, each compared with the processed line before it. */
  method AnalyzeTextContinuity(lines: seq<OcrLine>) returns (r: Result<seq<ProcessedLine>, string>)
    ensures r == Analyze(lines)
  {
    var processed: seq<ProcessedLine> := [];
    for i := 0 to |lines|
      invariant Analyze(lines[..i]) == Ok(processed)
    {
      assert lines[..i + 1][..i] == lines[..i];
      var line := lines[i];
      if i == 0 {
        assert lines[..1] == [line] && lines[..0] == [];
        processed := [Unmarked(line)];
      } else {
        var s := Step(processed[|processed| - 1], line);
        if s.Err? {
          AnalyzeFailurePersists(lines, i + 1);
          assert lines[..|lines|] == lines;
          return Err(s.error);
        }
        processed := processed + [s.value];
      }
    }
    assert lines[..|lines|] == lines;
    r := Ok(processed);
  }

  /** Once a line has raised, the lines after it do not matter. */
  lemma {:induction false} AnalyzeFailurePersists(lines: seq<OcrLine>, k: nat)
    requires k <= |lines| && Analyze(lines[..k]).Err?
    ensures Analyze(lines) == Analyze(lines[..k])
    decreases |lines| - k
  {
    if k < |lines| {
      assert lines[..k + 1][..k] == lines[..k];
      AnalyzeFailurePersists(lines, k + 1);
    } else {
      assert lines[..k] == lines;
    }
  }

  /** The analysis of a prefix is the prefix of the analysis. */
  lemma {:induction false} AnalyzePrefix(lines: seq<OcrLine>, k: nat)
    requires k <= |lines| && Analyze(lines).Ok?
    ensures Analyze(lines[..k]).Ok? && Analyze(lines[..k]).value == Analyze(lines).value[..k]
    decreases |lines| - k
  {
    if k == |lines| {
      assert lines[..k] == lines;
    } else {
      var pre := lines[..|lines| - 1];
      assert Analyze(pre).Ok?;
      assert pre[..k] == lines[..k];
      AnalyzePrefix(pre, k);
    }
  }

  /** A continuation's text is the previous text without its hyphen, followed by its own. */
  lemma StepContinuation(previous: ProcessedLine, l: OcrLine)
    requires previous.line.text.Some? && l.text.Some?
    requires IsTextContinuous(previous.line.text.value, l.text.value)
    ensures var t1, t2 := previous.line.text.value, l.text.value;
      var merged := t1[..|t1| - 1] + t2;
      Step(previous, l) == Ok(ProcessedLine(l.(text := Some(merged)), true, false, true, Some(merged), Some(t2)))
  {
    var t1 := previous.line.text.value;
    assert t1[|t1| - 1..] == [t1[|t1| - 1]];
  }

  /** The line a turn of the loop produces, from its predecessor and the line itself. */
  lemma StepShape(previous: ProcessedLine, l: OcrLine)
    requires Step(previous, l).Ok?
    ensures var p := Step(previous, l).value;
      && previous.line.text.Some? && l.text.Some?
      && p.line.(text := l.text) == l
      && p.mergedWithPrevious == p.isContinuation
      && (p.isContinuation ==> !p.isLineBreak)
      && (p.isContinuation <==> IsTextContinuous(previous.line.text.value, l.text.value))
      && (p.isContinuation ==>
            var t1 := previous.line.text.value;
            p.line.text == p.mergedText && p.line.text == Some(t1[..|t1| - 1] + l.text.value) && p.originalText == l.text)
      && (!p.isContinuation ==> p.line == l)
  {
    if previous.line.text.Some? && l.text.Some? && IsTextContinuous(previous.line.text.value, l.text.value) {
      StepContinuation(previous, l);
    }
  }

  /**
   * Line i of the analysis is line i with its flags, never marked on the first line; after the
   * first it is the turn of the loop on its processed predecessor (see StepShape).
   */
  lemma AnalyzeLine(lines: seq<OcrLine>, i: nat)
    requires i < |lines| && Analyze(lines).Ok?
    ensures var p := Analyze(lines).value;
      && (i == 0 ==> p[i] == Unmarked(lines[0]))
      && (i > 0 ==> Step(p[i - 1], lines[i]) == Ok(p[i]))
  {
    AnalyzePrefix(lines, i + 1);
    var q := lines[..i + 1];
    AnalyzeLast(q);
    var p := Analyze(lines).value;
    var pq := Analyze(q).value;
    assert pq == p[..i + 1];
    assert q[i] == lines[i] && pq[i] == p[i];
    if i > 0 {
      assert pq[i - 1] == p[i - 1];
    } else {
      assert q[0] == lines[0];
    }
  }

  lemma AnalyzeLast(lines: seq<OcrLine>)
    requires lines != [] && Analyze(lines).Ok?
    ensures var p, n := Analyze(lines).value, |lines|;
      && (n == 1 ==> p[0] == Unmarked(lines[0]))
      && (n > 1 ==> Step(p[n - 2], lines[n - 1]) == Ok(p[n - 1]))
  {
  }

  /** Every line has a text once OCR has run, and then the analysis can fail only on a line's points. */
  lemma {:induction false} AnalyzeFailsOnlyOnPoints(lines: seq<OcrLine>)
    requires forall i :: 0 <= i < |lines| ==> lines[i].text.Some?
    requires forall i :: 0 <= i < |lines| ==> Coordinates(lines[i].coordinates).Ok?
    ensures Analyze(lines).Ok?
  {
    if lines != [] {
      var pre := lines[..|lines| - 1];
      var last := lines[|lines| - 1];
      assert forall i :: 0 <= i < |pre| ==> pre[i] == lines[i];
      AnalyzeFailsOnlyOnPoints(pre);
      if pre != [] {
        var prev := Analyze(pre).value[|pre| - 1];
        AnalyzedLastLine(pre);
        StepOk(prev, last);
      }
    }
  }

  /** The last processed line keeps its line's points and has a text. */
  lemma AnalyzedLastLine(lines: seq<OcrLine>)
    requires lines != [] && Analyze(lines).Ok? && lines[|lines| - 1].text.Some?
    ensures var p := Analyze(lines).value[|lines| - 1];
      p.line.coordinates == lines[|lines| - 1].coordinates && p.line.text.Some?
  {
    AnalyzeLast(lines);
    if |lines| > 1 {
      var p := Analyze(lines).value;
      StepShape(p[|lines| - 2], lines[|lines| - 1]);
    }
  }

  /** A turn of the loop fails only on a missing text or on points that do not parse. */
  lemma StepOk(previous: ProcessedLine, l: OcrLine)
    requires previous.line.text.Some? && l.text.Some?
    requires Coordinates(previous.line.coordinates).Ok? && Coordinates(l.coordinates).Ok?
    ensures Step(previous, l).Ok?
  {
  }

  // ---- _concatenate_text_lines ----

  /** One turn of the loop: a blank line adds nothing, a continuation's merged text replaces the last part. */
  function CollectPart(parts: seq<string>, line: ProcessedLine): seq<string>
  {
    var text := Strip(TextOr(line.line));
    if text == [] then parts
    else if line.isContinuation && line.mergedText.Some? && line.mergedText.value != [] then
      if parts != [] then parts[..|parts| - 1] + [line.mergedText.value] else parts + [line.mergedText.value]
    else parts + [text]
  }

  /** The parts collected from the processed lines. */
  function ConcatParts(ps: seq<ProcessedLine>): (r: seq<string>)
    ensures |r| <= |ps|
  {
    if ps == [] then [] else CollectPart(ConcatParts(ps[..|ps| - 1]), ps[|ps| - 1])
  }

  /** _concatenate_text_lines */
  method ConcatenateTextLines(ps: seq<ProcessedLine>) returns (r: string)
    ensures r == Join(ConcatParts(ps), " ")
  {
    var parts: seq<string> := [];
    for i := 0 to |ps|
      invariant parts == ConcatParts(ps[..i])
    {
      ConcatPartsStep(ps, i);
      parts := AddPart(parts, ps[i]);
    }
    assert ps[..|ps|] == ps;
    r := Join(parts, " ");
  }

  /** The body of the loop in _concatenate_text_lines. */
  method AddPart(parts: seq<string>, line: ProcessedLine) returns (next: seq<string>)
    ensures next == CollectPart(parts, line)
  {
    next := parts;
    var text := Strip(TextOr(line.line));
    if text != [] {
      if line.isContinuation && line.mergedText.Some? && line.mergedText.value != [] {
        if next != [] {
          next := next[..|next| - 1] + [line.mergedText.value];
        } else {
          next := next + [line.mergedText.value];
        }
      } else {
        next := next + [text];
      }
    }
  }

  lemma ConcatPartsStep(ps: seq<ProcessedLine>, i: nat)
    requires i < |ps|
    ensures ConcatParts(ps[..i + 1]) == CollectPart(ConcatParts(ps[..i]), ps[i])
  {
    assert ps[..i + 1][..i] == ps[..i];
  }

  function LinesOf(ps: seq<ProcessedLine>): (r: seq<OcrLine>)
    ensures |r| == |ps| && forall i :: 0 <= i < |ps| ==> r[i] == ps[i].line
  {
    if ps == [] then [] else LinesOf(ps[..|ps| - 1]) + [ps[|ps| - 1].line]
  }

  /** Without continuations the result is the plain concatenation of the lines. */
  lemma {:induction false} NoContinuationIsSimple(ps: seq<ProcessedLine>)
    requires forall i :: 0 <= i < |ps| ==> !ps[i].isContinuation
    ensures ConcatParts(ps) == Parts(LinesOf(ps))
  {
    if ps != [] {
      var pre := ps[..|ps| - 1];
      NoContinuationIsSimple(pre);
      assert LinesOf(ps)[..|ps| - 1] == LinesOf(pre);
    }
  }

  /**
   * A word broken by a hyphen over two lines comes out whole: "w-" on one line and a word that does
   * not start with a capital on the next give the single part w + the second word.
   */
  lemma HyphenatedWordJoined(l1: OcrLine, l2: OcrLine, w: string)
    requires IsWord(w) && l1.text == Some(w + "-")
    requires l2.text.Some? && IsWord(l2.text.value) && !IsUpper(l2.text.value[0])
    ensures Analyze([l1, l2]).Ok?
    ensures ConcatParts(Analyze([l1, l2]).value) == [w + l2.text.value]
  {
    var t1, t2 := w + "-", l2.text.value;
    var merged := w + t2;
    var b := ProcessedLine(l2.(text := Some(merged)), true, false, true, Some(merged), Some(t2));
    HyphenAnalysis(l1, l2, w);
    var p := [Unmarked(l1), b];
    assert p[..0] == [] && p[..2] == p;
    ConcatPartsStep(p, 0);
    ConcatPartsStep(p, 1);
    WordConcat(w, "-");
    WordConcat(w, t2);
    CollectWord([], Unmarked(l1), t1);
    CollectWord([t1], b, merged);
  }

  lemma WordConcat(a: string, b: string)
    requires IsWord(a) && IsWord(b)
    ensures IsWord(a + b)
  {
    assert forall j :: 0 <= j < |a + b| ==> (a + b)[j] == if j < |a| then a[j] else b[j - |a|];
  }

  /** A line whose text is one word adds that word, or replaces the last part with it when it is a continuation. */
  lemma CollectWord(parts: seq<string>, line: ProcessedLine, w: string)
    requires IsWord(w) && line.line.text == Some(w)
    requires line.isContinuation ==> line.mergedText == Some(w)
    ensures CollectPart(parts, line) == if line.isContinuation && parts != [] then parts[..|parts| - 1] + [w] else parts + [w]
  {
    StripPlain(w);
  }

  lemma HyphenAnalysis(l1: OcrLine, l2: OcrLine, w: string)
    requires IsWord(w) && l1.text == Some(w + "-")
    requires l2.text.Some? && IsWord(l2.text.value) && !IsUpper(l2.text.value[0])
    ensures var merged := w + l2.text.value;
      Analyze([l1, l2]) == Ok([Unmarked(l1), ProcessedLine(l2.(text := Some(merged)), true, false, true, Some(merged), Some(l2.text.value))])
  {
    var t1, t2 := w + "-", l2.text.value;
    assert [l1, l2][..1] == [l1] && [l1][..0] == [];
    assert Analyze([l1]) == Ok([Unmarked(l1)]);
    assert t1[|t1| - 1] == '-' && t1[..|t1| - 1] == w;
    StepContinuation(Unmarked(l1), l2);
    var b := Step(Unmarked(l1), l2).value;
    assert [Unmarked(l1)] + [b] == [Unmarked(l1), b];
  }

  // ---- process_text_concatenation ----

  datatype ConcatRegion = ConcatRegion(
    regionId: string,
    regionType: string,
    concatenatedText: string,
    textLines: seq<OcrLine>,
    lineBreaksHandled: nat,
    mergedWords: nat)

  datatype Concatenation = Concatenation(scanId: string, regions: seq<ConcatRegion>, processingTimestamp: string)

  /** One region's entry, or the sort's ValueError. */
  function RegionConcat(region: OcrRegion): (r: Result<ConcatRegion, string>)
    ensures r.Ok? ==> r.value.lineBreaksHandled == 0 && r.value.mergedWords == 0
  {
    if region.lines == [] then Ok(ConcatRegion(region.regionId, region.regionType, "", [], 0, 0))
    else
      match SortLinesByY(region.lines)
      case Err(e) => Err(e)
      case Ok(sorted) => Ok(ConcatRegion(region.regionId, region.regionType, Join(Parts(sorted), " "), region.lines, 0, 0))
  }

  /** The entries of the regions in order, or the first region's error. */
  function RegionsConcat(regions: seq<OcrRegion>): (r: Result<seq<ConcatRegion>, string>)
    ensures r.Ok? ==> |r.value| == |regions|
  {
    ResultSeq.MapResult(regions, RegionConcat)
  }

  /** process_text_concatenation; the timestamp is a parameter. */
  method ProcessTextConcatenation(regions: seq<OcrRegion>, scanId: string, timestamp: string)
    returns (r: Result<Concatenation, string>)
    ensures r.Ok? <==> RegionsConcat(regions).Ok?
    ensures r.Ok? ==> r.value == Concatenation(scanId, RegionsConcat(regions).value, timestamp)
  {
    var out: seq<ConcatRegion> := [];
    for i := 0 to |regions|
      invariant RegionsConcat(regions[..i]) == Ok(out)
    {
      assert regions[..i + 1][..i] == regions[..i];
      var c := RegionConcat(regions[i]);
      if c.Err? {
        ResultSeq.MapResultFailurePersists(regions, RegionConcat, i + 1);
        assert regions[..|regions|] == regions;
        return Err(c.error);
      }
      out := out + [c.value];
    }
    assert regions[..|regions|] == regions;
    r := Ok(Concatenation(scanId, out, timestamp));
  }

  /** The result's region i. */
  lemma RegionsConcatAt(regions: seq<OcrRegion>, i: nat)
    requires i < |regions| && RegionsConcat(regions).Ok?
    ensures RegionConcat(regions[i]).Ok? && RegionsConcat(regions).value[i] == RegionConcat(regions[i]).value
  {
    ResultSeq.MapResultAt(regions, RegionConcat, i);
  }

  /**
   * One region per input region with its id, type and lines in their original order, no break or
   * merge counted, and as text the non-blank line texts in top-to-bottom order joined by spaces, so
   * that split() of it gives the words of those lines in that order.
   */
  lemma ConcatenatedRegion(regions: seq<OcrRegion>, i: nat)
    requires i < |regions| && RegionsConcat(regions).Ok?
    ensures var c := RegionsConcat(regions).value[i];
      && c.regionId == regions[i].regionId && c.regionType == regions[i].regionType
      && c.textLines == regions[i].lines
      && c.lineBreaksHandled == 0 && c.mergedWords == 0
      && (regions[i].lines == [] ==> c.concatenatedText == "")
      && (regions[i].lines != [] ==>
            SortLinesByY(regions[i].lines).Ok?
            && Words(c.concatenatedText) == LineWords(SortLinesByY(regions[i].lines).value))
  {
    RegionsConcatAt(regions, i);
    if regions[i].lines != [] {
      SimpleConcatenationWords(SortLinesByY(regions[i].lines).value);
    }
  }

  /** The whole call raises exactly when some non-empty region has a line whose points do not parse. */
  lemma ConcatenationFails(regions: seq<OcrRegion>)
    ensures RegionsConcat(regions).Err? <==>
      exists i, j :: 0 <= i < |regions| && 0 <= j < |regions[i].lines| && YKey(regions[i].lines[j]).Err?
  {
    SomeRegionFails(regions);
    if exists i, j :: 0 <= i < |regions| && 0 <= j < |regions[i].lines| && YKey(regions[i].lines[j]).Err? {
      var i, j :| 0 <= i < |regions| && 0 <= j < |regions[i].lines| && YKey(regions[i].lines[j]).Err?;
      RegionConcatFails(regions[i], j);
    }
    if exists i :: 0 <= i < |regions| && RegionConcat(regions[i]).Err? {
      var i :| 0 <= i < |regions| && RegionConcat(regions[i]).Err?;
      var j := RegionConcatFailsAt(regions[i]);
    }
  }

  /** A region whose line j has unparsable points fails. */
  lemma RegionConcatFails(region: OcrRegion, j: nat)
    requires j < |region.lines| && YKey(region.lines[j]).Err?
    ensures RegionConcat(region).Err?
  {
    assert !AllKeyed(region.lines);
  }

  /** A region fails only on a line with unparsable points. */
  lemma RegionConcatFailsAt(region: OcrRegion) returns (j: nat)
    requires RegionConcat(region).Err?
    ensures j < |region.lines| && YKey(region.lines[j]).Err?
  {
    j :| 0 <= j < |region.lines| && !YKey(region.lines[j]).Ok?;
  }

  lemma SomeRegionFails(regions: seq<OcrRegion>)
    ensures RegionsConcat(regions).Err? <==> exists i :: 0 <= i < |regions| && RegionConcat(regions[i]).Err?
  {
    ResultSeq.MapResultFails(regions, RegionConcat);
  }

  // ---- create_concatenated_json ----

  datatype Summary = Summary(totalRegions: nat, totalLineBreaksHandled: nat, totalMergedWords: nat, averageLineBreaksPerRegion: real)

  function SumBreaks(regions: seq<ConcatRegion>): nat
  {
    if regions == [] then 0 else SumBreaks(regions[..|regions| - 1]) + regions[|regions| - 1].lineBreaksHandled
  }

  function SumMerged(regions: seq<ConcatRegion>): nat
  {
    if regions == [] then 0 else SumMerged(regions[..|regions| - 1]) + regions[|regions| - 1].mergedWords
  }

  /** The summary statistics block. */
  function Summarize(regions: seq<ConcatRegion>): Summary
  {
    var n := |regions|;
    var breaks := SumBreaks(regions);
    Summary(n, breaks, SumMerged(regions), if n > 0 then breaks as real / n as real else 0.0)
  }

  /** create_concatenated_json */
  method CreateConcatenatedJson(regions: seq<OcrRegion>, scanId: string, timestamp: string)
    returns (r: Result<(Concatenation, Summary), string>)
    ensures r.Ok? <==> RegionsConcat(regions).Ok?
    ensures r.Ok? ==>
      r.value == (Concatenation(scanId, RegionsConcat(regions).value, timestamp), Summarize(RegionsConcat(regions).value))
  {
    var c := ProcessTextConcatenation(regions, scanId, timestamp);
    if c.Err? {
      return Err(c.error);
    }
    r := Ok((c.value, Summarize(c.value.regions)));
  }

  lemma {:induction false} CountsZero(regions: seq<ConcatRegion>)
    requires forall i :: 0 <= i < |regions| ==> regions[i].lineBreaksHandled == 0 && regions[i].mergedWords == 0
    ensures SumBreaks(regions) == 0 && SumMerged(regions) == 0
  {
    if regions != [] {
      CountsZero(regions[..|regions| - 1]);
    }
  }

  /** The summary counts the input regions and reports no line break or merged word, whatever the input. */
  lemma SummaryOfConcatenation(regions: seq<OcrRegion>)
    requires RegionsConcat(regions).Ok?
    ensures Summarize(RegionsConcat(regions).value) == Summary(|regions|, 0, 0, 0.0)
  {
    var out := RegionsConcat(regions).value;
    RegionsConcatCounts(regions, out);
    CountsZero(out);
  }

  lemma RegionsConcatCounts(regions: seq<OcrRegion>, out: seq<ConcatRegion>)
    requires RegionsConcat(regions) == Ok(out)
    ensures |out| == |regions|
    ensures forall i :: 0 <= i < |out| ==> out[i].lineBreaksHandled == 0 && out[i].mergedWords == 0
  {
    forall i | 0 <= i < |out| ensures out[i].lineBreaksHandled == 0 && out[i].mergedWords == 0 {
      RegionsConcatAt(regions, i);
    }
  }
}
