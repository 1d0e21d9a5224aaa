// ml-training/utils.py: reading the transcripts of the training images (process_texts), and the
// label encoding text_to_labels / labels_to_text.
module TrainingTexts {
  import opened Wrappers
  import opened Text
  import opened Paths
  import opened OcrDecode

  // ---- text_to_labels ----

  /** The characters of s that have an index in the vocabulary, in order. */
  function InVocab(s: string, p2idx: map<string, nat>): (t: string)
    ensures forall k :: 0 <= k < |t| ==> [t[k]] in p2idx
    ensures |t| <= |s|
  {
    if s == [] then ""
    else
      var c := s[|s| - 1];
      if [c] in p2idx then InVocab(s[..|s| - 1], p2idx) + [c] else InVocab(s[..|s| - 1], p2idx)
  }

  /** [p2idx[i] for i in s if i in p2idx.keys()] */
  function Kept(s: string, p2idx: map<string, nat>): seq<nat>
  {
    if s == [] then []
    else
      var c := s[|s| - 1];
      if [c] in p2idx then Kept(s[..|s| - 1], p2idx) + [p2idx[[c]]] else Kept(s[..|s| - 1], p2idx)
  }

  /** [p2idx['SOS']] + [p2idx[i] for i in s if i in p2idx.keys()] + [p2idx['EOS']]; KeyError without SOS or EOS. */
  function TextToLabels(s: string, p2idx: map<string, nat>): Option<seq<nat>>
  {
    if "SOS" !in p2idx || "EOS" !in p2idx then None
    else Some([p2idx["SOS"]] + Kept(s, p2idx) + [p2idx["EOS"]])
  }

  /** The kept indices are those of the in-vocabulary characters, one per character, in order. */
  lemma {:induction false} KeptSpec(s: string, p2idx: map<string, nat>)
    ensures |Kept(s, p2idx)| == |InVocab(s, p2idx)|
    ensures forall k :: 0 <= k < |Kept(s, p2idx)| ==> Kept(s, p2idx)[k] == p2idx[[InVocab(s, p2idx)[k]]]
  {
    if s != [] {
      KeptSpec(s[..|s| - 1], p2idx);
    }
  }

  /** Characters outside the vocabulary are the only ones dropped. */
  lemma {:induction false} InVocabAll(s: string, p2idx: map<string, nat>)
    ensures InVocab(s, p2idx) == s <==> forall k :: 0 <= k < |s| ==> [s[k]] in p2idx
  {
    if s != [] {
      InVocabAll(s[..|s| - 1], p2idx);
    }
  }

  /** Labels are SOS, the indices of the in-vocabulary characters, then EOS. */
  lemma TextToLabelsShape(s: string, p2idx: map<string, nat>)
    ensures TextToLabels(s, p2idx).Some? <==> "SOS" in p2idx && "EOS" in p2idx
    ensures TextToLabels(s, p2idx).Some? ==>
      var ls := TextToLabels(s, p2idx).value;
      |ls| == |InVocab(s, p2idx)| + 2 && ls[0] == p2idx["SOS"] && ls[|ls| - 1] == p2idx["EOS"]
      && forall k :: 0 <= k < |InVocab(s, p2idx)| ==> ls[k + 1] == p2idx[[InVocab(s, p2idx)[k]]]
  {
    KeptSpec(s, p2idx);
  }

  /** Each character's index decodes back to the character. */
  predicate Decodes(s: string, p2idx: map<string, nat>, idx2p: map<nat, string>)
  {
    forall k :: 0 <= k < |s| ==> [s[k]] in p2idx && p2idx[[s[k]]] in idx2p && idx2p[p2idx[[s[k]]]] == [s[k]]
  }

  lemma {:induction false} JoinedKept(s: string, p2idx: map<string, nat>, idx2p: map<nat, string>)
    requires Decodes(s, p2idx, idx2p)
    ensures Joined(Kept(s, p2idx), idx2p) == Some(s)
  {
    if s != [] {
      var init := s[..|s| - 1];
      assert Decodes(init, p2idx, idx2p) by {
        forall k | 0 <= k < |init| ensures init[k] == s[k] { }
      }
      JoinedKept(init, p2idx, idx2p);
      assert init + [s[|s| - 1]] == s;
    }
  }

  /**
   * labels_to_text(text_to_labels(s)[1:-1]) == s when every character of s decodes back to itself
   * and s holds no "EOS".
   */
  lemma LabelsRoundTrip(s: string, p2idx: map<string, nat>, idx2p: map<nat, string>)
    requires "SOS" in p2idx && "EOS" in p2idx
    requires Decodes(s, p2idx, idx2p) && !Contains(s, "EOS")
    ensures var ls := TextToLabels(s, p2idx).value;
      LabelsToText(ls[1..|ls| - 1], idx2p) == Some(s)
  {
    var ls := TextToLabels(s, p2idx).value;
    assert ls[1..|ls| - 1] == Kept(s, p2idx);
    JoinedKept(s, p2idx, idx2p);
  }

  // ---- normalisation ----

  /** str.replace(a, b) for single characters. */
  function ReplaceChar(s: string, a: char, b: char): (r: string)
    ensures |r| == |s|
    ensures forall k :: 0 <= k < |s| ==> r[k] == (if s[k] == a then b else s[k])
  {
    seq(|s|, k requires 0 <= k < |s| => if s[k] == a then b else s[k])
  }

  /** eng2rus.get(char, char): Latin and other look-alikes, dashes and quotes to their Russian forms. */
  function Eng2RusChar(c: char): char
  {
    match c
    case 'o' => '\U{043E}'  case 'a' => '\U{0430}'  case 'c' => '\U{0441}'  case 'e' => '\U{0435}'
    case 'p' => '\U{0440}'  case 'x' => '\U{0445}'  case 'k' => '\U{043A}'
    case 'O' => '\U{041E}'  case 'A' => '\U{0410}'  case 'C' => '\U{0421}'  case 'E' => '\U{0415}'
    case 'P' => '\U{0420}'  case 'X' => '\U{0425}'  case 'K' => '\U{041A}'
    case '\U{0456}' => '\U{0438}'  case '\U{0457}' => '\U{0438}'  case '\U{0463}' => '\U{044A}'
    case '\U{2010}' => '-'  case '\U{2014}' => '-'
    case '\U{00CF}' => '\U{0418}'  case '\U{00EB}' => '\U{0435}'  case '\U{00EF}' => '\U{0438}'
    case '\U{0406}' => '\U{0418}'  case '\U{0407}' => '\U{0418}'  case '\U{0472}' => '\U{0424}'
    case '\U{2018}' => '"'  case '\U{2019}' => '"'  case '\U{201E}' => '"'  case '\U{00AB}' => '"'
    case '\U{00BB}' => '"'  case '\'' => '"'
    case _ => c
  }

  /** A key of the eng2rus table. */
  predicate InEng2Rus(c: char)
  {
    match c
    case 'o' | 'a' | 'c' | 'e' | 'p' | 'x' | 'k' | 'O' | 'A' | 'C' | 'E' | 'P' | 'X' | 'K' => true
    case '\U{0456}' | '\U{0457}' | '\U{0463}' | '\U{2010}' | '\U{2014}' | '\U{00CF}' | '\U{00EB}' | '\U{00EF}' => true
    case '\U{0406}' | '\U{0407}' | '\U{0472}' | '\U{2018}' | '\U{2019}' | '\U{201E}' | '\U{00AB}' | '\U{00BB}' | '\'' => true
    case _ => false
  }

  /**
   * The transcript text after the four replace calls (Latin i and I to Cyrillic и and И, ё and Ё to
   * е and Е) and the eng2rus table.
   */
  function Normalise(data: string): string
  {
    var r := ReplaceChar(ReplaceChar(ReplaceChar(ReplaceChar(data, 'i', '\U{0438}'), 'I', '\U{0418}'),
                                     '\U{0451}', '\U{0435}'), '\U{0401}', '\U{0415}');
    seq(|r|, k requires 0 <= k < |r| => Eng2RusChar(r[k]))
  }

  /** A character normalisation rewrites. */
  predicate Lookalike(c: char)
  {
    InEng2Rus(c) || c == 'i' || c == 'I' || c == '\U{0451}' || c == '\U{0401}'
  }

  /** The table changes exactly its keys, and no character maps to one that would be replaced again. */
  lemma NormalisedChar(c: char)
    ensures Eng2RusChar(c) != c <==> InEng2Rus(c)
    ensures c != 'i' && c != 'I' && c != '\U{0451}' && c != '\U{0401}' ==> !Lookalike(Eng2RusChar(c))
  {
  }

  /**
   * Normalisation keeps the length, rewrites each character on its own, leaves no look-alike
   * character and fixes every text without one.
   */
  lemma NormaliseSpec(data: string)
    ensures |Normalise(data)| == |data|
    ensures forall k :: 0 <= k < |data| ==> !Lookalike(Normalise(data)[k])
    ensures forall k :: 0 <= k < |data| && !Lookalike(data[k]) ==> Normalise(data)[k] == data[k]
    ensures (forall k :: 0 <= k < |data| ==> !Lookalike(data[k])) ==> Normalise(data) == data
  {
    forall k | 0 <= k < |data| ensures !Lookalike(Normalise(data)[k]) {
      NormalisedChar(ReplaceChar(ReplaceChar(ReplaceChar(ReplaceChar(data, 'i', '\U{0438}'), 'I', '\U{0418}'),
                                             '\U{0451}', '\U{0435}'), '\U{0401}', '\U{0415}')[k]);
    }
  }

  /** Normalising twice is normalising once. */
  lemma NormaliseIdempotent(data: string)
    ensures Normalise(Normalise(data)) == Normalise(data)
  {
    NormaliseSpec(data);
    NormaliseSpec(Normalise(data));
  }

  // ---- pairing images with transcripts ----

  /** The name looked up among the transcripts: filename[:-3] + 'txt'. */
  function CheckedName(filename: string): string
  {
    (if |filename| >= 3 then filename[..|filename| - 3] else "") + "txt"
  }

  /** The transcript read for an image: os.path.splitext(filename)[0] + '.txt'. */
  function TranscriptName(filename: string): (t: string)
    ensures EndsWith(t, ".txt")
  {
    SplitExt(filename).0 + ".txt"
  }

  /** For an image with a three-letter extension such as ".jpg" or ".png", both names agree. */
  lemma CheckedNameAgrees(filename: string)
    requires |SplitExt(filename).1| == 4
    ensures CheckedName(filename) == TranscriptName(filename)
  {
    var (stem, ext) := SplitExt(filename);
    assert ext[0] == '.';
    assert filename[..|filename| - 3] == stem + ".";
  }

  /**
   * What process_texts does with one image as written: Ok(None) when it is skipped, Ok(Some(line))
   * when it is kept, Err when the transcript it reads does not exist.
   */
  function Entry(filename: string, transcripts: map<string, string>, delSym: set<char>): Result<Option<string>, string>
  {
    if CheckedName(filename) !in transcripts then Ok(None)
    else if TranscriptName(filename) !in transcripts then Err("FileNotFoundError")
    else Accept(transcripts[TranscriptName(filename)], delSym)
  }

  /** An empty text, or one holding a del_sym character, is skipped. */
  function Accept(raw: string, delSym: set<char>): Result<Option<string>, string>
  {
    var data := Normalise(raw);
    if |data| == 0 || exists k :: 0 <= k < |data| && data[k] in delSym then Ok(None) else Ok(Some(data))
  }

  /** The same with one pairing rule, splitext(filename)[0] + '.txt', for the check and the read. */
  function EntryCorrected(filename: string, transcripts: map<string, string>, delSym: set<char>): Result<Option<string>, string>
  {
    if TranscriptName(filename) !in transcripts then Ok(None)
    else Accept(transcripts[TranscriptName(filename)], delSym)
  }

  /** The corrected pairing never fails, and keeps an image exactly when its transcript exists and is accepted. */
  lemma EntryCorrectedSpec(filename: string, transcripts: map<string, string>, delSym: set<char>)
    ensures EntryCorrected(filename, transcripts, delSym).Ok?
    ensures EntryCorrected(filename, transcripts, delSym).value.Some? <==>
      TranscriptName(filename) in transcripts && Accept(transcripts[TranscriptName(filename)], delSym).value.Some?
    ensures forall line :: EntryCorrected(filename, transcripts, delSym) == Ok(Some(line)) ==>
      line == Normalise(transcripts[TranscriptName(filename)]) && |line| > 0
      && forall k :: 0 <= k < |line| ==> line[k] !in delSym
  {
  }

  /** Where the extension has three letters, the code as written does what the corrected pairing does. */
  lemma EntryAgrees(filename: string, transcripts: map<string, string>, delSym: set<char>)
    requires |SplitExt(filename).1| == 4
    ensures Entry(filename, transcripts, delSym) == EntryCorrected(filename, transcripts, delSym)
  {
    CheckedNameAgrees(filename);
  }

  /** "x.jpeg" next to "x.txt" is skipped as written, although its transcript exists. */
  lemma JpegTranscriptSkipped()
    ensures var transcripts := map["x.txt" := "1"];
      Entry("x.jpeg", transcripts, {}) == Ok(None)
      && EntryCorrected("x.jpeg", transcripts, {}) == Ok(Some("1"))
  {
    assert "x.jpeg" == "x" + ".jpeg";
    SplitExtStemExt("x", ".jpeg");
    assert CheckedName("x.jpeg") == "x.jtxt";
    assert TranscriptName("x.jpeg") == "x.txt";
    assert Normalise("1") == "1";
  }

  /** "x.jpeg" next to a file "x.jtxt" passes the check, then the read of "x.txt" fails. */
  lemma JpegTranscriptCrash()
    ensures Entry("x.jpeg", map["x.jtxt" := "1"], {}) == Err("FileNotFoundError")
  {
    assert "x.jpeg" == "x" + ".jpeg";
    SplitExtStemExt("x", ".jpeg");
    assert CheckedName("x.jpeg") == "x.jtxt";
  }

  // ---- process_texts ----

  /** One image under the pairing as written (asWritten) or under the corrected one. */
  function EntryOf(filename: string, transcripts: map<string, string>, delSym: set<char>, asWritten: bool): Result<Option<string>, string>
  {
    if asWritten then Entry(filename, transcripts, delSym) else EntryCorrected(filename, transcripts, delSym)
  }

  /** names and lines accumulated over the images, or the error raised on the way. */
  function Extract(images: seq<string>, transcripts: map<string, string>, delSym: set<char>, asWritten: bool)
    : (r: Result<(seq<string>, seq<string>), string>)
    ensures r.Ok? ==> |r.value.0| == |r.value.1| <= |images|
  {
    if images == [] then Ok(([], []))
    else
      var prev := Extract(images[..|images| - 1], transcripts, delSym, asWritten);
      var e := EntryOf(images[|images| - 1], transcripts, delSym, asWritten);
      if prev.Err? then prev
      else if e.Err? then Err(e.error)
      else if e.value.None? then prev
      else Ok((prev.value.0 + [images[|images| - 1]], prev.value.1 + [e.value.value]))
  }

  predicate Kept1(filename: string, transcripts: map<string, string>, delSym: set<char>, asWritten: bool)
  {
    EntryOf(filename, transcripts, delSym, asWritten).Ok? && EntryOf(filename, transcripts, delSym, asWritten).value.Some?
  }

  /**
   * names and lines stay index-aligned: the k-th line is the accepted, normalised transcript of the
   * k-th name, and the names are exactly the images kept.
   */
  lemma {:induction false} ExtractSpec(images: seq<string>, transcripts: map<string, string>, delSym: set<char>, asWritten: bool)
    requires Extract(images, transcripts, delSym, asWritten).Ok?
    ensures var (names, lines) := Extract(images, transcripts, delSym, asWritten).value;
      (forall k :: 0 <= k < |names| ==> EntryOf(names[k], transcripts, delSym, asWritten) == Ok(Some(lines[k])))
      && (forall k :: 0 <= k < |names| ==> names[k] in images)
      && (forall x :: x in images && Kept1(x, transcripts, delSym, asWritten) ==> x in names)
  {
    if images != [] {
      var init := images[..|images| - 1];
      ExtractSpec(init, transcripts, delSym, asWritten);
      assert forall x :: x in init ==> x in images;
      assert forall x :: x in images ==> x in init || x == images[|images| - 1];
    }
  }

  /**
   * As written, an image's transcript is read only when the check lets it through, and a read that
   * fails is the only error.
   */
  lemma {:induction false} ExtractErr(images: seq<string>, transcripts: map<string, string>, delSym: set<char>)
    ensures Extract(images, transcripts, delSym, true).Err? <==>
      exists k :: 0 <= k < |images| && CheckedName(images[k]) in transcripts && TranscriptName(images[k]) !in transcripts
  {
    if images != [] {
      var init := images[..|images| - 1];
      ExtractErr(init, transcripts, delSym);
      if exists k :: 0 <= k < |init| && CheckedName(init[k]) in transcripts && TranscriptName(init[k]) !in transcripts {
        var k :| 0 <= k < |init| && CheckedName(init[k]) in transcripts && TranscriptName(init[k]) !in transcripts;
        assert images[k] == init[k];
      }
    }
  }

  /** With the corrected pairing no listing raises. */
  lemma {:induction false} ExtractCorrectedOk(images: seq<string>, transcripts: map<string, string>, delSym: set<char>)
    ensures Extract(images, transcripts, delSym, false).Ok?
  {
    if images != [] {
      ExtractCorrectedOk(images[..|images| - 1], transcripts, delSym);
      EntryCorrectedSpec(images[|images| - 1], transcripts, delSym);
    }
  }

  /** What process_texts returns: names, lines, lens, the Counter of all letters, all_word. */
  datatype Corpus = Corpus(names: seq<string>, lines: seq<string>, lens: seq<nat>, counts: multiset<char>,
                           allWord: map<string, nat>)

  /**
   * The all_word loop: a word seen for the first time gets 0, each later occurrence adds 1, so a
   * word's entry is its number of occurrences minus one.
   */
  method CountWords(words: seq<string>) returns (allWord: map<string, nat>)
    ensures forall w :: w in allWord <==> w in words
    ensures forall w :: w in allWord ==> allWord[w] == multiset(words)[w] - 1
  {
    allWord := map[];
    for j := 0 to |words|
      invariant forall w :: w in allWord <==> w in words[..j]
      invariant forall w :: w in allWord ==> allWord[w] == multiset(words[..j])[w] - 1
    {
      var w := words[j];
      assert words[..j + 1] == words[..j] + [w];
      if w !in allWord {
        allWord := allWord[w := 0];
      } else {
        allWord := allWord[w := allWord[w] + 1];
      }
    }
    assert words[..|words|] == words;
  }

  /** The texts of lines run together without a separator (letters += data). */
  function Concat(lines: seq<string>): string
  {
    if lines == [] then "" else Concat(lines[..|lines| - 1]) + lines[|lines| - 1]
  }

  /** The loop of process_texts: the accepted names and lines, their lengths and all their letters. */
  method ReadTranscripts(images: seq<string>, transcripts: map<string, string>, delSym: set<char>)
    returns (names: seq<string>, lines: seq<string>, lens: seq<nat>, letters: string)
    ensures Extract(images, transcripts, delSym, false) == Ok((names, lines))
    ensures |lens| == |lines| && forall k :: 0 <= k < |lines| ==> lens[k] == |lines[k]|
    ensures letters == Concat(lines)
  {
    names, lines, lens, letters := [], [], [], "";
    for i := 0 to |images|
      invariant Extract(images[..i], transcripts, delSym, false) == Ok((names, lines))
      invariant |lens| == |lines| && forall k :: 0 <= k < |lines| ==> lens[k] == |lines[k]|
      invariant letters == Concat(lines)
    {
      ExtractCorrectedStep(images, transcripts, delSym, i, names, lines);
      var e := EntryCorrected(images[i], transcripts, delSym);
      if e.value.Some? {
        assert (lines + [e.value.value])[..|lines|] == lines;
        names := names + [images[i]];
        lines := lines + [e.value.value];
        lens := lens + [|e.value.value|];
        letters := letters + e.value.value;
      }
    }
    assert images[..|images|] == images;
  }

  /** One more image under the corrected pairing: never an error, and its line, if any, is appended. */
  lemma ExtractCorrectedStep(images: seq<string>, transcripts: map<string, string>, delSym: set<char>, i: nat,
                             names: seq<string>, lines: seq<string>)
    requires i < |images| && Extract(images[..i], transcripts, delSym, false) == Ok((names, lines))
    ensures var e := EntryCorrected(images[i], transcripts, delSym);
      e.Ok? && Extract(images[..i + 1], transcripts, delSym, false)
        == Ok(if e.value.Some? then (names + [images[i]], lines + [e.value.value]) else (names, lines))
  {
    assert images[..i + 1][..i] == images[..i];
    EntryCorrectedSpec(images[i], transcripts, delSym);
  }

  /**
   * process_texts over images = sorted(os.listdir(image_dir)) and the transcript directory, given
   * as a map from file name to content, with the corrected pairing: each image is checked and read
   * under splitext(filename)[0] + '.txt'. No accepted line at all raises ValueError at max().
   */
  method ProcessTexts(images: seq<string>, transcripts: map<string, string>, delSym: set<char>)
    returns (r: Result<Corpus, string>)
    ensures Extract(images, transcripts, delSym, false).Ok?
    ensures r.Ok? <==> |Extract(images, transcripts, delSym, false).value.0| > 0
    ensures r.Err? ==> r.error == "ValueError"
    ensures r.Ok? ==>
      var (names, lines) := Extract(images, transcripts, delSym, false).value;
      r.value.names == names && r.value.lines == lines
      && |r.value.lens| == |lines| && (forall k :: 0 <= k < |lines| ==> r.value.lens[k] == |lines[k]|)
      && r.value.counts == multiset(Concat(lines))
      && (forall w :: w in r.value.allWord <==> w in Words(Concat(lines)))
      && (forall w :: w in r.value.allWord ==> r.value.allWord[w] == multiset(Words(Concat(lines)))[w] - 1)
  {
    var names, lines, lens, letters := ReadTranscripts(images, transcripts, delSym);
    var allWord := CountWords(Words(letters));
    if |lens| == 0 {
      return Err("ValueError");
    }
    return Ok(Corpus(names, lines, lens, multiset(letters), allWord));
  }
}
