// ml/ocr.py and ml/ocr_parameters.py: the recogniser's vocabulary, the greedy decoding loop run
// around the network, and labels_to_text.
module OcrDecode {
  import opened Wrappers
  import opened Text
  import opened OcrRecords

  // ---- labels_to_text ----

  /** "".join([idx2p[i] for i in s]); an index idx2p lacks raises KeyError (None). */
  function Joined(s: seq<nat>, idx2p: map<nat, string>): (r: Option<string>)
    ensures r.Some? <==> forall k :: 0 <= k < |s| ==> s[k] in idx2p
  {
    if s == [] then Some("")
    else
      var prev := Joined(s[..|s| - 1], idx2p);
      var i := s[|s| - 1];
      if prev.None? || i !in idx2p then None else Some(prev.value + idx2p[i])
  }

  /** ml/ocr.py: S if 'EOS' not in S else S[:S.find('EOS')]. */
  function CutAtEos(s: string): string
  {
    if !Contains(s, "EOS") then s else s[..Find(s, "EOS")]
  }

  /** ml/ocr_parameters.py: S if S.find('EOS') == -1 else S[:S.find('EOS')]. */
  function CutAtEosByFind(s: string): string
  {
    if Find(s, "EOS") == -1 then s else s[..Find(s, "EOS")]
  }

  function LabelsToText(s: seq<nat>, idx2p: map<nat, string>): Option<string>
  {
    var joined := Joined(s, idx2p);
    if joined.None? then None else Some(CutAtEos(joined.value))
  }

  function LabelsToTextByFind(s: seq<nat>, idx2p: map<nat, string>): Option<string>
  {
    var joined := Joined(s, idx2p);
    if joined.None? then None else Some(CutAtEosByFind(joined.value))
  }

  /** The two spellings of labels_to_text agree on every input. */
  lemma LabelsToTextAgree(s: seq<nat>, idx2p: map<nat, string>)
    ensures LabelsToText(s, idx2p) == LabelsToTextByFind(s, idx2p)
  {
    var joined := Joined(s, idx2p);
    if joined.Some? {
      CutAtEosAgree(joined.value);
    }
  }

  lemma CutAtEosAgree(s: string)
    ensures CutAtEos(s) == CutAtEosByFind(s)
  {
    if Find(s, "EOS") != -1 {
      assert OccursAt(s, "EOS", Find(s, "EOS"));
    }
  }

  /**
   * The text is the joined string up to its first "EOS": a prefix of it holding no "EOS", and the
   * whole string when it has none.
   */
  lemma CutAtEosSpec(s: string)
    ensures CutAtEos(s) <= s
    ensures !Contains(CutAtEos(s), "EOS")
    ensures !Contains(s, "EOS") ==> CutAtEos(s) == s
    ensures Contains(s, "EOS") ==> CutAtEos(s) + "EOS" <= s
  {
    if Contains(s, "EOS") {
      var w :| 0 <= w <= |s| - 3 && OccursAt(s, "EOS", w);
      var f := Find(s, "EOS");
      assert f >= 0;
      var r := s[..f];
      forall k | 0 <= k <= |r| - 3 ensures !OccursAt(r, "EOS", k) {
        assert !OccursAt(s, "EOS", k);
        assert r[k..k + 3] == s[k..k + 3];
      }
      assert s[f..f + 3] == "EOS";
      assert r + "EOS" == s[..f + 3];
    }
  }

  // ---- vocabulary ----

  /** {char: i for i, char in enumerate(letters)}: a repeated entry keeps its last index. */
  function IndexOf(letters: seq<string>): map<string, nat>
  {
    if letters == [] then map[]
    else IndexOf(letters[..|letters| - 1])[letters[|letters| - 1] := |letters| - 1]
  }

  /** Every letter has an index; the index of a letter is its last position in the list. */
  lemma {:induction false} IndexOfSpec(letters: seq<string>)
    ensures forall i :: 0 <= i < |letters| ==> letters[i] in IndexOf(letters)
    ensures forall c :: c in IndexOf(letters) ==>
      IndexOf(letters)[c] < |letters| && letters[IndexOf(letters)[c]] == c
      && forall j :: IndexOf(letters)[c] < j < |letters| ==> letters[j] != c
  {
    if letters != [] {
      var init := letters[..|letters| - 1];
      IndexOfSpec(init);
      forall c | c in IndexOf(letters) && c != letters[|letters| - 1]
        ensures IndexOf(letters)[c] == IndexOf(init)[c]
      {
      }
    }
  }

  /** {i: char for i, char in enumerate(letters)} */
  function Enumerated(letters: seq<string>): (m: map<nat, string>)
  {
    map i | 0 <= i < |letters| :: letters[i]
  }

  datatype Vocab = Vocab(p2idx: map<string, nat>, idx2p: map<nat, string>)

  function VocabOf(letters: seq<string>): Vocab
  {
    Vocab(IndexOf(letters), Enumerated(letters))
  }

  /** ['PAD', 'SOS'] + list(chars) + ['EOS'] */
  function Letters(chars: string): (ls: seq<string>)
    ensures |ls| == |chars| + 3
  {
    ["PAD", "SOS"] + seq(|chars|, i requires 0 <= i < |chars| => [chars[i]]) + ["EOS"]
  }

  /** The letters of the fallback alphabet of OCRPredictor. */
  const FallbackChars: string :=
    " !\"%'()*+,-./0123456789:;<=>?\\АБ"
    + "ВГДЕЖЗИЙКЛМНОПРСТУФХЦЧШЩЪЫЬЭЮЯаб"
    + "вгдежзийклмнопрстуфхцчшщъыьэюя№ѣ"
    + "ѳѵіїѐѓєѕіїјљњћќѝўџѡѣѥѧѩѫѭѯѱѳѵѷѹѻ"
    + "ѽѿҁ҂ҋҌҍҎҏҐґҒғҔҕҖҗҘҙҚқҜҝҞҟҠҡҢңҤҥҦ"
    + "ҧҨҩҪҫҬҭҮүҰұҲҳҴҵҶҷҸҹҺһҼҽҾҿӀӁӂӃӄӅӆ"
    + "ӇӈӉӊӋӌӍӎӏӐӑӒӓӔӕӖӗӘәӚӛӜӝӞӟӠӡӢӣӤӥӦ"
    + "ӧӨөӪӫӬӭӮӯӰӱӲӳӴӵӶӷӸӹӺӻӼӽӾӿԀԁԂԃԄԅԆ"
    + "ԇԈԉԊԋԌԍԎԏԐԑԒԓԔԕԖԗԘԙԚԛԜԝԞԟԠԡԢԣԤԥԦ"
    + "ԧԨԩԪԫԬԭԮԯꙀꙁꙂꙃꙄꙅꙆꙇꙈꙉꙊꙋꙌꙍꙎꙏꙐꙑꙒꙓꙔꙕꙖ"
    + "ꙗꙘꙙꙚꙛꙜꙝꙞꙟꙠꙡꙢꙣꙤꙥꙦꙧꙨꙩꙪꙫꙬ"

  /** The fallback vocabulary: PAD is 0, SOS 1 and EOS the last index. */
  lemma {:induction false} LettersSpecials(chars: string)
    ensures var v := VocabOf(Letters(chars));
      "PAD" in v.p2idx && "SOS" in v.p2idx && "EOS" in v.p2idx
      && v.p2idx["PAD"] == 0 && v.p2idx["SOS"] == 1 && v.p2idx["EOS"] == |chars| + 2
      && v.idx2p[0] == "PAD" && v.idx2p[1] == "SOS" && v.idx2p[|chars| + 2] == "EOS"
  {
    var ls := Letters(chars);
    IndexOfSpec(ls);
    assert ls[0] == "PAD" && ls[1] == "SOS" && ls[|chars| + 2] == "EOS";
    forall j | 0 <= j < |ls| && j != 0 ensures ls[j] != "PAD" {
      if 2 <= j < |chars| + 2 { assert |ls[j]| == 1; }
    }
    forall j | 0 <= j < |ls| && j != 1 ensures ls[j] != "SOS" {
      if 2 <= j < |chars| + 2 { assert |ls[j]| == 1; }
    }
  }

  /** Looking a letter up and back gives the letter, whatever repeats the letters hold. */
  lemma VocabLeftInverse(letters: seq<string>)
    ensures var v := VocabOf(letters);
      forall c :: c in v.p2idx ==> v.p2idx[c] in v.idx2p && v.idx2p[v.p2idx[c]] == c
  {
    IndexOfSpec(letters);
  }

  /** Looking an index up and back gives the index exactly when the letters are distinct. */
  lemma VocabRightInverse(letters: seq<string>)
    ensures var v := VocabOf(letters);
      (forall i :: 0 <= i < |letters| ==> v.idx2p[i] in v.p2idx && v.p2idx[v.idx2p[i]] == i) <==> Distinct(letters)
  {
    var v := VocabOf(letters);
    IndexOfSpec(letters);
    if Distinct(letters) {
      forall i | 0 <= i < |letters| ensures v.p2idx[v.idx2p[i]] == i {
        var c := letters[i];
        assert letters[v.p2idx[c]] == c;
      }
    } else {
      var i, j :| 0 <= i < j < |letters| && letters[i] == letters[j];
      assert v.idx2p[i] == letters[i];
    }
  }

  /** The fallback alphabet lists ѣ twice (and ѳ, ѵ, і, ї), so index-to-letter-to-index is not the identity. */
  lemma FallbackRepeats()
    ensures !Distinct(Letters(FallbackChars))
  {
    var ls := Letters(FallbackChars);
    assert FallbackChars[95] == FallbackChars[115];
    assert ls[97] == ls[117];
  }

  // ---- checkpoint vocabulary: p2idx = checkpoint['vocab'], idx2p = {idx: char for char, idx in p2idx.items()} ----

  predicate DistinctKeys(items: seq<(string, nat)>)
  {
    forall i, j :: 0 <= i < j < |items| ==> items[i].0 != items[j].0
  }

  /** The dictionary whose items, in order, are items. */
  function DictOf(items: seq<(string, nat)>): map<string, nat>
  {
    if items == [] then map[]
    else DictOf(items[..|items| - 1])[items[|items| - 1].0 := items[|items| - 1].1]
  }

  /** {idx: char for char, idx in items}: when two letters share an index the later one wins. */
  function Inverted(items: seq<(string, nat)>): map<nat, string>
  {
    if items == [] then map[]
    else Inverted(items[..|items| - 1])[items[|items| - 1].1 := items[|items| - 1].0]
  }

  predicate Injective(m: map<string, nat>)
  {
    forall c1, c2 :: c1 in m && c2 in m && c1 != c2 ==> m[c1] != m[c2]
  }

  /** Vocabulary of OCRPredictor: the checkpoint's items when it carries one, else the fallback letters. */
  function PredictorVocab(checkpoint: Option<seq<(string, nat)>>): (v: Vocab)
    requires checkpoint.Some? ==> DistinctKeys(checkpoint.value)
    ensures checkpoint.None? ==> v == VocabOf(Letters(FallbackChars))
    ensures checkpoint.Some? ==> v.p2idx == DictOf(checkpoint.value)
  {
    if checkpoint.Some? then Vocab(DictOf(checkpoint.value), Inverted(checkpoint.value))
    else VocabOf(Letters(FallbackChars))
  }

  /** The keys of the dictionary are the first components, its values among the second ones. */
  lemma {:induction false} DictOfSpec(items: seq<(string, nat)>)
    requires DistinctKeys(items)
    ensures forall k :: 0 <= k < |items| ==> items[k].0 in DictOf(items) && DictOf(items)[items[k].0] == items[k].1
    ensures forall c :: c in DictOf(items) ==> exists k :: 0 <= k < |items| && items[k].0 == c
  {
    if items != [] {
      DictOfSpec(items[..|items| - 1]);
    }
  }

  /** The inverted dictionary holds exactly the indices of the items, each mapped to the last letter bearing it. */
  lemma {:induction false} InvertedSpec(items: seq<(string, nat)>)
    ensures forall k :: 0 <= k < |items| ==> items[k].1 in Inverted(items)
    ensures forall i :: i in Inverted(items) ==>
      exists k :: 0 <= k < |items| && items[k] == (Inverted(items)[i], i)
  {
    if items != [] {
      var init := items[..|items| - 1];
      InvertedSpec(init);
      forall i | i in Inverted(items)
        ensures exists k :: 0 <= k < |items| && items[k] == (Inverted(items)[i], i)
      {
        if i == items[|items| - 1].1 {
          assert items[|items| - 1] == (Inverted(items)[i], i);
        } else {
          assert Inverted(items) == Inverted(init)[items[|items| - 1].1 := items[|items| - 1].0];
          assert i in Inverted(init) && Inverted(items)[i] == Inverted(init)[i];
          var k :| 0 <= k < |init| && init[k] == (Inverted(init)[i], i);
          assert items[k] == init[k];
        }
      }
    }
  }

  /** idx2p followed by p2idx is the identity on every index of a checkpoint vocabulary. */
  lemma CheckpointRightInverse(items: seq<(string, nat)>)
    requires DistinctKeys(items)
    ensures var v := PredictorVocab(Some(items));
      forall i :: i in v.idx2p ==> v.idx2p[i] in v.p2idx && v.p2idx[v.idx2p[i]] == i
  {
    DictOfSpec(items);
    InvertedSpec(items);
  }

  /**
   * p2idx followed by idx2p is the identity on every letter exactly when the checkpoint gives
   * distinct letters distinct indices: idx2p is then the inverse of p2idx.
   */
  lemma CheckpointLeftInverse(items: seq<(string, nat)>)
    requires DistinctKeys(items)
    ensures var v := PredictorVocab(Some(items));
      (forall c :: c in v.p2idx ==> v.p2idx[c] in v.idx2p && v.idx2p[v.p2idx[c]] == c) <==> Injective(v.p2idx)
  {
    var v := PredictorVocab(Some(items));
    DictOfSpec(items);
    InvertedSpec(items);
    CheckpointRightInverse(items);
    if Injective(v.p2idx) {
      forall c | c in v.p2idx ensures v.p2idx[c] in v.idx2p && v.idx2p[v.p2idx[c]] == c {
        var k :| 0 <= k < |items| && items[k].0 == c;
        assert items[k].1 in v.idx2p;
      }
    }
  }

  // ---- greedy decoding ----

  /** Maximum number of decoding steps (range(100)). */
  const MaxSteps: nat := 100

  predicate Finished(out: seq<nat>, eos: nat)
  {
    |out| > 0 && out[|out| - 1] == eos
  }

  /** One step for one sequence: the new token is appended unless the sequence already ends in EOS. */
  function StepOut(out: seq<nat>, token: nat, eos: nat): seq<nat>
  {
    if Finished(out, eos) then out else out + [token]
  }

  /**
   * out_indexes[b] after steps iterations of the decoding loop, when the network's argmax for a
   * sequence b whose tokens so far are p is next(b, p).
   */
  function Greedy(next: (nat, seq<nat>) -> nat, b: nat, sos: nat, eos: nat, steps: nat): (out: seq<nat>)
    ensures |out| > 0
  {
    if steps == 0 then [sos]
    else
      var prev := Greedy(next, b, sos, eos, steps - 1);
      StepOut(prev, next(b, prev), eos)
  }

  /**
   * A decoded sequence starts with SOS, holds at most steps + 1 tokens, holds EOS at no position
   * but the last, and a sequence shorter than steps + 1 tokens has finished.
   */
  lemma {:induction false} GreedyShape(next: (nat, seq<nat>) -> nat, b: nat, sos: nat, eos: nat, steps: nat)
    requires sos != eos
    ensures var out := Greedy(next, b, sos, eos, steps);
      out[0] == sos && |out| <= steps + 1
      && (forall k :: 0 <= k < |out| - 1 ==> out[k] != eos)
      && (|out| < steps + 1 ==> Finished(out, eos))
  {
    if steps > 0 {
      GreedyShape(next, b, sos, eos, steps - 1);
    }
  }

  /** Once a sequence ends in EOS, further steps leave it unchanged. */
  lemma {:induction false} GreedyStops(next: (nat, seq<nat>) -> nat, b: nat, sos: nat, eos: nat, s: nat, t: nat)
    requires s <= t && Finished(Greedy(next, b, sos, eos, s), eos)
    ensures Greedy(next, b, sos, eos, t) == Greedy(next, b, sos, eos, s)
    decreases t
  {
    if s < t {
      GreedyStops(next, b, sos, eos, s, t - 1);
    }
  }

  /** Every sequence of the batch of size n has finished after s steps. */
  predicate AllFinished(next: (nat, seq<nat>) -> nat, n: nat, sos: nat, eos: nat, s: nat)
  {
    forall b :: 0 <= b < n ==> Finished(Greedy(next, b, sos, eos, s), eos)
  }

  /** for b_idx in range(batch_size): append the token to each sequence not ending in EOS. */
  method AppendUnfinished(outs: seq<seq<nat>>, tokens: seq<nat>, eos: nat) returns (outs': seq<seq<nat>>)
    requires |tokens| == |outs| && forall b :: 0 <= b < |outs| ==> |outs[b]| > 0
    ensures |outs'| == |outs|
    ensures forall b :: 0 <= b < |outs| ==> outs'[b] == StepOut(outs[b], tokens[b], eos)
  {
    outs' := outs;
    for b := 0 to |outs|
      invariant |outs'| == |outs|
      invariant forall b' :: 0 <= b' < b ==> outs'[b'] == StepOut(outs[b'], tokens[b'], eos)
      invariant forall b' :: b <= b' < |outs| ==> outs'[b'] == outs[b']
    {
      if outs'[b][|outs'[b]| - 1] != eos {
        outs' := outs'[b := outs'[b] + [tokens[b]]];
      }
    }
  }

  /**
   * State of the decoding loop after steps iterations: out_indexes holds the greedy sequences, and
   * the decoder input of a sequence not yet finished equals it.
   */
  predicate Decoded(next: (nat, seq<nat>) -> nat, n: nat, sos: nat, eos: nat, steps: nat,
                    outs: seq<seq<nat>>, trgs: seq<seq<nat>>)
  {
    |outs| == n && |trgs| == n
    && (forall b :: 0 <= b < n ==> outs[b] == Greedy(next, b, sos, eos, steps))
    && (forall b :: 0 <= b < n && !Finished(outs[b], eos) ==> trgs[b] == outs[b])
  }

  /** One iteration of the decoding loop: argmax for every sequence, then the appends. */
  method DecodeStep(next: (nat, seq<nat>) -> nat, n: nat, sos: nat, eos: nat, steps: nat,
                    outs: seq<seq<nat>>, trgs: seq<seq<nat>>)
    returns (outs': seq<seq<nat>>, trgs': seq<seq<nat>>)
    requires Decoded(next, n, sos, eos, steps, outs, trgs)
    ensures Decoded(next, n, sos, eos, steps + 1, outs', trgs')
  {
    var tokens: seq<nat> := seq(n, b requires 0 <= b < n => next(b, trgs[b]));
    outs' := AppendUnfinished(outs, tokens, eos);
    trgs' := seq(n, b requires 0 <= b < n => trgs[b] + [tokens[b]]);
  }

  /**
   * The decoding loop of OCRPredictor.predict and of validate in train_baseline.py over a batch of n
   * sequences. trgs is the decoder input, which grows by the argmax token for every sequence at
   * every step, finished or not; outs is out_indexes. The loop stops after the first step at which
   * every sequence ends in EOS, and after MaxSteps steps at the latest.
   */
  method DecodeBatch(next: (nat, seq<nat>) -> nat, n: nat, sos: nat, eos: nat) returns (outs: seq<seq<nat>>, steps: nat)
    ensures |outs| == n && 0 < steps <= MaxSteps
    ensures forall b :: 0 <= b < n ==> outs[b] == Greedy(next, b, sos, eos, steps)
    ensures steps < MaxSteps ==> AllFinished(next, n, sos, eos, steps)
    ensures forall s :: 0 < s < steps ==> !AllFinished(next, n, sos, eos, s)
    ensures forall b :: 0 <= b < n ==> outs[b] == Greedy(next, b, sos, eos, MaxSteps)
  {
    outs := seq(n, b => [sos]);
    var trgs := outs;
    steps := 0;
    var done := false;
    while !done
      invariant steps <= MaxSteps && Decoded(next, n, sos, eos, steps, outs, trgs)
      invariant forall s :: 0 < s < steps ==> !AllFinished(next, n, sos, eos, s)
      invariant done ==> 0 < steps && (steps < MaxSteps ==> AllFinished(next, n, sos, eos, steps))
      invariant !done ==> steps < MaxSteps && (steps > 0 ==> !AllFinished(next, n, sos, eos, steps))
      decreases MaxSteps - steps, !done
    {
      outs, trgs := DecodeStep(next, n, sos, eos, steps, outs, trgs);
      steps := steps + 1;
      if forall b :: 0 <= b < n ==> Finished(outs[b], eos) {
        done := true;
      } else if steps == MaxSteps {
        done := true;
      }
    }
    forall b | 0 <= b < n ensures outs[b] == Greedy(next, b, sos, eos, MaxSteps) {
      if steps < MaxSteps {
        GreedyStops(next, b, sos, eos, steps, MaxSteps);
      }
    }
  }

  // ---- predict ----

  /** out_indexes[b][1:] without its EOS tokens. */
  function Generated(out: seq<nat>, eos: nat): (g: seq<nat>)
    ensures forall k :: 0 <= k < |g| ==> g[k] != eos
    ensures |g| < |out| || out == []
  {
    if |out| <= 1 then []
    else
      var init := Generated(out[..|out| - 1], eos);
      if out[|out| - 1] == eos then init else init + [out[|out| - 1]]
  }

  /** A sequence decoded without EOS loses only its SOS. */
  lemma {:induction false} GeneratedUnfinished(out: seq<nat>, eos: nat)
    requires forall k :: 0 <= k < |out| ==> out[k] != eos
    ensures out != [] ==> Generated(out, eos) == out[1..]
  {
    if |out| > 1 {
      GeneratedUnfinished(out[..|out| - 1], eos);
      assert out[..|out| - 1][1..] + [out[|out| - 1]] == out[1..];
    }
  }

  /** The text predicted for one image: decode from SOS, drop SOS and EOS, join, cut at "EOS". */
  function PredictionOf(next: (nat, seq<nat>) -> nat, v: Vocab): Option<string>
    requires "SOS" in v.p2idx && "EOS" in v.p2idx
  {
    var out := Greedy(next, 0, v.p2idx["SOS"], v.p2idx["EOS"], MaxSteps);
    LabelsToText(Generated(out, v.p2idx["EOS"]), v.idx2p)
  }

  /** A predicted text never holds "EOS". */
  lemma PredictionHasNoEos(next: (nat, seq<nat>) -> nat, v: Vocab)
    requires "SOS" in v.p2idx && "EOS" in v.p2idx && PredictionOf(next, v).Some?
    ensures !Contains(PredictionOf(next, v).value, "EOS")
  {
    var out := Greedy(next, 0, v.p2idx["SOS"], v.p2idx["EOS"], MaxSteps);
    CutAtEosSpec(Joined(Generated(out, v.p2idx["EOS"]), v.idx2p).value);
  }

  /**
   * OCRPredictor.predict: each image is decoded on its own (a batch of one). decoderFor(images[i])
   * is the network's argmax for that image. A missing SOS or EOS letter, or a generated index
   * without a letter, raises KeyError.
   */
  method Predict(images: seq<Image>, decoderFor: Image -> ((nat, seq<nat>) -> nat), v: Vocab)
    returns (r: Result<(seq<string>, seq<real>), string>)
    ensures r.Ok? <==> (|images| == 0 || ("SOS" in v.p2idx && "EOS" in v.p2idx
      && forall i :: 0 <= i < |images| ==> PredictionOf(decoderFor(images[i]), v).Some?))
    ensures r.Ok? ==> (|r.value.0| == |images| && |r.value.1| == |images|
      && (forall i :: 0 <= i < |images| ==> r.value.1[i] == 1.0)
      && (forall i :: 0 <= i < |images| ==>
        "SOS" in v.p2idx && "EOS" in v.p2idx && Some(r.value.0[i]) == PredictionOf(decoderFor(images[i]), v)))
    ensures r.Err? ==> r.error == "KeyError"
  {
    var predictions: seq<string> := [];
    var confidences: seq<real> := [];
    for i := 0 to |images|
      invariant |predictions| == i && |confidences| == i
      invariant i > 0 ==> "SOS" in v.p2idx && "EOS" in v.p2idx
      invariant forall j :: 0 <= j < i ==> confidences[j] == 1.0
      invariant forall j :: 0 <= j < i ==> Some(predictions[j]) == PredictionOf(decoderFor(images[j]), v)
    {
      if "SOS" !in v.p2idx || "EOS" !in v.p2idx {
        return Err("KeyError");
      }
      var outs, steps := DecodeBatch(decoderFor(images[i]), 1, v.p2idx["SOS"], v.p2idx["EOS"]);
      var text := LabelsToText(Generated(outs[0], v.p2idx["EOS"]), v.idx2p);
      if text.None? {
        return Err("KeyError");
      }
      predictions := predictions + [text.value];
      confidences := confidences + [1.0];
    }
    return Ok((predictions, confidences));
  }
}
