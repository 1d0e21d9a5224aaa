// ml-training/train_baseline.py: the vocabulary and the train/validation split of
// train_baseline_model, the early-stopping bookkeeping of train_all, and the decoding and
// label-to-text steps of validate.
module TrainBaseline {
  import opened Wrappers
  import opened Text
  import opened SortedChars
  import opened OcrDecode
  import opened TrainingTexts

  // ---- vocabulary ----

  /** (letter, index) pairs in enumeration order: the items of {p: idx for idx, p in enumerate(letters)}. */
  function Items(letters: seq<string>): (items: seq<(string, nat)>)
    ensures |items| == |letters|
  {
    seq(|letters|, i requires 0 <= i < |letters| => (letters[i], i))
  }

  /** ['PAD', 'SOS'] + sorted(set(cnt.keys())) + ['EOS'], with p2idx and its inversion idx2p. */
  function BaselineVocab(chars: set<char>): Vocab
  {
    var items := Items(Letters(Sorted(chars)));
    Vocab(DictOf(items), Inverted(items))
  }

  lemma LettersDistinct(chars: set<char>)
    ensures Distinct(Letters(Sorted(chars)))
  {
    var s := Sorted(chars);
    var ls := Letters(s);
    forall i, j | 0 <= i < j < |ls| ensures ls[i] != ls[j] {
      LetterAt(s, i);
      LetterAt(s, j);
      if 2 <= i && j < |s| + 2 {
        assert s[i - 2] < s[j - 2];
      }
    }
  }

  /** The i-th letter: PAD, SOS, the characters one by one, then EOS. */
  lemma LetterAt(s: string, i: nat)
    requires i < |s| + 3
    ensures Letters(s)[i] == if i == 0 then "PAD" else if i == 1 then "SOS" else if i < |s| + 2 then [s[i - 2]] else "EOS"
  {
  }

  lemma {:induction false} DictOfItems(letters: seq<string>)
    requires Distinct(letters)
    ensures DistinctKeys(Items(letters))
    ensures forall k :: 0 <= k < |letters| ==> letters[k] in DictOf(Items(letters)) && DictOf(Items(letters))[letters[k]] == k
    ensures forall c :: c in DictOf(Items(letters)) ==> exists k :: 0 <= k < |letters| && letters[k] == c
  {
    DictOfSpec(Items(letters));
    forall k | 0 <= k < |letters| ensures Items(letters)[k] == (letters[k], k) { }
    forall c | c in DictOf(Items(letters)) ensures exists k :: 0 <= k < |letters| && letters[k] == c {
      var k :| 0 <= k < |letters| && Items(letters)[k].0 == c;
      assert letters[k] == c;
    }
  }

  lemma {:induction false} LettersIndices(s: string)
    requires Distinct(Letters(s))
    ensures var p2idx := DictOf(Items(Letters(s)));
      "PAD" in p2idx && "SOS" in p2idx && "EOS" in p2idx
      && p2idx["PAD"] == 0 && p2idx["SOS"] == 1 && p2idx["EOS"] == |s| + 2
      && (forall k :: 0 <= k < |s| ==> [s[k]] in p2idx && p2idx[[s[k]]] == k + 2)
  {
    var ls := Letters(s);
    DictOfItems(ls);
    assert ls[0] == "PAD" && ls[1] == "SOS" && ls[|s| + 2] == "EOS";
    forall k | 0 <= k < |s| ensures ls[k + 2] == [s[k]] { }
  }

  /** PAD is 0, SOS 1, EOS the last index, and the k-th character in sorted order has index k + 2. */
  lemma BaselineVocabIndices(chars: set<char>)
    ensures var v := BaselineVocab(chars);
      "PAD" in v.p2idx && "SOS" in v.p2idx && "EOS" in v.p2idx
      && v.p2idx["PAD"] == 0 && v.p2idx["SOS"] == 1 && v.p2idx["EOS"] == |chars| + 2
      && (forall k :: 0 <= k < |chars| ==> [Sorted(chars)[k]] in v.p2idx && v.p2idx[[Sorted(chars)[k]]] == k + 2)
  {
    LettersDistinct(chars);
    LettersIndices(Sorted(chars));
  }

  /** p2idx and idx2p are mutual inverses. */
  lemma BaselineVocabInverse(chars: set<char>)
    ensures var v := BaselineVocab(chars);
      (forall c :: c in v.p2idx ==> v.p2idx[c] in v.idx2p && v.idx2p[v.p2idx[c]] == c)
      && (forall i :: i in v.idx2p ==> v.idx2p[i] in v.p2idx && v.p2idx[v.idx2p[i]] == i)
  {
    var ls := Letters(Sorted(chars));
    var p2idx := DictOf(Items(ls));
    LettersDistinct(chars);
    DictOfItems(ls);
    assert Injective(p2idx) by {
      forall c1, c2 | c1 in p2idx && c2 in p2idx && c1 != c2 ensures p2idx[c1] != p2idx[c2] {
        var k1 :| 0 <= k1 < |ls| && ls[k1] == c1;
        var k2 :| 0 <= k2 < |ls| && ls[k2] == c2;
      }
    }
    CheckpointRightInverse(Items(ls));
    CheckpointLeftInverse(Items(ls));
  }

  /**
   * The checkpoint saves p2idx as 'vocab'; OCRPredictor loading it gets back the same p2idx and
   * idx2p, and SOS and EOS decode from it.
   */
  lemma CheckpointVocab(chars: set<char>)
    ensures var items := Items(Letters(Sorted(chars)));
      DistinctKeys(items) && PredictorVocab(Some(items)) == BaselineVocab(chars)
      && "SOS" in PredictorVocab(Some(items)).p2idx && "EOS" in PredictorVocab(Some(items)).p2idx
  {
    LettersDistinct(chars);
    DictOfItems(Letters(Sorted(chars)));
    BaselineVocabIndices(chars);
  }

  // ---- train / validation split ----

  /** s[:t] for t >= 0 */
  function Take<T>(s: seq<T>, t: nat): seq<T>
  {
    if t <= |s| then s[..t] else s
  }

  /** s[t:] for t >= 0 */
  function Drop<T>(s: seq<T>, t: nat): seq<T>
  {
    if t <= |s| then s[t..] else []
  }

  datatype Split = Split(trainNames: seq<string>, trainLines: seq<string>, valNames: seq<string>, valLines: seq<string>)

  /** names[:train_size], lines[:train_size], names[train_size:], lines[train_size:] */
  function SplitAt(names: seq<string>, lines: seq<string>, trainSize: nat): Split
  {
    Split(Take(names, trainSize), Take(lines, trainSize), Drop(names, trainSize), Drop(lines, trainSize))
  }

  /**
   * The two slices partition names and lines in order at train_size, and an image keeps its line
   * on either side.
   */
  lemma SplitPartition(names: seq<string>, lines: seq<string>, trainSize: nat)
    requires |names| == |lines|
    ensures var sp := SplitAt(names, lines, trainSize);
      sp.trainNames + sp.valNames == names && sp.trainLines + sp.valLines == lines
      && |sp.trainNames| == |sp.trainLines| == (if trainSize <= |names| then trainSize else |names|)
      && |sp.valNames| == |sp.valLines|
      && (forall k :: 0 <= k < |sp.valNames| ==>
            sp.valNames[k] == names[|sp.trainNames| + k] && sp.valLines[k] == lines[|sp.trainNames| + k])
  {
    if trainSize <= |names| {
      assert names[..trainSize] + names[trainSize..] == names;
      assert lines[..trainSize] + lines[trainSize..] == lines;
    }
  }

  // ---- train_all: early stopping ----

  /** An epoch's CER improves on the best so far; None stands for float('inf'). */
  predicate Improves(cer: real, best: Option<real>)
  {
    best.None? || cer < best.value
  }

  /** best_eval_loss_cer after the epochs whose CERs are cers. */
  function BestAfter(cers: seq<real>, best0: Option<real>): Option<real>
  {
    if cers == [] then best0
    else
      var b := BestAfter(cers[..|cers| - 1], best0);
      if Improves(cers[|cers| - 1], b) then Some(cers[|cers| - 1]) else b
  }

  /** count_bad after the epochs whose CERs are cers. */
  function BadAfter(cers: seq<real>, best0: Option<real>): nat
  {
    if cers == [] then 0
    else if Improves(cers[|cers| - 1], BestAfter(cers[..|cers| - 1], best0)) then 0
    else BadAfter(cers[..|cers| - 1], best0) + 1
  }

  /** The best score is the least of the initial best and every CER seen. */
  lemma {:induction false} BestIsLeast(cers: seq<real>, best0: Option<real>)
    ensures BestAfter(cers, best0).None? <==> cers == [] && best0.None?
    ensures BestAfter(cers, best0).Some? ==>
      (forall k :: 0 <= k < |cers| ==> BestAfter(cers, best0).value <= cers[k])
      && (best0.Some? ==> BestAfter(cers, best0).value <= best0.value)
      && (BestAfter(cers, best0) == best0 || exists k :: 0 <= k < |cers| && BestAfter(cers, best0).value == cers[k])
  {
    if cers != [] {
      var init := cers[..|cers| - 1];
      BestIsLeast(init, best0);
      if BestAfter(init, best0) != best0 && BestAfter(cers, best0) == BestAfter(init, best0) {
        var k :| 0 <= k < |init| && BestAfter(init, best0).value == init[k];
        assert cers[k] == init[k];
      }
    }
  }

  /**
   * count_bad is the number of epochs since the last strict improvement: that many final epochs did
   * not improve, and the epoch before them did.
   */
  lemma {:induction false} BadCountsTrailing(cers: seq<real>, best0: Option<real>)
    ensures BadAfter(cers, best0) <= |cers|
    ensures forall j :: |cers| - BadAfter(cers, best0) <= j < |cers| ==> !Improves(cers[j], BestAfter(cers[..j], best0))
    ensures BadAfter(cers, best0) < |cers| ==>
      var j := |cers| - BadAfter(cers, best0) - 1;
      Improves(cers[j], BestAfter(cers[..j], best0))
  {
    if cers != [] {
      var init := cers[..|cers| - 1];
      BadCountsTrailing(init, best0);
      forall j | |cers| - BadAfter(cers, best0) <= j < |cers| - 1
        ensures !Improves(cers[j], BestAfter(cers[..j], best0))
      {
        assert cers[..j] == init[..j];
      }
      if BadAfter(cers, best0) < |cers| - 1 {
        var j := |cers| - BadAfter(cers, best0) - 1;
        assert cers[..j] == init[..j];
      }
    }
  }

  /** What an epoch writes: best.pt (and vocab.json), or checkpoint_{epoch}.pt. */
  datatype Save = Best(epoch: nat) | Checkpoint(epoch: nat)

  /** The file an epoch writes after the epochs before it gave CERs cers. */
  function SaveOf(epoch: nat, cer: real, cers: seq<real>, best0: Option<real>): Save
  {
    if Improves(cer, BestAfter(cers, best0)) then Best(epoch) else Checkpoint(epoch)
  }

  /** No epoch stopped the loop: count_bad stayed at most 5 after every epoch of run. */
  predicate NoEarlyStop(run: seq<real>, best0: Option<real>)
  {
    run == [] || (BadAfter(run, best0) <= 5 && NoEarlyStop(run[..|run| - 1], best0))
  }

  lemma {:induction false} NoEarlyStopAll(run: seq<real>, best0: Option<real>)
    ensures NoEarlyStop(run, best0) <==> forall j :: 0 < j <= |run| ==> BadAfter(run[..j], best0) <= 5
  {
    if run != [] {
      var init := run[..|run| - 1];
      NoEarlyStopAll(init, best0);
      forall j | 0 < j <= |init| ensures init[..j] == run[..j] { }
      assert run[..|run|] == run;
    }
  }

  /** The files written by the epochs of run, the first of them numbered epochs. */
  function SavesOf(run: seq<real>, epochs: nat, best0: Option<real>): seq<Save>
  {
    if run == [] then []
    else
      var init := run[..|run| - 1];
      SavesOf(init, epochs, best0) + [SaveOf(epochs + |init|, run[|run| - 1], init, best0)]
  }

  /** Each epoch writes the file its CER calls for. */
  lemma {:induction false} SavesOfAll(run: seq<real>, epochs: nat, best0: Option<real>)
    ensures |SavesOf(run, epochs, best0)| == |run|
    ensures forall k :: 0 <= k < |run| ==> SavesOf(run, epochs, best0)[k] == SaveOf(epochs + k, run[k], run[..k], best0)
  {
    if run != [] {
      var init := run[..|run| - 1];
      SavesOfAll(init, epochs, best0);
      forall k | 0 <= k < |init| ensures init[..k] == run[..k] { }
    }
  }

  /** The last state of the epoch loop. */
  datatype TrainState = TrainState(cerAll: seq<real>, best: Option<real>, countBad: nat, saves: seq<Save>)

  /** The loop's state after the epochs of run, starting from the caller's list and best score. */
  function StateAfter(run: seq<real>, epochs: nat, best0: Option<real>, cerAll0: seq<real>): TrainState
  {
    TrainState(cerAll0 + run, BestAfter(run, best0), BadAfter(run, best0), SavesOf(run, epochs, best0))
  }

  /** The body of the epoch loop once validate has returned the epoch's CER. */
  function EpochStep(st: TrainState, epoch: nat, cer: real): TrainState
  {
    if Improves(cer, st.best) then
      TrainState(st.cerAll + [cer], Some(cer), 0, st.saves + [Best(epoch)])
    else
      TrainState(st.cerAll + [cer], st.best, st.countBad + 1, st.saves + [Checkpoint(epoch)])
  }

  lemma StateAfterSnoc(run: seq<real>, epochs: nat, best0: Option<real>, cerAll0: seq<real>, c: real)
    ensures StateAfter(run + [c], epochs, best0, cerAll0) == EpochStep(StateAfter(run, epochs, best0, cerAll0), epochs + |run|, c)
    ensures NoEarlyStop(run, best0) && BadAfter(run + [c], best0) <= 5 ==> NoEarlyStop(run + [c], best0)
    ensures NoEarlyStop(run, best0) && BadAfter(run + [c], best0) > 5 ==> BadAfter(run + [c], best0) == 6
  {
    assert (run + [c])[..|run|] == run;
    assert cerAll0 + (run + [c]) == cerAll0 + run + [c];
  }

  /** The CERs of run are those of the epochs from epochs on. */
  predicate RunOf(run: seq<real>, epochs: nat, cer: nat -> real)
  {
    forall k :: 0 <= k < |run| ==> run[k] == cer(epochs + k)
  }

  lemma RunOfSnoc(run: seq<real>, epochs: nat, cer: nat -> real)
    requires RunOf(run, epochs, cer)
    ensures RunOf(run + [cer(epochs + |run|)], epochs, cer)
    ensures (run + [cer(epochs + |run|)])[..|run|] == run
  {
  }

  /**
   * train_all over the epochs range(epochs, max_epochs); cer(e) is what validate returns at epoch e.
   * An epoch that strictly improves the best CER resets count_bad and writes best.pt; any other
   * epoch increments count_bad and writes checkpoint_{epoch}.pt. The loop stops once count_bad
   * exceeds 5. eval_loss_cer_all is the caller's list, extended in place.
   */
  method TrainAll(epochs: nat, maxEpochs: nat, cer: nat -> real, best0: Option<real>, cerAll0: seq<real>)
    returns (st: TrainState, run: seq<real>)
    ensures epochs + |run| <= maxEpochs || run == []
    ensures forall k :: 0 <= k < |run| ==> run[k] == cer(epochs + k)
    ensures run == [] || NoEarlyStop(run[..|run| - 1], best0)
    ensures epochs + |run| == maxEpochs || BadAfter(run, best0) == 6 || (maxEpochs <= epochs && run == [])
    ensures st == StateAfter(run, epochs, best0, cerAll0)
  {
    run := [];
    st := TrainState(cerAll0, best0, 0, []);
    if maxEpochs <= epochs {
      return;
    }
    for epoch := epochs to maxEpochs
      invariant epoch == epochs + |run|
      invariant RunOf(run, epochs, cer) && NoEarlyStop(run, best0)
      invariant st == StateAfter(run, epochs, best0, cerAll0)
    {
      st, run := RunEpoch(st, run, epochs, cer, best0, cerAll0);
      if st.countBad > 5 {
        return;
      }
    }
  }

  /** One pass of the epoch loop: validate at the next epoch, then update the best score and count_bad. */
  method RunEpoch(st: TrainState, run: seq<real>, epochs: nat, cer: nat -> real, best0: Option<real>, cerAll0: seq<real>)
    returns (st': TrainState, run': seq<real>)
    requires RunOf(run, epochs, cer) && NoEarlyStop(run, best0) && st == StateAfter(run, epochs, best0, cerAll0)
    ensures run' == run + [cer(epochs + |run|)] && run'[..|run|] == run && RunOf(run', epochs, cer)
    ensures st' == StateAfter(run', epochs, best0, cerAll0)
    ensures st'.countBad <= 5 ==> NoEarlyStop(run', best0)
    ensures st'.countBad > 5 ==> BadAfter(run', best0) == 6
  {
    var c := cer(epochs + |run|);
    StateAfterSnoc(run, epochs, best0, cerAll0, c);
    RunOfSnoc(run, epochs, cer);
    st' := EpochStep(st, epochs + |run|, c);
    run' := run + [c];
  }

  // ---- validate ----

  /**
   * validate over a loader of batch size 1: each example is the network's argmax for its image and
   * the target labels. ValueError when p2idx is empty or lacks SOS or EOS; KeyError when an index
   * has no letter. The result holds, per example, the predicted and the real text.
   */
  method Validate(examples: seq<((nat, seq<nat>) -> nat, seq<nat>)>, v: Vocab)
    returns (r: Result<seq<(string, string)>, string>)
    ensures r == Err("ValueError") <==> "SOS" !in v.p2idx || "EOS" !in v.p2idx
    ensures r.Ok? <==> ("SOS" in v.p2idx && "EOS" in v.p2idx
      && forall k :: 0 <= k < |examples| ==>
        (PredictionOf(examples[k].0, v).Some? && LabelsToText(Generated(examples[k].1, v.p2idx["EOS"]), v.idx2p).Some?))
    ensures r.Ok? ==> (|r.value| == |examples|
      && forall k :: 0 <= k < |examples| ==>
        (Some(r.value[k].0) == PredictionOf(examples[k].0, v)
         && Some(r.value[k].1) == LabelsToText(Generated(examples[k].1, v.p2idx["EOS"]), v.idx2p)))
  {
    if |v.p2idx| == 0 || "SOS" !in v.p2idx || "EOS" !in v.p2idx {
      return Err("ValueError");
    }
    var pairs := ValidateAll(examples, v);
    if pairs.None? {
      return Err("KeyError");
    }
    return Ok(pairs.value);
  }

  /** The predicted and the real text of one example, when every index of both has a letter. */
  function ExampleTexts(example: ((nat, seq<nat>) -> nat, seq<nat>), v: Vocab): (r: Option<(string, string)>)
    requires "SOS" in v.p2idx && "EOS" in v.p2idx
    ensures r.Some? <==> PredictionOf(example.0, v).Some? && LabelsToText(Generated(example.1, v.p2idx["EOS"]), v.idx2p).Some?
    ensures r.Some? ==> Some(r.value.0) == PredictionOf(example.0, v)
                        && Some(r.value.1) == LabelsToText(Generated(example.1, v.p2idx["EOS"]), v.idx2p)
  {
    var pred := PredictionOf(example.0, v);
    var truth := LabelsToText(Generated(example.1, v.p2idx["EOS"]), v.idx2p);
    if pred.Some? && truth.Some? then Some((pred.value, truth.value)) else None
  }

  /** The loop of validate over the loader: the first example with an index without a letter raises KeyError. */
  method ValidateAll(examples: seq<((nat, seq<nat>) -> nat, seq<nat>)>, v: Vocab) returns (pairs: Option<seq<(string, string)>>)
    requires "SOS" in v.p2idx && "EOS" in v.p2idx
    ensures pairs.Some? <==> forall k :: 0 <= k < |examples| ==> ExampleTexts(examples[k], v).Some?
    ensures pairs.Some? ==> |pairs.value| == |examples| && forall k :: 0 <= k < |examples| ==> ExampleTexts(examples[k], v) == Some(pairs.value[k])
  {
    var out: seq<(string, string)> := [];
    for k := 0 to |examples|
      invariant |out| == k && forall j :: 0 <= j < k ==> ExampleTexts(examples[j], v) == Some(out[j])
    {
      var pair := ValidateExample(examples[k].0, examples[k].1, v);
      if pair.None? {
        return None;
      }
      out := out + [pair.value];
    }
    return Some(out);
  }

  /** One validation example: the predicted and the real text, or None when an index has no letter. */
  method ValidateExample(next: (nat, seq<nat>) -> nat, target: seq<nat>, v: Vocab) returns (pair: Option<(string, string)>)
    requires "SOS" in v.p2idx && "EOS" in v.p2idx
    ensures pair == ExampleTexts((next, target), v)
  {
    var eos := v.p2idx["EOS"];
    var outs, steps := DecodeBatch(next, 1, v.p2idx["SOS"], eos);
    var pred := LabelsToText(Generated(outs[0], eos), v.idx2p);
    var truth := LabelsToText(Generated(target, eos), v.idx2p);
    if pred.None? || truth.None? {
      return None;
    }
    return Some((pred.value, truth.value));
  }

  /**
   * The real text of a validation example whose target is text_to_labels(line) is the line itself,
   * when every character decodes back and none has EOS's index.
   */
  lemma RealTextIsLine(line: string, v: Vocab)
    requires "SOS" in v.p2idx && "EOS" in v.p2idx
    requires Decodes(line, v.p2idx, v.idx2p) && !Contains(line, "EOS")
    requires forall k :: 0 <= k < |line| ==> v.p2idx[[line[k]]] != v.p2idx["EOS"]
    ensures LabelsToText(Generated(TextToLabels(line, v.p2idx).value, v.p2idx["EOS"]), v.idx2p) == Some(line)
  {
    var eos := v.p2idx["EOS"];
    var ls := TextToLabels(line, v.p2idx).value;
    var kept := Kept(line, v.p2idx);
    KeptSpec(line, v.p2idx);
    InVocabAll(line, v.p2idx);
    var body := [v.p2idx["SOS"]] + kept;
    assert ls == body + [eos];
    assert Generated(ls, eos) == Generated(body, eos);
    forall k | 0 <= k < |body| && k > 0 ensures body[k] != eos {
      assert body[k] == kept[k - 1];
    }
    GeneratedSkipsFirst(body, eos);
    assert body[1..] == kept;
    JoinedKept(line, v.p2idx, v.idx2p);
  }

  /** Generated ignores the first token, so a sequence with no EOS after it yields everything after it. */
  lemma {:induction false} GeneratedSkipsFirst(out: seq<nat>, eos: nat)
    requires forall k :: 0 < k < |out| ==> out[k] != eos
    ensures out != [] ==> Generated(out, eos) == out[1..]
  {
    if |out| > 1 {
      GeneratedSkipsFirst(out[..|out| - 1], eos);
      assert out[..|out| - 1][1..] + [out[|out| - 1]] == out[1..];
    }
  }
}
