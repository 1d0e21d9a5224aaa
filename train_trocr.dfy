// ml-training/train_trocr.py: the character vocabulary added to the tokenizer (build_vocab), the
// list of paired image files, the text an example reads, and the train/validation sizes.
module TrainTrocr {
  import opened Wrappers
  import opened Text
  import opened SortedChars
  import opened Paths
  import opened TrainingTexts
  import OcrRecords

  // ---- build_vocab ----

  /** The characters of every file of the listing whose name ends in ".txt". */
  function TxtChars(listing: seq<string>, words: map<string, string>): set<char>
    requires forall f :: f in listing ==> f in words
  {
    if listing == [] then {}
    else
      var f := listing[|listing| - 1];
      var prev := TxtChars(listing[..|listing| - 1], words);
      if EndsWith(f, ".txt") then prev + (set c | c in words[f]) else prev
  }

  /** c.strip() or c == ' ': whitespace other than the space is removed. */
  predicate VocabChar(c: char)
  {
    !IsSpace(c) || c == ' '
  }

  /** A character comes from the .txt files exactly when one of them holds it. */
  lemma {:induction false} TxtCharsSpec(listing: seq<string>, words: map<string, string>)
    requires forall f :: f in listing ==> f in words
    ensures forall c :: c in TxtChars(listing, words) <==>
      exists k :: 0 <= k < |listing| && EndsWith(listing[k], ".txt") && c in words[listing[k]]
  {
    if listing != [] {
      var init := listing[..|listing| - 1];
      TxtCharsSpec(init, words);
      forall c | c in TxtChars(listing, words)
        ensures exists k :: 0 <= k < |listing| && EndsWith(listing[k], ".txt") && c in words[listing[k]]
      {
        if c in TxtChars(init, words) {
          var k :| 0 <= k < |init| && EndsWith(init[k], ".txt") && c in words[init[k]];
          assert listing[k] == init[k];
        }
      }
      forall c | exists k :: 0 <= k < |listing| && EndsWith(listing[k], ".txt") && c in words[listing[k]]
        ensures c in TxtChars(listing, words)
      {
        var k :| 0 <= k < |listing| && EndsWith(listing[k], ".txt") && c in words[listing[k]];
        if k < |init| {
          assert init[k] == listing[k];
        }
      }
    }
  }

  /**
   * build_vocab over words_dir, given as its listing and the contents of its files: the characters
   * of the .txt files, whitespace other than ' ' removed, sorted, each once.
   */
  method BuildVocab(listing: seq<string>, words: map<string, string>) returns (vocab: string)
    requires forall f :: f in listing ==> f in words
    ensures vocab == Sorted(set c | c in TxtChars(listing, words) && VocabChar(c))
    ensures StrictlyIncreasing(vocab)
    ensures forall c :: c in vocab <==>
      (VocabChar(c) && exists k :: 0 <= k < |listing| && EndsWith(listing[k], ".txt") && c in words[listing[k]])
  {
    var chars: set<char> := {};
    for i := 0 to |listing|
      invariant chars == TxtChars(listing[..i], words)
    {
      assert listing[..i + 1][..i] == listing[..i];
      var fname := listing[i];
      if EndsWith(fname, ".txt") {
        chars := chars + (set c | c in words[fname]);
      }
    }
    assert listing[..|listing|] == listing;
    TxtCharsSpec(listing, words);
    var kept := set c | c in chars && VocabChar(c);
    vocab := Sorted(kept);
  }

  // ---- the paired file list ----

  /** f.split(".")[-1]: the text after the last dot, or the whole name when it has none. */
  function LastDotPart(f: string): string
  {
    var parts := Split(f, '.');
    parts[|parts| - 1]
  }

  /** A name ending in a dot and an extension without dots has that extension as its last part. */
  lemma LastDotPartOf(s: string, e: string)
    requires '.' !in e
    ensures LastDotPart(s + "." + e) == e
  {
    SplitAtSep(s, '.', e);
    SplitNoSep(e, '.');
    assert s + "." + e == s + ['.'] + e;
  }

  /** The image is listed: an allowed extension, and its paired transcript exists. */
  predicate Listed(f: string, imageExt: string, words: map<string, string>)
  {
    Lower(LastDotPart(f)) in {Lower(imageExt), "png", "jpg"} && TranscriptName(f) in words
  }

  /** [f for f in os.listdir(images_dir) if <extension allowed> and <paired .txt exists>] */
  function FileList(images: seq<string>, imageExt: string, words: map<string, string>): seq<string>
  {
    if images == [] then []
    else
      var prev := FileList(images[..|images| - 1], imageExt, words);
      if Listed(images[|images| - 1], imageExt, words) then prev + [images[|images| - 1]] else prev
  }

  /** The file list holds exactly the listed images, in listing order. */
  lemma {:induction false} FileListSpec(images: seq<string>, imageExt: string, words: map<string, string>)
    ensures var fl := FileList(images, imageExt, words);
      (forall k :: 0 <= k < |fl| ==> fl[k] in images && Listed(fl[k], imageExt, words))
      && (forall f :: f in images && Listed(f, imageExt, words) ==> f in fl)
      && |fl| <= |images|
  {
    if images != [] {
      var init := images[..|images| - 1];
      FileListSpec(init, imageExt, words);
      assert forall f :: f in init ==> f in images;
      assert forall f :: f in images ==> f in init || f == images[|images| - 1];
    }
  }

  /** The list, or RuntimeError("No paired image/text files found.") when it is empty. */
  function PairedFiles(images: seq<string>, imageExt: string, words: map<string, string>): (r: Result<seq<string>, string>)
    ensures r.Ok? <==> exists f :: f in images && Listed(f, imageExt, words)
    ensures r.Ok? ==> r.value == FileList(images, imageExt, words) && |r.value| > 0
  {
    FileListSpec(images, imageExt, words);
    var fl := FileList(images, imageExt, words);
    if |fl| == 0 then assert fl == []; Err("RuntimeError")
    else assert fl[0] in images && Listed(fl[0], imageExt, words); Ok(fl)
  }

  /** OCRFolderDataset.__getitem__'s text: the paired transcript, stripped; RuntimeError when it cannot be read. */
  function ExampleText(img: string, words: map<string, string>): Result<string, string>
  {
    var name := TranscriptName(img);
    if name in words then Ok(Strip(words[name])) else Err("RuntimeError")
  }

  /**
   * The dataset reads the transcript by the pairing rule the listing checked, so every listed
   * image's text is read without error.
   */
  lemma ListedTextsRead(images: seq<string>, imageExt: string, words: map<string, string>)
    requires PairedFiles(images, imageExt, words).Ok?
    ensures var fl := PairedFiles(images, imageExt, words).value;
      forall k :: 0 <= k < |fl| ==>
        TranscriptName(fl[k]) in words && ExampleText(fl[k], words) == Ok(Strip(words[TranscriptName(fl[k])]))
  {
    FileListSpec(images, imageExt, words);
  }

  /** "page.JPG" passes the extension check for image_ext "jpg" once its transcript "page.txt" exists. */
  lemma UpperCaseExtensionListed()
    ensures Listed("page.JPG", "jpg", map["page.txt" := "1"])
  {
    LastDotPartOf("page", "JPG");
    assert "page.JPG" == "page" + "." + "JPG";
    assert Lower("JPG") == "jpg";
    assert Extension(".JPG");
    SplitExtStemExt("page", ".JPG");
    assert "page" + ".JPG" == "page.JPG";
    assert TranscriptName("page.JPG") == "page.txt";
  }

  // ---- train / validation sizes ----

  /**
   * val_size = int(val_split * len(dataset)) (given as valSize), train_size = len - val_size, and the
   * sizes of the two subsets random_split returns for the lengths [train_size, val_size]. These lengths
   * always add up to n, which is all random_split checks. With n == 1 their sum is 1, so they are
   * read as fractions, and a fraction outside [0, 1] raises ValueError. Otherwise the subsets are the
   * slices [0:train_size] and [train_size:n] of a random permutation, so a negative size does not raise.
   */
  function SplitSizes(n: nat, valSize: int): (r: Result<(nat, nat), string>)
  {
    if n == 1 then
      if valSize == 0 then Ok((1, 0)) else if valSize == 1 then Ok((0, 1)) else Err("ValueError")
    else
      var cut := OcrRecords.SliceIndex(n - valSize, n);
      Ok((cut, n - cut))
  }

  /**
   * The split sizes: a validation size that fits gives exactly the two lengths; only a one-element
   * dataset with a size other than 0 or 1 raises; and the subsets always partition the dataset, the
   * validation part empty for a negative size and the training part shrinking for an oversize one.
   */
  lemma SplitSizesSpec(n: nat, valSize: int)
    ensures 0 <= valSize <= n ==> SplitSizes(n, valSize) == Ok((n - valSize, valSize))
    ensures SplitSizes(n, valSize).Err? <==> n == 1 && (valSize < 0 || valSize > 1)
    ensures SplitSizes(n, valSize).Ok? ==> SplitSizes(n, valSize).value.0 + SplitSizes(n, valSize).value.1 == n
    ensures n != 1 && valSize < 0 ==> SplitSizes(n, valSize) == Ok((n, 0))
    ensures n != 1 && valSize > n ==> SplitSizes(n, valSize).value.1 == (if valSize >= 2 * n then n else valSize - n)
  {
  }
}
