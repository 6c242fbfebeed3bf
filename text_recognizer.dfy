/** The OCR side of the recogniser (backend/core/text_recognizer.py): picks the best of four
    whole-image readings, turns Tesseract's word table into deduplicated, rescaled and sorted text
    regions, and extracts part number, quantity, date and lot from the text.

    Tesseract is an oracle: `readText(k, psm)` is what `image_to_string` does on the k-th
    preprocessed image with that page-segmentation mode, and `readData` is the word table of
    `image_to_data` on the first preprocessed image (None when the call raised). Regular-expression
    search is the oracle `search(pattern, text)`, the first capture group of the first match. */
module TextRecognizer {
  import opened Wrappers
  import opened Strings
  import opened Boxes
  import opened Sorting

  /** What one `image_to_string` call does. */
  datatype ReadOutcome = Read(raw: string) | ReadFailed(message: string)

  /** One row of the `image_to_data` table. */
  datatype Word = Word(text: string, conf: real, left: int, top: int, width: int, height: int, level: int)

  /** A text region: `text`, `position`, `confidence`, `level`. */
  datatype Region = Region(text: string, position: Box, confidence: real, level: int)

  /** The engine as the recogniser sees it: whether Tesseract answered at start-up, and the
      oracles for its two calls and for pattern search. */
  datatype Engine = Engine(
    available: bool,
    readText: (nat, int) -> ReadOutcome,
    readData: Option<seq<Word>>,
    search: (string, string) -> Option<string>)

  /** `recognize_full`'s result: `full_text`, `text_regions`, `structured_fields`. */
  datatype FullResult = FullResult(fullText: string, regions: seq<Region>, fields: map<string, string>)

  /** `recognize_text`: the stripped reading, or "" when Tesseract is unavailable or raises. */
  function RecognizeText(engine: Engine, image: nat, psm: int): (text: string)
    ensures !engine.available ==> text == ""
    ensures engine.available && engine.readText(image, psm).ReadFailed? ==> text == ""
    ensures engine.available && engine.readText(image, psm).Read? ==>
      text == Strip(engine.readText(image, psm).raw)
    ensures text == [] || (!IsSpace(text[0]) && !IsSpace(text[|text| - 1]))
  {
    if !engine.available then ""
    else match engine.readText(image, psm)
      case Read(raw) => Strip(raw)
      case ReadFailed(_) => ""
  }

  /** The whole-image readings `recognize_multimode` tries: preprocessed image 0 and then 1,
      each with page-segmentation mode 3 and then 6. */
  const Attempts: seq<(nat, int)> := [(0, 3), (0, 6), (1, 3), (1, 6)]

  /** A reading's quality: its length, plus 100 when it mentions ITEM, LOT or QTY in any case. */
  function QualityScore(text: string): (score: int)
    ensures score == |text| || score == |text| + 100
    ensures score == |text| + 100 <==>
      Contains(Upper(text), "ITEM") || Contains(Upper(text), "LOT") || Contains(Upper(text), "QTY")
  {
    var upper := Upper(text);
    if Contains(upper, "ITEM") || Contains(upper, "LOT") || Contains(upper, "QTY") then |text| + 100
    else |text|
  }

  datatype Candidate = Candidate(text: string, score: int, preprocess: nat, psm: int)

  /** The candidates of the first `n` attempts: each non-empty reading, in attempt order. */
  function Candidates(engine: Engine, n: nat): (cs: seq<Candidate>)
    requires n <= |Attempts|
    ensures |cs| <= n
    ensures forall c | c in cs :: c.text != "" && c.score == QualityScore(c.text)
  {
    if n == 0 then []
    else
      var text := RecognizeText(engine, Attempts[n - 1].0, Attempts[n - 1].1);
      if text != "" then Candidates(engine, n - 1) + [Candidate(text, QualityScore(text), Attempts[n - 1].0, Attempts[n - 1].1)]
      else Candidates(engine, n - 1)
  }

  /** Python's `max(cs, key=score)`: the index of the first candidate with the highest score. */
  function FirstBest(cs: seq<Candidate>): (i: nat)
    requires cs != []
    ensures i < |cs|
    ensures forall j | 0 <= j < |cs| :: cs[j].score <= cs[i].score
    ensures forall j | 0 <= j < i :: cs[j].score < cs[i].score
  {
    if |cs| == 1 then 0
    else
      var m := FirstBest(cs[..|cs| - 1]);
      assert forall j | 0 <= j < |cs| - 1 :: cs[..|cs| - 1][j] == cs[j];
      if cs[|cs| - 1].score > cs[m].score then |cs| - 1 else m
  }

  /** What `recognize_multimode` returns. */
  function BestReading(engine: Engine): string {
    var cs := Candidates(engine, |Attempts|);
    if cs == [] then "" else cs[FirstBest(cs)].text
  }

  /** The best reading is "" exactly when every attempt read nothing; otherwise it is a
      non-empty reading of some attempt whose score no attempt beats, and every attempt tried
      before it scores strictly less. */
  lemma BestReadingChoice(engine: Engine)
    ensures var cs := Candidates(engine, |Attempts|);
      && (BestReading(engine) == "" <==> cs == [])
      && (cs != [] ==> exists i | 0 <= i < |cs| ::
            && BestReading(engine) == cs[i].text
            && (forall j | 0 <= j < |cs| :: cs[j].score <= cs[i].score)
            && (forall j | 0 <= j < i :: cs[j].score < cs[i].score))
  {
    var cs := Candidates(engine, |Attempts|);
    if cs != [] {
      var i := FirstBest(cs);
      assert cs[i] in cs;
    }
  }

  /** The loops of `recognize_multimode`: every attempt is read, and the non-empty readings are
      collected with their scores. */
  method CollectCandidates(engine: Engine) returns (allResults: seq<Candidate>)
    ensures allResults == Candidates(engine, |Attempts|)
  {
    var psms := [3, 6];
    allResults := [];
    ghost var tried := 0;
    for idx := 0 to 2
      invariant tried == idx + idx && allResults == Candidates(engine, tried)
    {
      for j := 0 to 2
        invariant tried == idx + idx + j && allResults == Candidates(engine, tried)
      {
        var psm := psms[j];
        var reading := RecognizeText(engine, idx, psm);
        assert Attempts[tried] == (idx, psm) by {
          assert psms == [3, 6];
        }
        if reading != "" {
          allResults := allResults + [Candidate(reading, QualityScore(reading), idx, psm)];
        }
        tried := tried + 1;
      }
    }
  }

  /** `recognize_multimode`: the first best candidate, or "" when there is none. */
  method RecognizeMultimode(engine: Engine) returns (text: string)
    ensures text == BestReading(engine)
  {
    var allResults := CollectCandidates(engine);
    if allResults == [] {
      return "";
    }
    var best := allResults[FirstBest(allResults)];
    text := best.text;
  }

  /** The word table with every text stripped, as the extraction loop reads it. */
  function Stripped(words: seq<Word>): (cells: seq<Word>)
    ensures |cells| == |words|
    ensures forall i | 0 <= i < |words| :: cells[i] == words[i].(text := Strip(words[i].text))
  {
    seq(|words|, i requires 0 <= i < |words| => words[i].(text := Strip(words[i].text)))
  }

  /** A (stripped) word survives the filter when its confidence reaches the minimum and its text
      is not empty. */
  predicate Qualifies(w: Word, minConfidence: real) {
    !(w.conf < minConfidence) && w.text != ""
  }

  /** The deduplication key of a stripped word: its text and the 15-pixel cell of the word's top-left corner
      in the preprocessed image. */
  function CellKey(w: Word): (string, int, int) {
    (w.text, w.left / 15, w.top / 15)
  }

  /** Whether every index in `idx` is a row of `words`. */
  predicate Rows(words: seq<Word>, idx: seq<nat>) {
    forall k | 0 <= k < |idx| :: idx[k] < |words|
  }

  function KeysOf(words: seq<Word>, idx: seq<nat>): set<(string, int, int)>
    requires Rows(words, idx)
  {
    set k | 0 <= k < |idx| :: CellKey(words[idx[k]])
  }

  /** Indices of the words among the first `n` that are kept: qualifying, and the first with
      their key. */
  function Kept(words: seq<Word>, minConfidence: real, n: nat): (idx: seq<nat>)
    requires n <= |words|
    ensures forall k | 0 <= k < |idx| :: idx[k] < n
  {
    if n == 0 then []
    else
      var prev := Kept(words, minConfidence, n - 1);
      if Qualifies(words[n - 1], minConfidence) && CellKey(words[n - 1]) !in KeysOf(words, prev)
      then prev + [n - 1]
      else prev
  }

  /** The region emitted for a kept (stripped) word: coordinates scaled by 0.4 back to the original image
      (truncated), confidence scaled from percent to a fraction. */
  function RegionOf(w: Word): (r: Region)
    ensures r.text == w.text && r.confidence == w.conf / 100.0 && r.level == w.level
    ensures r.position == Box(TruncDiv(2 * w.left, 5), TruncDiv(2 * w.top, 5),
                              TruncDiv(2 * w.width, 5), TruncDiv(2 * w.height, 5))
  {
    Region(w.text, Box(TruncDiv(2 * w.left, 5), TruncDiv(2 * w.top, 5),
                              TruncDiv(2 * w.width, 5), TruncDiv(2 * w.height, 5)),
           w.conf / 100.0, w.level)
  }

  function RegionsOf(words: seq<Word>, idx: seq<nat>): (rs: seq<Region>)
    requires Rows(words, idx)
    ensures |rs| == |idx| && forall k | 0 <= k < |idx| :: rs[k] == RegionOf(words[idx[k]])
  {
    seq(|idx|, k requires 0 <= k < |idx| => RegionOf(words[idx[k]]))
  }

  /** Regions ordered by `(y, x)`. */
  function ByRow(): (Region, Region) -> bool {
    (a: Region, b: Region) =>
      a.position.y < b.position.y || (a.position.y == b.position.y && a.position.x <= b.position.x)
  }

  /** What `extract_text_regions` returns. */
  function TextRegions(engine: Engine, minConfidence: real): seq<Region> {
    if engine.available && engine.readData.Some? then
      var cells := Stripped(engine.readData.value);
      SortBy(ByRow(), RegionsOf(cells, Kept(cells, minConfidence, |cells|)))
    else []
  }

  predicate Increasing(idx: seq<nat>) {
    forall a, b | 0 <= a < b < |idx| :: idx[a] < idx[b]
  }

  predicate AllQualify(words: seq<Word>, minConfidence: real, idx: seq<nat>)
    requires Rows(words, idx)
  {
    forall k | 0 <= k < |idx| :: Qualifies(words[idx[k]], minConfidence)
  }

  predicate DistinctKeys(words: seq<Word>, idx: seq<nat>)
    requires Rows(words, idx)
  {
    forall a, b | 0 <= a < b < |idx| :: CellKey(words[idx[a]]) != CellKey(words[idx[b]])
  }

  /** No qualifying word before a kept word has its key. */
  predicate FirstOfKey(words: seq<Word>, minConfidence: real, idx: seq<nat>)
    requires Rows(words, idx)
  {
    forall k, j | 0 <= k < |idx| && 0 <= j < idx[k] && Qualifies(words[j], minConfidence) ::
      CellKey(words[j]) != CellKey(words[idx[k]])
  }

  /** The kept words are in table order, each qualifies, and no two share a key. */
  lemma {:induction false} KeptWords(words: seq<Word>, minConfidence: real, n: nat)
    requires n <= |words|
    ensures Increasing(Kept(words, minConfidence, n))
    ensures AllQualify(words, minConfidence, Kept(words, minConfidence, n))
    ensures DistinctKeys(words, Kept(words, minConfidence, n))
  {
    if n > 0 {
      KeptWords(words, minConfidence, n - 1);
      var prev := Kept(words, minConfidence, n - 1);
      var idx := Kept(words, minConfidence, n);
      var j := n - 1;
      if Qualifies(words[j], minConfidence) && CellKey(words[j]) !in KeysOf(words, prev) {
        assert idx == prev + [j];
        forall a | 0 <= a < |prev| ensures CellKey(words[prev[a]]) != CellKey(words[j]) && prev[a] < j {
          assert CellKey(words[prev[a]]) in KeysOf(words, prev);
        }
        forall k | 0 <= k < |idx| ensures Qualifies(words[idx[k]], minConfidence) {
          if k < |prev| {
            assert idx[k] == prev[k];
          }
        }
        forall a, b | 0 <= a < b < |idx|
          ensures idx[a] < idx[b] && CellKey(words[idx[a]]) != CellKey(words[idx[b]])
        {
          assert idx[a] == prev[a];
          if b < |prev| {
            assert idx[b] == prev[b];
          }
        }
      }
    }
  }

  /** Every qualifying word's key is the key of a kept word. */
  lemma {:induction false} KeptCovers(words: seq<Word>, minConfidence: real, n: nat)
    requires n <= |words|
    ensures forall j | 0 <= j < n && Qualifies(words[j], minConfidence) ::
      CellKey(words[j]) in KeysOf(words, Kept(words, minConfidence, n))
  {
    if n > 0 {
      KeptCovers(words, minConfidence, n - 1);
      var prev := Kept(words, minConfidence, n - 1);
      var idx := Kept(words, minConfidence, n);
      if idx != prev {
        assert idx == prev + [n - 1];
        assert CellKey(words[n - 1]) == CellKey(words[idx[|prev|]]);
        forall j | 0 <= j < n - 1 && Qualifies(words[j], minConfidence)
          ensures CellKey(words[j]) in KeysOf(words, idx)
        {
          var k :| 0 <= k < |prev| && CellKey(words[prev[k]]) == CellKey(words[j]);
          assert idx[k] == prev[k];
        }
      }
    }
  }

  /** A kept word is the first qualifying word with its key. */
  lemma {:induction false} KeptFirst(words: seq<Word>, minConfidence: real, n: nat)
    requires n <= |words|
    ensures FirstOfKey(words, minConfidence, Kept(words, minConfidence, n))
  {
    if n > 0 {
      KeptFirst(words, minConfidence, n - 1);
      var prev := Kept(words, minConfidence, n - 1);
      var idx := Kept(words, minConfidence, n);
      if idx != prev {
        KeptCovers(words, minConfidence, n - 1);
        assert idx == prev + [n - 1];
        forall k, j | 0 <= k < |idx| && 0 <= j < idx[k] && Qualifies(words[j], minConfidence)
          ensures CellKey(words[j]) != CellKey(words[idx[k]])
        {
          if k < |prev| {
            assert idx[k] == prev[k];
          } else {
            assert CellKey(words[j]) in KeysOf(words, prev);
          }
        }
      }
    }
  }

  lemma ByRowOrders(rs: seq<Region>)
    ensures TotalOn(ByRow(), rs) && TransitiveOn(ByRow(), rs)
  {
  }

  /** Every region carries non-empty text and a confidence of at least the minimum / 100. */
  lemma {:induction false} KeptRegions(words: seq<Word>, minConfidence: real)
    ensures var rs := RegionsOf(words, Kept(words, minConfidence, |words|));
      forall r | r in rs :: r.text != "" && r.confidence >= minConfidence / 100.0
  {
    var idx := Kept(words, minConfidence, |words|);
    KeptWords(words, minConfidence, |words|);
    assert AllQualify(words, minConfidence, idx);
    var rs := RegionsOf(words, idx);
    forall r | r in rs ensures r.text != "" && r.confidence >= minConfidence / 100.0 {
      var k :| 0 <= k < |rs| && rs[k] == r;
      assert Qualifies(words[idx[k]], minConfidence);
    }
  }

  /** The regions are the kept words' regions sorted by `(y, x)`, each with non-empty text and
      a confidence of at least the minimum / 100. */
  lemma TextRegionsSorted(engine: Engine, minConfidence: real)
    requires engine.available && engine.readData.Some?
    ensures var words := Stripped(engine.readData.value);
      var rs := TextRegions(engine, minConfidence);
      && multiset(rs) == multiset(RegionsOf(words, Kept(words, minConfidence, |words|)))
      && (forall i, j | 0 <= i < j < |rs| ::
            rs[i].position.y < rs[j].position.y
            || (rs[i].position.y == rs[j].position.y && rs[i].position.x <= rs[j].position.x))
      && (forall r | r in rs :: r.text != "" && r.confidence >= minConfidence / 100.0)
    ensures var words := Stripped(engine.readData.value);
      var rs := TextRegions(engine, minConfidence);
      forall z | z in rs :: Ties(ByRow(), rs, z) == Ties(ByRow(), RegionsOf(words, Kept(words, minConfidence, |words|)), z)
  {
    var words := Stripped(engine.readData.value);
    var unsorted := RegionsOf(words, Kept(words, minConfidence, |words|));
    forall z | z in TextRegions(engine, minConfidence)
      ensures Ties(ByRow(), SortBy(ByRow(), unsorted), z) == Ties(ByRow(), unsorted, z)
    {
      ByRowOrders([z] + unsorted);
      SortByStable(ByRow(), unsorted, z);
    }
    ByRowOrders(unsorted);
    SortBySorted(ByRow(), unsorted);
    KeptRegions(words, minConfidence);
    var rs := TextRegions(engine, minConfidence);
    forall r | r in rs ensures r in unsorted {
      assert r in multiset(rs);
    }
  }

  /** `extract_text_regions`: filters, deduplicates and rescales the word table in one pass,
      then sorts the regions by `(y, x)`. */
  method ExtractTextRegions(engine: Engine, minConfidence: real) returns (allRegions: seq<Region>)
    ensures allRegions == TextRegions(engine, minConfidence)
  {
    allRegions := [];
    if engine.available && engine.readData.Some? {
      var words := engine.readData.value;
      ghost var cells := Stripped(words);
      var seenTexts: set<(string, int, int)> := {};
      for i := 0 to |words|
        invariant seenTexts == KeysOf(cells, Kept(cells, minConfidence, i))
        invariant allRegions == RegionsOf(cells, Kept(cells, minConfidence, i))
      {
        var word := words[i].(text := Strip(words[i].text));
        assert word == cells[i];
        ghost var prev := Kept(cells, minConfidence, i);
        if !(word.conf < minConfidence || word.text == "") {
          var key := (word.text, word.left / 15, word.top / 15);
          if key !in seenTexts {
            seenTexts := seenTexts + {key};
            allRegions := allRegions + [RegionOf(word)];
            KeysSnoc(cells, prev, i);
            RegionsSnoc(cells, prev, i);
          }
        }
        KeptUnfold(cells, minConfidence, i);
      }
      allRegions := SortBy(ByRow(), allRegions);
    }
  }

  lemma KeptUnfold(words: seq<Word>, minConfidence: real, i: nat)
    requires i < |words|
    ensures Kept(words, minConfidence, i + 1) ==
      if Qualifies(words[i], minConfidence) && CellKey(words[i]) !in KeysOf(words, Kept(words, minConfidence, i))
      then Kept(words, minConfidence, i) + [i] else Kept(words, minConfidence, i)
  {
  }

  lemma RegionsSnoc(words: seq<Word>, idx: seq<nat>, i: nat)
    requires Rows(words, idx) && i < |words|
    ensures Rows(words, idx + [i]) && RegionsOf(words, idx + [i]) == RegionsOf(words, idx) + [RegionOf(words[i])]
  {
  }

  lemma KeysSnoc(words: seq<Word>, idx: seq<nat>, i: nat)
    requires Rows(words, idx) && i < |words|
    ensures Rows(words, idx + [i]) && KeysOf(words, idx + [i]) == KeysOf(words, idx) + {CellKey(words[i])}
  {
    var idx' := idx + [i];
    forall x | x in KeysOf(words, idx') ensures x in KeysOf(words, idx) + {CellKey(words[i])} {
      var k :| 0 <= k < |idx'| && x == CellKey(words[idx'[k]]);
      if k < |idx| {
        assert idx'[k] == idx[k];
      }
    }
    forall x | x in KeysOf(words, idx) ensures x in KeysOf(words, idx') {
      var k :| 0 <= k < |idx| && x == CellKey(words[idx[k]]);
      assert idx'[k] == idx[k];
    }
    assert idx'[|idx|] == i;
  }

  /** The patterns tried for each field, in order. */
  const PartNumberPatterns := [@"P/N[:\s]+([A-Z0-9\-]+)", @"Part\s+Number[:\s]+([A-Z0-9\-]+)", @"PN[:\s]+([A-Z0-9\-]+)"]
  const QuantityPatterns := [@"QTY[:\s]+(\d+)", @"Quantity[:\s]+(\d+)", @"Q[:\s]+(\d+)"]
  const DatePatterns := [@"(\d{4}-\d{2}-\d{2})", @"(\d{2}/\d{2}/\d{4})", @"Date[:\s]+(\d{4}-\d{2}-\d{2})"]
  const LotPatterns := [@"LOT[:\s]+([A-Z0-9\-]+)", @"Batch[:\s]+([A-Z0-9\-]+)", @"BATCH[:\s]+([A-Z0-9\-]+)"]

  /** The capture of the first pattern that matches, if any. */
  function FirstMatch(search: (string, string) -> Option<string>, patterns: seq<string>, text: string): Option<string> {
    if patterns == [] then None
    else if search(patterns[0], text).Some? then search(patterns[0], text)
    else FirstMatch(search, patterns[1..], text)
  }

  /** Some capture is found exactly when some pattern matches, and it is the capture of the
      first pattern that matches. */
  lemma {:induction false} FirstMatchIsFirst(search: (string, string) -> Option<string>, patterns: seq<string>, text: string)
    ensures FirstMatch(search, patterns, text).Some? <==> exists k | 0 <= k < |patterns| :: search(patterns[k], text).Some?
    ensures forall k | 0 <= k < |patterns| && search(patterns[k], text).Some?
              && (forall j | 0 <= j < k :: search(patterns[j], text).None?) ::
              FirstMatch(search, patterns, text) == search(patterns[k], text)
  {
    if patterns != [] && search(patterns[0], text).None? {
      var tail := patterns[1..];
      FirstMatchIsFirst(search, tail, text);
      assert forall k | 1 <= k < |patterns| :: patterns[k] == tail[k - 1];
      forall k | 0 <= k < |patterns| && search(patterns[k], text).Some?
        && (forall j | 0 <= j < k :: search(patterns[j], text).None?)
        ensures FirstMatch(search, patterns, text) == search(patterns[k], text)
      {
        assert forall j | 0 <= j < k - 1 :: search(tail[j], text).None? by {
          forall j | 0 <= j < k - 1 ensures search(tail[j], text).None? {
            assert tail[j] == patterns[j + 1];
          }
        }
      }
      if exists k | 0 <= k < |patterns| :: search(patterns[k], text).Some? {
        var k :| 0 <= k < |patterns| && search(patterns[k], text).Some?;
        assert search(tail[k - 1], text).Some?;
      }
    }
  }

  function WithField(fields: map<string, string>, key: string, m: Option<string>): map<string, string> {
    if m.Some? then fields[key := m.value] else fields
  }

  /** What `parse_structured_fields` returns. */
  function StructuredFields(search: (string, string) -> Option<string>, text: string): map<string, string> {
    var f1 := WithField(map[], "part_number", FirstMatch(search, PartNumberPatterns, text));
    var f2 := WithField(f1, "quantity", FirstMatch(search, QuantityPatterns, text));
    var f3 := WithField(f2, "date", FirstMatch(search, DatePatterns, text));
    WithField(f3, "lot", FirstMatch(search, LotPatterns, text))
  }

  /** Only the four known keys appear; each is present exactly when one of its patterns
      matches, holding the capture of the first pattern that does. */
  lemma StructuredFieldsKeys(search: (string, string) -> Option<string>, text: string)
    ensures var f := StructuredFields(search, text);
      && f.Keys <= {"part_number", "quantity", "date", "lot"}
      && ("part_number" in f <==> FirstMatch(search, PartNumberPatterns, text).Some?)
      && ("quantity" in f <==> FirstMatch(search, QuantityPatterns, text).Some?)
      && ("date" in f <==> FirstMatch(search, DatePatterns, text).Some?)
      && ("lot" in f <==> FirstMatch(search, LotPatterns, text).Some?)
      && ("part_number" in f ==> f["part_number"] == FirstMatch(search, PartNumberPatterns, text).value)
      && ("quantity" in f ==> f["quantity"] == FirstMatch(search, QuantityPatterns, text).value)
      && ("date" in f ==> f["date"] == FirstMatch(search, DatePatterns, text).value)
      && ("lot" in f ==> f["lot"] == FirstMatch(search, LotPatterns, text).value)
  {
  }

  /** One field's loop: tries the patterns in order and records the first capture. */
  method TryPatterns(search: (string, string) -> Option<string>, patterns: seq<string>, text: string,
                     fields: map<string, string>, key: string)
    returns (updated: map<string, string>)
    ensures updated == WithField(fields, key, FirstMatch(search, patterns, text))
  {
    updated := fields;
    var k := 0;
    while k < |patterns|
      invariant 0 <= k <= |patterns|
      invariant FirstMatch(search, patterns, text) == FirstMatch(search, patterns[k..], text)
      invariant updated == fields
    {
      var found := search(patterns[k], text);
      if found.Some? {
        updated := updated[key := found.value];
        return;
      }
      assert patterns[k..][1..] == patterns[k + 1..];
      k := k + 1;
    }
  }

  /** `parse_structured_fields`. */
  method ParseStructuredFields(search: (string, string) -> Option<string>, text: string)
    returns (fields: map<string, string>)
    ensures fields == StructuredFields(search, text)
  {
    fields := map[];
    fields := TryPatterns(search, PartNumberPatterns, text, fields, "part_number");
    fields := TryPatterns(search, QuantityPatterns, text, fields, "quantity");
    fields := TryPatterns(search, DatePatterns, text, fields, "date");
    fields := TryPatterns(search, LotPatterns, text, fields, "lot");
  }

  /** The confidence floor `recognize_full` uses for regions. */
  const DefaultMinConfidence := 40.0

  /** What `recognize_full` returns. */
  function Full(engine: Engine, parseFields: bool): FullResult {
    var fullText := BestReading(engine);
    FullResult(fullText, TextRegions(engine, DefaultMinConfidence),
               if parseFields && fullText != "" then StructuredFields(engine.search, fullText) else map[])
  }

  /** Fields are parsed only when asked for and there is text; an unavailable engine yields
      no text, no regions and no fields. */
  lemma FullGating(engine: Engine, parseFields: bool)
    ensures !parseFields || BestReading(engine) == "" ==> Full(engine, parseFields).fields == map[]
    ensures parseFields && BestReading(engine) != "" ==>
      Full(engine, parseFields).fields == StructuredFields(engine.search, BestReading(engine))
    ensures !engine.available ==> Full(engine, parseFields) == FullResult("", [], map[])
  {
    if !engine.available {
      assert Candidates(engine, |Attempts|) == [] by {
        NoReadingWhenUnavailable(engine, |Attempts|);
      }
    }
  }

  lemma {:induction false} NoReadingWhenUnavailable(engine: Engine, n: nat)
    requires n <= |Attempts| && !engine.available
    ensures Candidates(engine, n) == []
  {
    if n > 0 {
      NoReadingWhenUnavailable(engine, n - 1);
    }
  }

  /** `recognize_full`. */
  method RecognizeFull(engine: Engine, parseFields: bool) returns (result: FullResult)
    ensures result == Full(engine, parseFields)
  {
    var fullText := RecognizeMultimode(engine);
    var textRegions := ExtractTextRegions(engine, DefaultMinConfidence);
    var fields: map<string, string> := map[];
    if parseFields && fullText != "" {
      fields := ParseStructuredFields(engine.search, fullText);
    }
    result := FullResult(fullText, textRegions, fields);
  }
}
