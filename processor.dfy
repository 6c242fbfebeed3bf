/** The orchestrator (backend/core/processor.py): one run over an image in one of four
    recognition modes, each ending in a sorted, numbered list of result objects inside a result
    envelope that records success or the error that stopped the run.

    The engines are the models of their own modules; what they see of the image is bundled in
    `World`: the preprocessing step (which may raise), the barcode decoder on the preprocessed
    image and its size, the OCR engine on the original image, the AI oracles, and the square
    root the association scores use. */
module Processor {
  import opened Wrappers
  import opened Boxes
  import opened Strings
  import AI = AiRecognizer
  import BD = BarcodeDetector
  import TR = TextRecognizer
  import AA = AssociationAnalyzer
  import OS = OrderSorter

  /** The `data` dictionary of a result object, by kind. */
  datatype ObjectData =
    | BarcodeData(barcodeData: string, barcodeType: string)
    | TextData(text: string, confidence: Option<real>)
    | GroupSummary(barcodeData: string, barcodeType: string, relatedText: Option<string>)
    | GroupDetails(barcodeData: string, barcodeType: string, details: seq<AA.Association>)

  /** A result object before numbering: `type`, `position`, `data`. */
  datatype Item = Item(kind: string, position: Box, data: ObjectData)

  /** A result object in `results`, with its `order`. */
  datatype Entry = Entry(order: int, item: Item)

  /** An object of any kind with the order number `add_order_numbers` gave it. */
  datatype Ordered<T> = Ordered(order: int, obj: T)

  /** The keys of the `config` dictionary the processor reads; each may be missing. */
  datatype ProcessorConfig = ProcessorConfig(
    ai: Option<AI.AiConfig>,
    multiplier: Option<real>, strongThreshold: Option<real>, weakThreshold: Option<real>,
    rowTolerance: Option<int>, colTolerance: Option<int>)

  /** The engines the processor holds; none of them changes after construction. */
  datatype LabelProcessor = LabelProcessor(
    ai: AI.Recognizer, analyzer: AA.Analyzer, rowTolerance: int, colTolerance: int)

  const NoAiConfig := AI.AiConfig(false, [], [], None)

  /** `LabelProcessor(config)`: each missing key takes its default. */
  function NewProcessor(config: ProcessorConfig): (p: LabelProcessor)
    ensures p.ai == AI.NewRecognizer(config.ai.GetOr(NoAiConfig))
    ensures p.analyzer.multiplier == config.multiplier.GetOr(2.0)
    ensures p.analyzer.strong == config.strongThreshold.GetOr(0.5)
    ensures p.analyzer.weak == config.weakThreshold.GetOr(0.3)
    ensures p.analyzer.weights == AA.DefaultWeights
    ensures p.rowTolerance == config.rowTolerance.GetOr(30) && p.colTolerance == config.colTolerance.GetOr(20)
  {
    LabelProcessor(
      AI.NewRecognizer(config.ai.GetOr(NoAiConfig)),
      AA.NewAnalyzer(config.multiplier.GetOr(2.0), None, config.strongThreshold.GetOr(0.5),
                     config.weakThreshold.GetOr(0.3)),
      config.rowTolerance.GetOr(30), config.colTolerance.GetOr(20))
  }

  /** What the engines do on this image. */
  datatype World = World(
    preprocessFailure: Option<string>,
    decode: BD.Variant -> BD.DecodeOutcome, height: int, width: int,
    ocr: TR.Engine,
    encoded: Option<string>, post: AI.Request -> AI.HttpOutcome, parse: string -> AI.JsonOutcome,
    sqrt: real -> real)

  /** The result envelope. The optional fields are keys present only in some modes. */
  datatype Envelope = Envelope(
    success: bool, modeUsed: string, recognitionMode: string, sortOrder: string,
    results: seq<Entry>, error: Option<string>,
    aiRawResponse: Option<AI.RawResponse>,
    structuredFields: Option<map<string, string>>,
    fullText: Option<string>)

  /** What `process_image_file` returns: a bare failure when the file does not load. */
  datatype FileResult = NotLoaded(error: string) | Processed(envelope: Envelope)

  const UnavailablePrefix := "AI识别功能不可用,请检查配置:"
  const AiFailedPrefix := "AI识别失败: "
  const OcrUnavailable := "OCR功能不可用,请安装Tesseract OCR"
  const LoadFailed := "Failed to load image"

  /** The first unmet availability check, phrased as the processor reports it; empty when the
      recogniser is available. */
  function UnavailableCause(r: AI.Recognizer): string {
    if !r.enabled then " AI功能未启用"
    else if r.activeModelId.None? || r.activeModelId.value == "" then " 未选择激活的模型"
    else
      var id := r.activeModelId.value;
      if id !in r.models then " 模型" + id + "不存在"
      else
        var pid := r.models[id].providerId;
        if pid !in r.providers then " 提供商" + pid + "不存在"
        else if !r.providers[pid].enabled then " 提供商" + pid + "未启用"
        else if r.providers[pid].apiKey == "" then " 提供商" + pid + "缺少API Key"
        else ""
  }

  /** The cause chain explains every unavailable recogniser and only those. */
  lemma CauseExactlyWhenUnavailable(r: AI.Recognizer)
    ensures UnavailableCause(r) == "" <==> AI.IsAvailable(r)
  {
    if !AI.IsAvailable(r) {
      assert UnavailableCause(r)[0] == ' ';
    }
  }

  function Pos(b: Box): OS.Position {
    OS.Position(Some(b.x), Some(b.y), Some(b.width), Some(b.height))
  }

  function DetectionPos(d: BD.Detection): OS.Position { Pos(d.position) }

  function RegionPos(r: TR.Region): OS.Position { Pos(r.position) }

  function ItemPos(i: Item): OS.Position { Pos(i.position) }

  /** The `i`-th object of a sorted list numbered `i + 1`. */
  function Number<T>(sorted: seq<T>): (ns: seq<Ordered<T>>)
    ensures |ns| == |sorted|
    ensures forall i | 0 <= i < |ns| :: ns[i] == Ordered(i + 1, sorted[i])
  {
    seq(|sorted|, i requires 0 <= i < |sorted| => Ordered(i + 1, sorted[i]))
  }

  function Objects<T>(ns: seq<Ordered<T>>): (objs: seq<T>)
    ensures |objs| == |ns| && forall i | 0 <= i < |ns| :: objs[i] == ns[i].obj
  {
    seq(|ns|, i requires 0 <= i < |ns| => ns[i].obj)
  }

  /** `order_sorter.sort` followed by `add_order_numbers`. */
  function SortedAndNumbered<T>(pos: T -> OS.Position, tolerance: int, objs: seq<T>, order: string): seq<Ordered<T>> {
    Number(OS.SortSpec(pos, tolerance, objs, order))
  }

  /** Sorting and numbering keeps every object, as often as it came, and numbers 1 to N in
      list order. */
  lemma SortedAndNumberedPermutes<T>(pos: T -> OS.Position, tolerance: int, objs: seq<T>, order: string)
    ensures var ns := SortedAndNumbered(pos, tolerance, objs, order);
      && |ns| == |objs|
      && multiset(Objects(ns)) == multiset(objs)
      && forall i | 0 <= i < |ns| :: ns[i].order == i + 1
  {
    var sorted := OS.SortSpec(pos, tolerance, objs, order);
    OS.SortPermutation(pos, tolerance, objs, order);
    assert Objects(Number(sorted)) == sorted;
  }

  /** One fresh result object per element of `sorted`, each holding that element. */
  method NewLabels<T>(sorted: seq<T>) returns (labels: seq<OS.LabelObject<T>>)
    ensures |labels| == |sorted|
    ensures forall j | 0 <= j < |labels| :: fresh(labels[j]) && labels[j].item == sorted[j] && labels[j].order.None?
    ensures forall a, b | 0 <= a < b < |labels| :: labels[a] != labels[b]
  {
    labels := [];
    for i := 0 to |sorted|
      invariant |labels| == i
      invariant forall j | 0 <= j < i :: fresh(labels[j]) && labels[j].item == sorted[j] && labels[j].order.None?
      invariant forall a, b | 0 <= a < b < i :: labels[a] != labels[b]
    {
      var o := new OS.LabelObject(sorted[i]);
      labels := labels + [o];
    }
  }

  /** Reads the numbers back from objects that `add_order_numbers` has numbered. */
  method ReadOrders<T>(labels: seq<OS.LabelObject<T>>, ghost sorted: seq<T>) returns (numbered: seq<Ordered<T>>)
    requires |labels| == |sorted| && forall j | 0 <= j < |labels| :: labels[j].item == sorted[j]
    requires forall a, b | 0 <= a < b < |labels| :: labels[a] != labels[b]
    requires OS.NumberedUpTo(labels, |labels|)
    ensures numbered == Number(sorted)
  {
    numbered := [];
    for i := 0 to |labels|
      invariant |numbered| == i
      invariant forall j | 0 <= j < i :: numbered[j] == Ordered(j + 1, sorted[j])
    {
      OS.LastIndexOfDistinct(labels, i);
      numbered := numbered + [Ordered(labels[i].order.value, labels[i].item)];
    }
  }

  /** `sort` followed by `add_order_numbers` on fresh result objects: the list is sorted, each
      object of the sorted list is a dictionary of its own (so none appears twice), and the
      numbers are read back. */
  method SortAndNumber<T>(pos: T -> OS.Position, tolerance: int, objs: seq<T>, order: string)
    returns (numbered: seq<Ordered<T>>)
    ensures numbered == SortedAndNumbered(pos, tolerance, objs, order)
  {
    var sorted := OS.Sort(pos, tolerance, objs, order);
    var labels := NewLabels(sorted);
    var same := OS.AddOrderNumbers(labels);
    numbered := ReadOrders(labels, sorted);
  }

  function BarcodeItem(d: BD.Detection): Item {
    Item("barcode", d.position, BarcodeData(d.data, d.kind))
  }

  function OcrTextItem(r: TR.Region): Item {
    Item("text", r.position, TextData(r.text, Some(r.confidence)))
  }

  /** The list comprehension that turns numbered engine results into result objects. */
  function Entries<T>(ns: seq<Ordered<T>>, toItem: T -> Item): (es: seq<Entry>)
    ensures |es| == |ns|
    ensures forall i | 0 <= i < |ns| :: es[i] == Entry(ns[i].order, toItem(ns[i].obj))
  {
    seq(|ns|, i requires 0 <= i < |ns| => Entry(ns[i].order, toItem(ns[i].obj)))
  }

  function AsIs(i: Item): Item { i }

  function AiBarcodeItem(b: AI.AiBarcode): Item {
    Item("barcode", b.position, BarcodeData(b.data, b.kind))
  }

  /** An AI text; a text without confidence gets 1.0. */
  function AiTextItem(t: AI.AiText): Item {
    Item("text", t.position, TextData(t.text, Some(t.confidence.GetOr(1.0))))
  }

  /** `mixed_objects` in AI mode: the barcodes, then the texts. */
  function AiObjects(ai: AI.AiResult): seq<Item> {
    seq(|ai.barcodes|, i requires 0 <= i < |ai.barcodes| => AiBarcodeItem(ai.barcodes[i]))
    + seq(|ai.texts|, i requires 0 <= i < |ai.texts| => AiTextItem(ai.texts[i]))
  }

  method BuildAiObjects(ai: AI.AiResult) returns (mixed: seq<Item>)
    ensures mixed == AiObjects(ai)
  {
    mixed := [];
    for i := 0 to |ai.barcodes|
      invariant mixed == seq(i, j requires 0 <= j < i => AiBarcodeItem(ai.barcodes[j]))
    {
      mixed := mixed + [AiBarcodeItem(ai.barcodes[i])];
    }
    ghost var barcodes := mixed;
    for i := 0 to |ai.texts|
      invariant mixed == barcodes + seq(i, j requires 0 <= j < i => AiTextItem(ai.texts[j]))
    {
      mixed := mixed + [AiTextItem(ai.texts[i])];
    }
  }

  /** Every AI barcode comes before every AI text, each text has a confidence (1.0 when the
      reply gave none), and nothing is added or lost. */
  lemma AiObjectsShape(ai: AI.AiResult)
    ensures |AiObjects(ai)| == |ai.barcodes| + |ai.texts|
    ensures forall i | 0 <= i < |AiObjects(ai)| ::
      (AiObjects(ai)[i].kind == "barcode" <==> i < |ai.barcodes|) &&
      (AiObjects(ai)[i].kind == "text" <==> i >= |ai.barcodes|)
    ensures forall j | 0 <= j < |ai.texts| ::
      var item := AiObjects(ai)[|ai.barcodes| + j];
      item.data == TextData(ai.texts[j].text, Some(if ai.texts[j].confidence.Some? then ai.texts[j].confidence.value else 1.0))
  {
  }

  /** One `barcode_group` object: in balanced mode the related texts joined by spaces (None when
      there are none), in full mode the association records themselves. */
  function GroupItem(r: AA.BarcodeResult, details: bool): Item {
    var data :=
      if details then GroupDetails(r.barcode.data, r.barcode.kind, r.related)
      else GroupSummary(r.barcode.data, r.barcode.kind,
                        if r.related != [] then Some(Join(" ", AA.TextsOf(r.related))) else None);
    Item("barcode_group", r.barcode.position, data)
  }

  function IndependentItem(t: AA.IndependentText): Item {
    Item("text", t.position, TextData(t.text, None))
  }

  /** `mixed_objects` in balanced and full mode: a group per barcode result, then a text per
      independent fragment. */
  function GroupObjects(results: seq<AA.BarcodeResult>, independent: seq<AA.IndependentText>, details: bool): seq<Item> {
    seq(|results|, k requires 0 <= k < |results| => GroupItem(results[k], details))
    + seq(|independent|, m requires 0 <= m < |independent| => IndependentItem(independent[m]))
  }

  method BuildGroupObjects(results: seq<AA.BarcodeResult>, independent: seq<AA.IndependentText>, details: bool)
    returns (mixed: seq<Item>)
    ensures mixed == GroupObjects(results, independent, details)
  {
    mixed := [];
    for k := 0 to |results|
      invariant mixed == seq(k, j requires 0 <= j < k => GroupItem(results[j], details))
    {
      mixed := mixed + [GroupItem(results[k], details)];
    }
    ghost var groups := mixed;
    for m := 0 to |independent|
      invariant mixed == groups + seq(m, j requires 0 <= j < m => IndependentItem(independent[j]))
    {
      mixed := mixed + [IndependentItem(independent[m])];
    }
  }

  /** What the `try` block produces when it completes. */
  datatype Outcome = Outcome(
    results: seq<Entry>, aiRawResponse: Option<AI.RawResponse>,
    structuredFields: Option<map<string, string>>, fullText: Option<string>)

  const NoResults := Outcome([], None, None, None)

  function BarcodeEntries(p: LabelProcessor, barcodes: seq<BD.Detection>, sortOrder: string): seq<Entry> {
    Entries(SortedAndNumbered(DetectionPos, p.rowTolerance, barcodes, sortOrder), BarcodeItem)
  }

  /** AI mode, once preprocessing has succeeded. */
  function RunAi(p: LabelProcessor, w: World, sortOrder: string): Result<Outcome> {
    if !AI.IsAvailable(p.ai) then Err(UnavailablePrefix + UnavailableCause(p.ai))
    else match AI.Recognize(p.ai, w.encoded, w.post, w.parse)
      case Err(m) => Err(AiFailedPrefix + m)
      case Ok(ai) =>
        Ok(Outcome(Entries(SortedAndNumbered(ItemPos, p.rowTolerance, AiObjects(ai), sortOrder), AsIs),
                   Some(ai.raw), None, None))
  }

  /** `ocr_only`, once preprocessing has succeeded; the three processing modes make the same
      OCR call. */
  function RunOcrOnly(p: LabelProcessor, ocr: TR.Engine, mode: string, sortOrder: string): Result<Outcome> {
    if !ocr.available then Err(OcrUnavailable)
    else
      var full := TR.Full(ocr, true);
      Ok(Outcome(Entries(SortedAndNumbered(RegionPos, p.rowTolerance, full.regions, sortOrder), OcrTextItem),
                 None, Some(full.fields), if mode == "full" then Some(full.fullText) else None))
  }

  /** Balanced and full `barcode_and_ocr`, given the detected barcodes and the OCR result. */
  function RunAssociated(p: LabelProcessor, sqrt: real -> real, barcodes: seq<BD.Detection>, ocr: TR.FullResult,
                         mode: string, sortOrder: string): Result<Outcome>
    requires AA.IsSqrt(sqrt)
  {
    match AA.Associations(p.analyzer, sqrt, barcodes, ocr.regions)
    case Err(m) => Err(m)
    case Ok(associated) =>
      var mixed := GroupObjects(associated.0, associated.1, mode == "full");
      Ok(Outcome(Entries(SortedAndNumbered(ItemPos, p.rowTolerance, mixed, sortOrder), AsIs),
                 None, Some(ocr.fields), if mode == "full" then Some(ocr.fullText) else None))
  }

  /** `barcode_and_ocr`, given the detected barcodes. */
  function RunBarcodeAndOcr(p: LabelProcessor, w: World, barcodes: seq<BD.Detection>, mode: string,
                            sortOrder: string): Result<Outcome>
    requires AA.IsSqrt(w.sqrt)
  {
    if mode == "fast" || !w.ocr.available then Ok(Outcome(BarcodeEntries(p, barcodes, sortOrder), None, None, None))
    else if mode == "balanced" || mode == "full" then RunAssociated(p, w.sqrt, barcodes, TR.Full(w.ocr, true), mode, sortOrder)
    else Ok(NoResults)
  }

  /** The `try` block of `process_image`: the outcome, or the message of the exception that
      ended it. */
  function Run(p: LabelProcessor, w: World, mode: string, recognitionMode: string, sortOrder: string): Result<Outcome>
    requires AA.IsSqrt(w.sqrt)
  {
    if w.preprocessFailure.Some? then Err(w.preprocessFailure.value)
    else if recognitionMode == "ai" then RunAi(p, w, sortOrder)
    else if recognitionMode == "barcode_only" then
      Ok(Outcome(BarcodeEntries(p, BD.DetectSpec(w.decode, w.height, w.width, true), sortOrder), None, None, None))
    else if recognitionMode == "ocr_only" then RunOcrOnly(p, w.ocr, mode, sortOrder)
    else if recognitionMode == "barcode_and_ocr" then
      RunBarcodeAndOcr(p, w, BD.DetectSpec(w.decode, w.height, w.width, true), mode, sortOrder)
    else Ok(NoResults)
  }

  /** The keyword defaults of `process_image` and `process_image_file`. */
  const DefaultMode := "balanced"
  const DefaultRecognitionMode := "barcode_only"
  const DefaultSortOrder := "top_to_bottom"

  /** The envelope `process_image` returns: it starts as a success with no error, the outcome
      fills it in, and an exception turns it into a failure carrying the message. */
  function ProcessSpec(p: LabelProcessor, w: World, mode: string := DefaultMode,
                       recognitionMode: string := DefaultRecognitionMode, sortOrder: string := DefaultSortOrder): (e: Envelope)
    requires AA.IsSqrt(w.sqrt)
    ensures e.modeUsed == mode && e.recognitionMode == recognitionMode && e.sortOrder == sortOrder
    ensures e.success <==> e.error.None?
    ensures !e.success ==> e.results == [] && e.aiRawResponse.None? && e.structuredFields.None? && e.fullText.None?
  {
    match Run(p, w, mode, recognitionMode, sortOrder)
    case Ok(o) => Envelope(true, mode, recognitionMode, sortOrder, o.results, None, o.aiRawResponse,
                           o.structuredFields, o.fullText)
    case Err(m) => Envelope(false, mode, recognitionMode, sortOrder, [], Some(m), None, None, None)
  }

  function BaseEnvelope(mode: string, recognitionMode: string, sortOrder: string): Envelope {
    Envelope(true, mode, recognitionMode, sortOrder, [], None, None, None, None)
  }

  /** `process_image`. */
  method ProcessImage(p: LabelProcessor, w: World, mode: string := DefaultMode,
                      recognitionMode: string := DefaultRecognitionMode, sortOrder: string := DefaultSortOrder)
    returns (result: Envelope)
    requires AA.IsSqrt(w.sqrt)
    ensures result == ProcessSpec(p, w, mode, recognitionMode, sortOrder)
  {
    result := BaseEnvelope(mode, recognitionMode, sortOrder);
    var outcome := RunPipeline(p, w, mode, recognitionMode, sortOrder);
    match outcome {
      case Ok(o) =>
        result := result.(results := o.results, aiRawResponse := o.aiRawResponse,
                          structuredFields := o.structuredFields, fullText := o.fullText);
      case Err(m) =>
        result := result.(success := false, error := Some(m));
    }
  }

  /** The body of the `try` block. */
  method RunPipeline(p: LabelProcessor, w: World, mode: string, recognitionMode: string, sortOrder: string)
    returns (outcome: Result<Outcome>)
    requires AA.IsSqrt(w.sqrt)
    ensures outcome == Run(p, w, mode, recognitionMode, sortOrder)
  {
    if w.preprocessFailure.Some? {
      return Err(w.preprocessFailure.value);
    }
    if recognitionMode == "ai" {
      if !AI.IsAvailable(p.ai) {
        return Err(UnavailablePrefix + UnavailableCause(p.ai));
      }
      var recognized := AI.RecognizeImage(p.ai, w.encoded, w.post, w.parse);
      if recognized.Err? {
        return Err(AiFailedPrefix + recognized.message);
      }
      var mixed := BuildAiObjects(recognized.value);
      var numbered := SortAndNumber(ItemPos, p.rowTolerance, mixed, sortOrder);
      outcome := Ok(Outcome(Entries(numbered, AsIs), Some(recognized.value.raw), None, None));
    } else if recognitionMode == "barcode_only" {
      var barcodes := BD.Detect(w.decode, w.height, w.width, true);
      var numbered := SortAndNumber(DetectionPos, p.rowTolerance, barcodes, sortOrder);
      outcome := Ok(Outcome(Entries(numbered, BarcodeItem), None, None, None));
    } else if recognitionMode == "ocr_only" {
      if !w.ocr.available {
        return Err(OcrUnavailable);
      }
      var ocr := TR.RecognizeFull(w.ocr, true);
      var numbered := SortAndNumber(RegionPos, p.rowTolerance, ocr.regions, sortOrder);
      outcome := Ok(Outcome(Entries(numbered, OcrTextItem), None, Some(ocr.fields),
                            if mode == "full" then Some(ocr.fullText) else None));
    } else if recognitionMode == "barcode_and_ocr" {
      var barcodes := BD.Detect(w.decode, w.height, w.width, true);
      if mode == "fast" || !w.ocr.available {
        var numbered := SortAndNumber(DetectionPos, p.rowTolerance, barcodes, sortOrder);
        outcome := Ok(Outcome(Entries(numbered, BarcodeItem), None, None, None));
      } else if mode == "balanced" || mode == "full" {
        var ocr := TR.RecognizeFull(w.ocr, true);
        var associated := AA.Associate(p.analyzer, w.sqrt, barcodes, ocr.regions);
        if associated.Err? {
          return Err(associated.message);
        }
        var mixed := BuildGroupObjects(associated.value.0, associated.value.1, mode == "full");
        var numbered := SortAndNumber(ItemPos, p.rowTolerance, mixed, sortOrder);
        outcome := Ok(Outcome(Entries(numbered, AsIs), None, Some(ocr.fields),
                              if mode == "full" then Some(ocr.fullText) else None));
      } else {
        outcome := Ok(NoResults);
      }
    } else {
      outcome := Ok(NoResults);
    }
  }

  /** `process_image_file`: a file that does not load gives a bare failure. */
  function ProcessImageFile(p: LabelProcessor, loaded: Option<World>, mode: string := DefaultMode,
                            recognitionMode: string := DefaultRecognitionMode,
                            sortOrder: string := DefaultSortOrder): (r: FileResult)
    requires loaded.Some? ==> AA.IsSqrt(loaded.value.sqrt)
    ensures loaded.None? <==> r == NotLoaded(LoadFailed)
    ensures loaded.Some? ==> r.Processed? && r.envelope == ProcessSpec(p, loaded.value, mode, recognitionMode, sortOrder)
  {
    if loaded.None? then NotLoaded(LoadFailed)
    else Processed(ProcessSpec(p, loaded.value, mode, recognitionMode, sortOrder))
  }

  /** In AI mode an unavailable recogniser fails the run, and the message names the first
      check that is not met. */
  lemma AiUnavailableFails(p: LabelProcessor, w: World, mode: string, sortOrder: string)
    requires AA.IsSqrt(w.sqrt) && w.preprocessFailure.None? && !AI.IsAvailable(p.ai)
    ensures var e := ProcessSpec(p, w, mode, "ai", sortOrder);
      && !e.success && e.error == Some(UnavailablePrefix + UnavailableCause(p.ai))
      && UnavailableCause(p.ai) != ""
  {
    CauseExactlyWhenUnavailable(p.ai);
  }

  /** In AI mode with a recogniser that answers, the results are the AI barcodes and texts,
      sorted and numbered 1 to N, and the raw response is passed on. */
  lemma AiModeResults(p: LabelProcessor, w: World, mode: string, sortOrder: string)
    requires AA.IsSqrt(w.sqrt) && w.preprocessFailure.None?
    requires AI.Recognize(p.ai, w.encoded, w.post, w.parse).Ok?
    ensures var ai := AI.Recognize(p.ai, w.encoded, w.post, w.parse).value;
      var e := ProcessSpec(p, w, mode, "ai", sortOrder);
      && e.success && e.aiRawResponse == Some(ai.raw)
      && |e.results| == |ai.barcodes| + |ai.texts|
      && multiset(ItemsOf(e.results)) == multiset(AiObjects(ai))
      && forall i | 0 <= i < |e.results| :: e.results[i].order == i + 1
  {
    var ai := AI.Recognize(p.ai, w.encoded, w.post, w.parse).value;
    EntriesItems(ItemPos, p.rowTolerance, AiObjects(ai), sortOrder);
  }

  function ItemsOf(es: seq<Entry>): (items: seq<Item>)
    ensures |items| == |es| && forall i | 0 <= i < |es| :: items[i] == es[i].item
  {
    seq(|es|, i requires 0 <= i < |es| => es[i].item)
  }

  /** Result objects built from sorted items hold exactly those items, numbered 1 to N. */
  lemma EntriesItems(pos: Item -> OS.Position, tolerance: int, objs: seq<Item>, order: string)
    ensures var es := Entries(SortedAndNumbered(pos, tolerance, objs, order), AsIs);
      && |es| == |objs|
      && multiset(ItemsOf(es)) == multiset(objs)
      && forall i | 0 <= i < |es| :: es[i].order == i + 1
  {
    var ns := SortedAndNumbered(pos, tolerance, objs, order);
    SortedAndNumberedPermutes(pos, tolerance, objs, order);
    assert ItemsOf(Entries(ns, AsIs)) == Objects(ns);
  }

  /** `barcode_only`: only barcode objects, one per detection, numbered 1 to N. */
  lemma BarcodeOnlyResults(p: LabelProcessor, w: World, mode: string, sortOrder: string)
    requires AA.IsSqrt(w.sqrt) && w.preprocessFailure.None?
    ensures var e := ProcessSpec(p, w, mode, "barcode_only", sortOrder);
      && e.success
      && |e.results| == |BD.DetectSpec(w.decode, w.height, w.width, true)|
      && forall i | 0 <= i < |e.results| :: e.results[i].item.kind == "barcode" && e.results[i].order == i + 1
  {
    var barcodes := BD.DetectSpec(w.decode, w.height, w.width, true);
    SortedAndNumberedPermutes(DetectionPos, p.rowTolerance, barcodes, sortOrder);
  }

  /** A call that leaves every keyword at its default scans for barcodes only and lists them
      top to bottom, numbered 1 to N. */
  lemma DefaultCallScansBarcodes(p: LabelProcessor, w: World)
    requires AA.IsSqrt(w.sqrt) && w.preprocessFailure.None?
    ensures var e := ProcessSpec(p, w);
      && e.modeUsed == "balanced" && e.recognitionMode == "barcode_only" && e.sortOrder == "top_to_bottom"
      && e.success
      && |e.results| == |BD.DetectSpec(w.decode, w.height, w.width, true)|
      && (forall i | 0 <= i < |e.results| :: e.results[i].item.kind == "barcode" && e.results[i].order == i + 1)
      && forall i, j | 0 <= i < j < |e.results| ::
           OS.YKey(ItemPos(e.results[i].item)) <= OS.YKey(ItemPos(e.results[j].item))
  {
    var barcodes := BD.DetectSpec(w.decode, w.height, w.width, true);
    assert Run(p, w, DefaultMode, DefaultRecognitionMode, DefaultSortOrder)
        == Ok(Outcome(BarcodeEntries(p, barcodes, DefaultSortOrder), None, None, None));
    BarcodesTopToBottom(p, barcodes);
  }

  /** Barcode result objects sorted `top_to_bottom` are numbered 1 to N with nondecreasing
      vertical centres. */
  lemma BarcodesTopToBottom(p: LabelProcessor, barcodes: seq<BD.Detection>)
    ensures var es := BarcodeEntries(p, barcodes, "top_to_bottom");
      && |es| == |barcodes|
      && (forall i | 0 <= i < |es| :: es[i].item.kind == "barcode" && es[i].order == i + 1)
      && forall i, j | 0 <= i < j < |es| :: OS.YKey(ItemPos(es[i].item)) <= OS.YKey(ItemPos(es[j].item))
  {
    var sorted := OS.SortTopToBottom(DetectionPos, barcodes);
    if barcodes != [] {
      assert OS.SortSpec(DetectionPos, p.rowTolerance, barcodes, "top_to_bottom") == sorted;
    }
    OS.TopToBottomSorted(DetectionPos, barcodes);
    var es := BarcodeEntries(p, barcodes, "top_to_bottom");
    assert forall i | 0 <= i < |es| :: ItemPos(es[i].item) == DetectionPos(sorted[i]);
  }

  /** `ocr_only` fails without Tesseract; otherwise `full_text` is reported only in full mode,
      and the structured fields always. */
  lemma OcrOnlyResults(p: LabelProcessor, w: World, mode: string, sortOrder: string)
    requires AA.IsSqrt(w.sqrt) && w.preprocessFailure.None?
    ensures var e := ProcessSpec(p, w, mode, "ocr_only", sortOrder);
      && (!w.ocr.available ==> !e.success && e.error == Some(OcrUnavailable))
      && (w.ocr.available ==> e.success && e.structuredFields.Some? && (e.fullText.Some? <==> mode == "full"))
      && forall i | 0 <= i < |e.results| :: e.results[i].item.kind == "text"
  {
  }

  /** `barcode_and_ocr` in fast mode, or without Tesseract, reports barcodes only. */
  lemma FastOrNoOcrGivesBarcodes(p: LabelProcessor, w: World, mode: string, sortOrder: string)
    requires AA.IsSqrt(w.sqrt) && w.preprocessFailure.None?
    requires mode == "fast" || !w.ocr.available
    ensures var e := ProcessSpec(p, w, mode, "barcode_and_ocr", sortOrder);
      && e.success && e.structuredFields.None?
      && forall i | 0 <= i < |e.results| :: e.results[i].item.kind == "barcode"
  {
  }

  /** In balanced and full mode every detected barcode yields one group object, even one with
      no related text, and every independent fragment one text object; in balanced mode a
      group's `related_text` is the space-joined texts, or None when there are none. */
  lemma GroupObjectsShape(barcodes: seq<BD.Detection>, results: seq<AA.BarcodeResult>,
                          independent: seq<AA.IndependentText>, details: bool)
    requires |results| == |barcodes| && forall k | 0 <= k < |barcodes| :: results[k].barcode == barcodes[k]
    ensures var mixed := GroupObjects(results, independent, details);
      && |mixed| == |barcodes| + |independent|
      && (forall k | 0 <= k < |barcodes| ::
            && mixed[k].kind == "barcode_group" && mixed[k].position == barcodes[k].position
            && (!details ==> (mixed[k].data.relatedText.None? <==> results[k].related == [])))
      && (forall j | |barcodes| <= j < |mixed| :: mixed[j].kind == "text")
  {
  }

  /** A recognition mode the processor does not know, or `barcode_and_ocr` with a processing
      mode it does not know while Tesseract is available, succeeds with no results. */
  lemma UnknownModesFallThrough(p: LabelProcessor, w: World, mode: string, recognitionMode: string, sortOrder: string)
    requires AA.IsSqrt(w.sqrt) && w.preprocessFailure.None?
    requires
      || recognitionMode !in {"ai", "barcode_only", "ocr_only", "barcode_and_ocr"}
      || (recognitionMode == "barcode_and_ocr" && mode !in {"fast", "balanced", "full"} && w.ocr.available)
    ensures var e := ProcessSpec(p, w, mode, recognitionMode, sortOrder);
      e.success && e.results == [] && e.structuredFields.None? && e.fullText.None?
  {
  }

  /** `barcode_and_ocr` detects the barcodes on the preprocessed image and goes on with them. */
  lemma BarcodeAndOcrDetects(p: LabelProcessor, w: World, mode: string, sortOrder: string)
    requires AA.IsSqrt(w.sqrt) && w.preprocessFailure.None?
    ensures Run(p, w, mode, "barcode_and_ocr", sortOrder) ==
      RunBarcodeAndOcr(p, w, BD.DetectSpec(w.decode, w.height, w.width, true), mode, sortOrder)
  {
    assert |"barcode_and_ocr"| != |"barcode_only"| && "barcode_and_ocr"[0] != "ai"[0] && "barcode_and_ocr"[0] != "ocr_only"[0];
  }

  /** Balanced and full `barcode_and_ocr` runs associate the detected barcodes with the OCR
      regions of the original image. */
  lemma AssociatedModes(p: LabelProcessor, w: World, mode: string, sortOrder: string)
    requires AA.IsSqrt(w.sqrt) && w.preprocessFailure.None? && w.ocr.available
    requires mode == "balanced" || mode == "full"
    ensures Run(p, w, mode, "barcode_and_ocr", sortOrder) ==
      RunAssociated(p, w.sqrt, BD.DetectSpec(w.decode, w.height, w.width, true), TR.Full(w.ocr, true), mode, sortOrder)
  {
    var barcodes := BD.DetectSpec(w.decode, w.height, w.width, true);
    BarcodeAndOcrDetects(p, w, mode, sortOrder);
    AssociatedBranch(p, w, barcodes, mode, sortOrder);
  }

  lemma AssociatedBranch(p: LabelProcessor, w: World, barcodes: seq<BD.Detection>, mode: string, sortOrder: string)
    requires AA.IsSqrt(w.sqrt) && w.ocr.available
    requires mode == "balanced" || mode == "full"
    ensures RunBarcodeAndOcr(p, w, barcodes, mode, sortOrder) ==
      RunAssociated(p, w.sqrt, barcodes, TR.Full(w.ocr, true), mode, sortOrder)
  {
    assert mode != "fast" by {
      assert "balanced"[0] != "fast"[0] && "full"[1] != "fast"[1];
    }
  }

  /** A division by zero in the association scores fails the run with Python's message;
      otherwise the structured fields are reported, and the full text in full mode only. */
  lemma AssociatedOutcome(p: LabelProcessor, sqrt: real -> real, barcodes: seq<BD.Detection>, ocr: TR.FullResult,
                          mode: string, sortOrder: string)
    requires AA.IsSqrt(sqrt)
    ensures var r := RunAssociated(p, sqrt, barcodes, ocr, mode, sortOrder);
      && (AA.Associations(p.analyzer, sqrt, barcodes, ocr.regions).Err? ==> r == Err(AA.ZeroDivision))
      && (AA.Associations(p.analyzer, sqrt, barcodes, ocr.regions).Ok? ==>
            r.Ok? && r.value.structuredFields == Some(ocr.fields) && (r.value.fullText.Some? <==> mode == "full"))
  {
  }
}
