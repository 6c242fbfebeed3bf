# LabelScan core, modelled in Dafny

LabelScan turns a photograph of a printed label into an ordered list of recognised elements:
barcodes, text fragments, and barcode groups that link a barcode to the text around it. This
project models the logic that LabelScan itself contributes between the external engines and the
result list, and proves what that logic promises:

- `OrderSorter` (order_sorter.dfy): stable sorts by box centre, the row clustering of
  `reading_order` with a row anchor fixed at the row's first member, and the in-place 1..N
  numbering of `add_order_numbers` on a class of result objects.
- `AssociationAnalyzer` (association_analyzer.dfy): the directional proximity score, the greedy
  barcode-by-barcode scan that records weak and strong associations and consumes strong ones,
  the independent-text list, and `create_groups`.
- `BarcodeDetector` (barcode_detector.dfy): result shaping of one decoder call, the first-seen-wins
  merge of the eight decoder stages with the conditional upscaled stage and its rescaling, `detect`,
  and the clamped crop of `get_barcode_region`.
- `Processor` (processor.dfy): `LabelProcessor`'s defaults, the dispatch over recognition mode and
  processing mode, the "AI unavailable" cause chain, the order in which objects are assembled,
  sorting and numbering, the result envelope, and the load failure of `process_image_file`.
- `AiRecognizer` (ai_recognizer.dfy): indexing of providers and models by id, `is_available`, the
  endpoint URL rule, the request, code-fence extraction, the JSON-failure fallback,
  `_format_result` and `_stream_response`.
- `TextRecognizer` (text_recognizer.dfy): `recognize_text`, candidate scoring and best pick of
  `recognize_multimode`, the filter/deduplicate/rescale/sort pass of `extract_text_regions`,
  `parse_structured_fields` and the gating in `recognize_full`.
- `Config` (config.dfy): `ConfigManager` loading its five sections (with the `ocr.yaml.example`
  fallback), the dotted-path `get`, and `get_section`.
- Support modules: `Wrappers` (Option, Result), `Boxes` (boxes and Python's `int()` truncation),
  `Strings` (the Python `str` operations used), and `Sorting` (a generic stable insertion sort
  standing in for Python's `sorted`).

The external engines are parameters of the model:
- the barcode decoder is a function from image variant to symbols or an exception;
- Tesseract is a record of its availability, its `image_to_string` outcome per preprocessed image
  and page-segmentation mode, and its `image_to_data` word table;
- regular-expression search is a function from pattern and text to the first capture;
- the HTTP call, JPEG/base64 encoding and `json.loads` are functions returning outcomes;
- the configuration files and the YAML parser are one function from file name to parsed content;
- `math.sqrt` is a parameter `sqrt` of which only `d >= 0 && d * d == v` (for `v >= 0`) is known.

Image preprocessing is a step that either succeeds or raises with a message. Centres in the sorter
are compared doubled (`2*y + height`) so that keys are integers; the row tolerance is doubled to
match. `int(v / 1.5)` and `int(v * 0.4)` are the truncations of `2v/3` and `2v/5`.

Behaviours worth noting:
- The upscaled stage of the barcode ensemble rescales `x`, `y`, `width` and `height` of newly kept
  detections but leaves their `polygon` in upscaled coordinates (`BarcodeDetector.Rescaled`).
- Independent text objects in `barcode_and_ocr` balanced and full mode carry `text` only, with no
  `confidence` (`Processor.IndependentItem`).
- A recognition mode the processor does not know, and `barcode_and_ocr` with an unknown
  processing mode while Tesseract is available, succeed with no results
  (`Processor.UnknownModesFallThrough`).

## Model

| member | source | states |
|---|---|---|
| OrderSorter.YKey | backend/core/order_sorter.py:32-35 | twice the vertical centre: `2y + height`, with a missing `y` or `height` counting as 0 in each of the four present/missing combinations |
| OrderSorter.XKey | backend/core/order_sorter.py:37-40 | twice the horizontal centre: `2x + width`, with a missing `x` or `width` counting as 0 in each of the four present/missing combinations |
| OrderSorter.TopToBottomSorted | backend/core/order_sorter.py:42-54 | top_to_bottom is a permutation with nondecreasing vertical centres, and objects with equal centres keep their input order |
| OrderSorter.LeftToRightSorted | backend/core/order_sorter.py:56-68 | left_to_right is a permutation with nondecreasing horizontal centres, stable on ties |
| OrderSorter.AxisSortIdempotent | backend/core/order_sorter.py:42-68 | sorting an already sorted list by the same axis changes nothing |
| OrderSorter.RowsFromShape | backend/core/order_sorter.py:86-105 | the row walk partitions its input into consecutive non-empty rows, each member within tolerance of its row's first member, each new row beyond tolerance of the previous anchor |
| OrderSorter.RowsFlatten | backend/core/order_sorter.py:84-105 | for any tolerance, concatenating the rows gives back the list they were cut from |
| OrderSorter.RowsOfWellFormed | backend/core/order_sorter.py:84-105 | well-formed rows are the rows of their own concatenation, so the row walk is the only well-formed way to cut a list |
| OrderSorter.RowsPartition | backend/core/order_sorter.py:84-105 | concatenating the rows gives back the y-sorted list, and the rows are well formed as above |
| OrderSorter.GroupRows | backend/core/order_sorter.py:87-105 | the row-grouping loop yields exactly the rows of the anchored walk |
| OrderSorter.SortRows | backend/core/order_sorter.py:110-114 | the row loop emits each row sorted left to right, rows in formation order |
| OrderSorter.SortEachRowPermutation | backend/core/order_sorter.py:110-114 | sorting within rows keeps the same objects |
| OrderSorter.SortReadingOrder | backend/core/order_sorter.py:70-116 | sort_reading_order returns the reading order (empty for empty input) |
| OrderSorter.ReadingOrderPermutation | backend/core/order_sorter.py:80-116 | reading order is a permutation of the input |
| OrderSorter.ReadingOrderRows | backend/core/order_sorter.py:83-116 | reading order is the rows of the y-sorted list in formation order, each row a horizontally nondecreasing permutation of itself |
| OrderSorter.ResortRow | backend/core/order_sorter.py:80-114 | sorting a vertically sorted row left to right, then top to bottom, then left to right again gives the first left-to-right order back |
| OrderSorter.ReadingOrderIdempotent | backend/core/order_sorter.py:70-116 | for every tolerance, negative included, applying reading order to a reading-ordered list changes nothing |
| OrderSorter.SortGridOrder | backend/core/order_sorter.py:118-130 | grid_order is exactly reading_order |
| OrderSorter.Sort | backend/core/order_sorter.py:132-157 | sort dispatches on the order string; grid_order and unknown strings give reading order; empty input gives empty output |
| OrderSorter.SortPermutation | backend/core/order_sorter.py:147-157 | every order mode returns a permutation of its input, of the same length |
| OrderSorter.SortIdempotent | backend/core/order_sorter.py:132-157 | for every order string, sorting an already sorted list in the same order changes nothing |
| OrderSorter.LastIndexBelowIsLast | backend/core/order_sorter.py:172-173 | the index found is the last occurrence below the bound |
| OrderSorter.LastIndexOfDistinct | backend/core/order_sorter.py:172-173 | in a list of distinct objects, each object's last occurrence is its own index |
| OrderSorter.AddOrderNumbers | backend/core/order_sorter.py:159-175 | in place, every object's order becomes one more than the last index it occupies (index + 1 for distinct objects); the list itself is returned unchanged |
| Sorting.SortBy | backend/core/order_sorter.py:52 | the sort keeps length and elements (a permutation) |
| Sorting.SortBySorted | backend/core/order_sorter.py:52 | for a total, transitive order the result is sorted |
| Sorting.SortByStable | backend/core/order_sorter.py:52 | elements with equal keys keep their relative input order |
| Sorting.SortBySortedIsIdentity | backend/core/order_sorter.py:66 | a list that is already sorted is returned unchanged |
| Sorting.SortedTiesUnique | backend/core/order_sorter.py:52 | two sorted lists with the same elements and the same order within every key are equal: a stable sort has one result |
| Sorting.SortByAppend | backend/core/order_sorter.py:52 | when no element of the first part has a larger key than any of the second, sorting the concatenation sorts each part on its own |
| AssociationAnalyzer.NewAnalyzer | backend/core/association_analyzer.py:14-38 | settings are stored; missing or empty direction weights mean right 0.8, bottom 0.6, left 0.4, top 0.3 |
| AssociationAnalyzer.Distance | backend/core/association_analyzer.py:48-56 | the centre distance is non-negative |
| AssociationAnalyzer.DistanceSquared | backend/core/association_analyzer.py:48-56 | the distance squared is the sum of squared centre offsets |
| AssociationAnalyzer.DistanceZeroIff | backend/core/association_analyzer.py:48-56 | the distance is zero exactly when the centres coincide |
| AssociationAnalyzer.DirectionRules | backend/core/association_analyzer.py:58-79 | right/left exactly when the horizontal offset strictly dominates, by its sign; otherwise bottom/top by the vertical sign; ties go vertical |
| AssociationAnalyzer.Score | backend/core/association_analyzer.py:81-115 | the score is 0 whenever the distance exceeds width times the multiplier |
| AssociationAnalyzer.ScoreAt | backend/core/association_analyzer.py:101-115 | beyond the radius the score is 0; within a zero radius it raises float division by zero |
| AssociationAnalyzer.ScoreZeroOutsideRadius | backend/core/association_analyzer.py:95-103 | outside the radius (compared on squares) the score is 0 |
| AssociationAnalyzer.ScoreAtWithin | backend/core/association_analyzer.py:105-115 | inside a positive radius the score succeeds, lies in [0, weight] for a non-negative weight, and is the full weight at distance 0 |
| AssociationAnalyzer.Weight | backend/core/association_analyzer.py:109 | the configured weight of the direction, or 0.5 when the direction has none |
| AssociationAnalyzer.DistanceScoreWithin | backend/core/association_analyzer.py:106 | the distance score lies in [0, 1] and is 1 at the centre |
| AssociationAnalyzer.CombinedWithin | backend/core/association_analyzer.py:113 | a distance score in [0, 1] times a non-negative weight lies in [0, weight] |
| AssociationAnalyzer.ScoreFailsIff | backend/core/association_analyzer.py:95-106 | the score raises (0/0) exactly when the radius is 0 and the centres coincide |
| AssociationAnalyzer.ScoreTable | backend/core/association_analyzer.py:145 | the table holds the score of every text against every barcode |
| AssociationAnalyzer.Matched | backend/core/association_analyzer.py:141-154 | recorded indices are in range, not consumed before, and score at least the weak threshold |
| AssociationAnalyzer.MatchedExactly | backend/core/association_analyzer.py:141-154 | a barcode records exactly the unconsumed texts scoring at least the weak threshold, in text order |
| AssociationAnalyzer.AssociationOf | backend/core/association_analyzer.py:147-154 | a record copies text and position, keeps the score, and is strong iff the score reaches the strong threshold, weak otherwise |
| AssociationAnalyzer.ResultsUpTo | backend/core/association_analyzer.py:135-169 | one result per barcode, in input order |
| AssociationAnalyzer.Unused | backend/core/association_analyzer.py:173-181 | listed indices are in range and never consumed |
| AssociationAnalyzer.ScoresBeforeIff | backend/core/association_analyzer.py:138-145 | the scan raises exactly when some barcode scores some text not consumed before it with an error |
| AssociationAnalyzer.Associations | backend/core/association_analyzer.py:117-185 | a failure is the division-by-zero error; a success has one result per barcode, in order |
| AssociationAnalyzer.ScanTexts | backend/core/association_analyzer.py:139-158 | the inner loop succeeds iff every unconsumed text scores cleanly, records the matched texts in order and adds exactly the strong ones to the consumed set |
| AssociationAnalyzer.AssociateBarcodes | backend/core/association_analyzer.py:135-171 | the barcode loop fails iff a scanned score raises; otherwise it yields each barcode's result and the set consumed by all of them |
| AssociationAnalyzer.BarcodeStep | backend/core/association_analyzer.py:138-169 | one barcode's clean scan extends the results and the consumed set by that barcode |
| AssociationAnalyzer.ListIndependent | backend/core/association_analyzer.py:173-181 | the last loop lists the unconsumed texts in input order |
| AssociationAnalyzer.Associate | backend/core/association_analyzer.py:117-185 | associate_text_with_barcodes returns the specified results and independent texts, or the error |
| AssociationAnalyzer.UsedGrows | backend/core/association_analyzer.py:136-158 | the consumed set only grows from barcode to barcode |
| AssociationAnalyzer.StrongExclusive | backend/core/association_analyzer.py:141-158 | no text is consumed (strong) by two different barcodes |
| AssociationAnalyzer.UsedIsUnion | backend/core/association_analyzer.py:136-158 | a text is consumed before barcode k iff some earlier barcode consumed it |
| AssociationAnalyzer.UnusedExactly | backend/core/association_analyzer.py:174-181 | the independent indices are exactly the unconsumed ones, increasing |
| AssociationAnalyzer.IndependentAreNeverConsumed | backend/core/association_analyzer.py:173-181 | a text is independent iff no barcode consumed it (weakly associated texts included), in input order |
| AssociationAnalyzer.EntriesShape | backend/core/association_analyzer.py:147-154 | every record scores at least the weak threshold and is strong iff it reaches the strong one |
| AssociationAnalyzer.RelatedShape | backend/core/association_analyzer.py:147-169 | related_text is a permutation of the records with nonincreasing scores, records with equal scores keeping their scan order; has_association iff it is non-empty |
| AssociationAnalyzer.StrongRecordsAreConsumed | backend/core/association_analyzer.py:147-158 | a barcode consumes exactly the texts it records as strong |
| AssociationAnalyzer.TextsOf | backend/core/association_analyzer.py:207 | the texts of the records, one per record, in order |
| AssociationAnalyzer.GroupOf | backend/core/association_analyzer.py:202-216 | a group copies the barcode's fields, space-joins the related texts in list order, counts them, and is strong iff any record is strong |
| AssociationAnalyzer.CreateGroups | backend/core/association_analyzer.py:187-220 | one group per association, in order |
| AssociationAnalyzer.GroupStrengthMatchesConsumption | backend/core/association_analyzer.py:157-158 | a group is strong iff its barcode consumed some text |
| BarcodeDetector.Detections | backend/core/barcode_detector.py:38-78 | one detection per symbol in decoder order, confidence 1.0, fields copied; a raising decoder gives none |
| BarcodeDetector.DecodeBarcodes | backend/core/barcode_detector.py:20-78 | decode_barcodes builds exactly those detections |
| BarcodeDetector.Rescaled | backend/core/barcode_detector.py:178-185 | position fields become the truncation of 2v/3; payload, type, confidence and polygon are untouched |
| BarcodeDetector.RescaleAll | backend/core/barcode_detector.py:178-185 | every detection of a batch is rescaled, in order |
| BarcodeDetector.MergeIntoConcat | backend/core/barcode_detector.py:90-186 | merging two batches in turn is merging their concatenation |
| BarcodeDetector.MergeStage | backend/core/barcode_detector.py:95-99 | one stage's loop appends the detections with new payloads (rescaled in the upscaled stage) and keeps the seen set equal to the payloads kept |
| BarcodeDetector.DecodeWithEnhancement | backend/core/barcode_detector.py:80-189 | all stages run in order with no early exit, the upscaled one only below the size limit, and the result is the deduplicated stream |
| BarcodeDetector.Detect | backend/core/barcode_detector.py:191-209 | the ensemble iff try_enhancement, a single pass otherwise |
| BarcodeDetector.DedupPayloads | backend/core/barcode_detector.py:91-99 | the merged list has no two detections with one payload, and holds every payload of the stream |
| BarcodeDetector.DedupFirstSeen | backend/core/barcode_detector.py:93-186 | each kept detection is the first in the stream with its payload, in first-seen order |
| BarcodeDetector.FirstSeenSnoc | backend/core/barcode_detector.py:93-99 | one more pass of the merge loop keeps every kept detection the first with its payload, in first-seen order, once the kept payloads are those seen so far |
| BarcodeDetector.EnsembleKeepsEveryPayload | backend/core/barcode_detector.py:93-186 | every payload any stage found is in the output exactly once |
| BarcodeDetector.EnsembleEntry | backend/core/barcode_detector.py:173-185 | an output entry is the first direct detection of its payload, or else the rescaled copy of an upscaled one |
| BarcodeDetector.EnsembleEntries | backend/core/barcode_detector.py:173-185 | the same, for every output entry |
| BarcodeDetector.LargeImagesSkipUpscale | backend/core/barcode_detector.py:173-176 | at or above 1500 pixels the upscaled decoder run has no influence |
| BarcodeDetector.BarcodeRegion | backend/core/barcode_detector.py:228-240 | crop bounds satisfy 0 <= x1, 0 <= y1, x2 <= image width, y2 <= image height |
| BarcodeDetector.Clamped | backend/core/barcode_detector.py:235-238 | the box grown by given margins stays within 0 and the image width and height |
| BarcodeDetector.MarginNonneg | backend/core/barcode_detector.py:232-233 | for a non-negative length and ratio the margin `int(v * ratio)` is non-negative and at most `v * ratio` |
| BarcodeDetector.ClampedEdges | backend/core/barcode_detector.py:235-238 | with non-negative margins a box inside the image stays inside; each edge moves out by its margin unless the image border comes first, in which case it is the border |
| BarcodeDetector.RegionContainsBox | backend/core/barcode_detector.py:228-240 | a box inside the image lies inside its crop; each crop edge the image does not clip is the box edge moved out by the truncated margin `int(w * ratio)` or `int(h * ratio)`, and each clipped edge is the image border |
| TextRecognizer.RecognizeText | backend/core/text_recognizer.py:51-77 | "" when Tesseract is unavailable or raises, otherwise the stripped reading |
| TextRecognizer.QualityScore | backend/core/text_recognizer.py:165-167 | the length, plus 100 iff the upper-cased text contains ITEM, LOT or QTY |
| TextRecognizer.Candidates | backend/core/text_recognizer.py:157-174 | candidates are non-empty readings carrying their score |
| TextRecognizer.FirstBest | backend/core/text_recognizer.py:180 | the index of a maximal score before which every score is strictly smaller |
| TextRecognizer.BestReadingChoice | backend/core/text_recognizer.py:176-183 | the result is "" iff no attempt read anything, otherwise the first candidate with maximal score |
| TextRecognizer.CollectCandidates | backend/core/text_recognizer.py:157-174 | the nested loops try image 0 then 1, psm 3 then 6, and collect the scored non-empty readings |
| TextRecognizer.RecognizeMultimode | backend/core/text_recognizer.py:141-183 | recognize_multimode returns the best reading |
| TextRecognizer.NoReadingWhenUnavailable | backend/core/text_recognizer.py:66-68 | an unavailable engine yields no candidates |
| TextRecognizer.Stripped | backend/core/text_recognizer.py:215 | every word's text is stripped, nothing else changes |
| TextRecognizer.RegionOf | backend/core/text_recognizer.py:226-236 | positions are the truncation of 2v/5 and confidence is conf/100 |
| TextRecognizer.KeptWords | backend/core/text_recognizer.py:213-224 | kept words are in table order, each qualifies, no two share a (text, left//15, top//15) key |
| TextRecognizer.KeptCovers | backend/core/text_recognizer.py:217-224 | every qualifying word's key is the key of a kept word |
| TextRecognizer.KeptFirst | backend/core/text_recognizer.py:221-224 | a kept word is the first qualifying word with its key |
| TextRecognizer.KeptRegions | backend/core/text_recognizer.py:214-236 | every region has non-empty text and confidence at least the minimum / 100 |
| TextRecognizer.TextRegionsSorted | backend/core/text_recognizer.py:206-241 | the regions are a permutation of the kept words' regions, sorted by (y, x), regions with equal (y, x) keeping their table order |
| TextRecognizer.ExtractTextRegions | backend/core/text_recognizer.py:185-246 | the extraction loop and sort produce exactly those regions |
| TextRecognizer.FirstMatchIsFirst | backend/core/text_recognizer.py:266-270 | a field is found iff some pattern matches, and its value is the capture of the first pattern that does |
| TextRecognizer.StructuredFieldsKeys | backend/core/text_recognizer.py:248-309 | keys are among part_number, quantity, date, lot; each present iff one of its patterns matches, with the first match |
| TextRecognizer.TryPatterns | backend/core/text_recognizer.py:266-270 | one field's loop records the first capture and stops |
| TextRecognizer.ParseStructuredFields | backend/core/text_recognizer.py:248-309 | parse_structured_fields returns the specified fields |
| TextRecognizer.FullGating | backend/core/text_recognizer.py:335-337 | fields are parsed only when asked for and the text is non-empty; an unavailable engine yields nothing |
| TextRecognizer.RecognizeFull | backend/core/text_recognizer.py:311-340 | recognize_full combines best reading, regions and gated fields |
| AiRecognizer.IndexByKeys | backend/core/ai_recognizer.py:26-27 | the index holds exactly the ids of the list |
| AiRecognizer.IndexByLastWins | backend/core/ai_recognizer.py:26-27 | a later entry with a duplicate id overrides an earlier one |
| AiRecognizer.IndexedUnderOwnId | backend/core/ai_recognizer.py:26-27 | every entry sits under its own id |
| AiRecognizer.NewRecognizer | backend/core/ai_recognizer.py:17-28 | enabled flag and active model are copied; providers and models are indexed by id |
| AiRecognizer.ActiveProvider | backend/core/ai_recognizer.py:44-51 | when available, the active provider is enabled and has an API key |
| AiRecognizer.ApiUrl | backend/core/ai_recognizer.py:135-139 | the URL is the base without trailing '/' when that already ends with /chat/completions, and otherwise exactly that trimmed base followed by /chat/completions |
| AiRecognizer.ApiUrlIdempotent | backend/core/ai_recognizer.py:135-139 | building the URL from a built URL changes nothing |
| AiRecognizer.BuildRequest | backend/core/ai_recognizer.py:95-128 | endpoint of the active provider ending in `/chat/completions`, bearer token, the active model's name and system and user prompts, data URL of the image, the stream flag as given, max_tokens and temperature copied when set and 4096 and 0.2 when missing |
| AiRecognizer.ExtractFenced | backend/core/ai_recognizer.py:166-169 | with a fence in the reply the extracted content has none; without one the reply is kept |
| AiRecognizer.JsonBlockTaken | backend/core/ai_recognizer.py:166-167 | with "```json", the stripped text after its first occurrence up to the next fence or the end |
| AiRecognizer.PlainBlockTaken | backend/core/ai_recognizer.py:168-169 | otherwise, the stripped text between the first fence and the next one or the end |
| AiRecognizer.FormatResult | backend/core/ai_recognizer.py:218-252 | _format_result produces one entry per reply entry, in order |
| AiRecognizer.FormattedKeepsOrDefaults | backend/core/ai_recognizer.py:228-252 | counts and order kept, present keys copied, missing keys defaulted ('' / 'UNKNOWN' / (0, 100i, 100, 50); '' / (0, 30i, 100, 20) / 1.0) |
| AiRecognizer.Fallback | backend/core/ai_recognizer.py:173-180 | on a JSON decode failure: no barcodes, one text with the content at (0,0,0,0), raw_response the content |
| AiRecognizer.Recognize | backend/core/ai_recognizer.py:72-191 | raises first when unavailable, then when encoding fails; succeeds only when available and encoded |
| AiRecognizer.RecognizeImage | backend/core/ai_recognizer.py:72-191 | recognize returns the specified outcome |
| AiRecognizer.RecognizeOutcomes | backend/core/ai_recognizer.py:142-191 | a failed request reports its reason; any other exception of the call is reported with its message; a JSON object is formatted; JSON that is not an object fails with the raised message; a reply that is not JSON falls back to the fence-stripped text |
| AiRecognizer.FallbackHasNoFence | backend/core/ai_recognizer.py:164-180 | the fallback text holds no fence when the reply had one |
| AiRecognizer.StreamResponse | backend/core/ai_recognizer.py:193-216 | the generator yields exactly the specified delta contents, or stops on the error |
| AiRecognizer.DeltasSkipNonData | backend/core/ai_recognizer.py:203-206 | empty lines and lines not starting with "data: " change nothing |
| AiRecognizer.DeltasSkipUndecodable | backend/core/ai_recognizer.py:210-216 | undecodable chunks are skipped |
| AiRecognizer.DeltasStopAtDone | backend/core/ai_recognizer.py:207-209 | nothing after "data: [DONE]" is read |
| AiRecognizer.DeltasYieldContent | backend/core/ai_recognizer.py:211-214 | each delta with content yields that content, in order |
| Processor.NewProcessor | backend/core/processor.py:21-50 | missing config keys default to 2.0, 0.5, 0.3, 30 and 20 and an empty AI section |
| Processor.CauseExactlyWhenUnavailable | backend/core/processor.py:97-116 | the cause chain names a cause exactly when the recogniser is unavailable |
| Processor.Number | backend/core/order_sorter.py:172-173 | the i-th sorted object is numbered i + 1 |
| Processor.SortedAndNumberedPermutes | backend/core/processor.py:148-149 | sort then number keeps every object and numbers 1..N |
| Processor.NewLabels | backend/core/processor.py:125-145 | one fresh, distinct, unnumbered result object per element |
| Processor.ReadOrders | backend/core/processor.py:148-151 | numbers read back from distinct numbered objects are 1..N in list order |
| Processor.SortAndNumber | backend/core/processor.py:148-151 | sorting, in-place numbering and reading back give the sorted list numbered 1..N |
| Processor.Entries | backend/core/processor.py:162-173 | one result object per numbered element, keeping its number |
| Processor.BuildAiObjects | backend/core/processor.py:125-145 | the AI loops build the barcodes then the texts |
| Processor.AiObjectsShape | backend/core/processor.py:125-145 | every AI barcode precedes every AI text, nothing is lost, a missing text confidence is 1.0 |
| Processor.BuildGroupObjects | backend/core/processor.py:249-274 | the group loops build one group per barcode result, then one text per independent fragment |
| Processor.GroupObjectsShape | backend/core/processor.py:249-274 | one group per detected barcode, even with no associations; related_text None iff empty in balanced mode; then text objects |
| Processor.ProcessSpec | backend/core/processor.py:54-332 | the envelope echoes the modes, which default to balanced, barcode_only and top_to_bottom; success iff no error; a failed run has no results and no optional keys |
| Processor.ProcessImage | backend/core/processor.py:54-332 | process_image returns the specified envelope |
| Processor.RunPipeline | backend/core/processor.py:88-322 | the try block computes the specified outcome or error |
| Processor.ProcessImageFile | backend/core/processor.py:334-362 | an image that does not load gives a bare "Failed to load image" failure; otherwise process_image's envelope, with the same three mode defaults |
| Processor.AiUnavailableFails | backend/core/processor.py:97-116 | in AI mode an unavailable recogniser fails the run with the first unmet check |
| Processor.AiModeResults | backend/core/processor.py:118-152 | AI results are the AI barcodes and texts, sorted, numbered 1..N, with the raw response |
| Processor.EntriesItems | backend/core/processor.py:148-151 | result objects from sorted items hold exactly those items, numbered 1..N |
| Processor.DefaultCallScansBarcodes | backend/core/processor.py:54-60 | a call with every mode left at its default echoes balanced, barcode_only and top_to_bottom, succeeds, and returns one barcode object per detection, numbered 1..N, with nondecreasing vertical centres |
| Processor.BarcodesTopToBottom | backend/core/processor.py:154-173 | barcode_only with top_to_bottom gives one barcode object per detection, numbered 1..N, with nondecreasing vertical centres |
| Processor.BarcodeOnlyResults | backend/core/processor.py:154-173 | barcode_only succeeds with one barcode object per detection, numbered 1..N |
| Processor.OcrOnlyResults | backend/core/processor.py:175-210 | ocr_only fails without Tesseract; otherwise text objects, structured fields, and full_text iff mode is full |
| Processor.FastOrNoOcrGivesBarcodes | backend/core/processor.py:219-238 | fast mode or no OCR gives barcode objects only |
| Processor.UnknownModesFallThrough | backend/core/processor.py:94-322 | unknown recognition modes, and unknown processing modes with OCR, succeed with no results |
| Processor.BarcodeAndOcrDetects | backend/core/processor.py:212-215 | barcode_and_ocr detects with enhancement on the preprocessed image |
| Processor.AssociatedModes | backend/core/processor.py:240-289 | balanced and full associate the detected barcodes with the OCR regions of the original image |
| Processor.AssociatedOutcome | backend/core/processor.py:245-322 | a division by zero in the scores fails the run; otherwise structured fields, and full_text iff mode is full |
| Config.LoadSection | backend/utils/config.py:40-53 | a section is its file's content, the ocr example file when ocr.yaml is missing, or empty |
| Config.LoadedSectionsAre | backend/utils/config.py:30-53 | loading yields exactly the five sections with those contents |
| Config.WalkResolves | backend/utils/config.py:66-73 | the walk returns what the path leads to (None or falsy included), and the default iff the path breaks off |
| Config.ResolveAppend | backend/utils/config.py:67-71 | resolving a path in two legs is resolving it at once |
| Config.SplitDotted | backend/utils/config.py:60-61 | "a.b" splits into its two dot-free parts |
| Config.SplitPlain | backend/utils/config.py:60-61 | a key without dots is one part |
| Config.ConfigManager.constructor | backend/utils/config.py:15-28 | the manager starts empty and holds the loaded sections |
| Config.ConfigManager.LoadAllConfigs | backend/utils/config.py:30-53 | _load_all_configs stores the loaded sections over the existing ones |
| Config.ConfigManager.Get | backend/utils/config.py:55-73 | an unknown first segment returns the default |
| Config.ConfigManager.GetSection | backend/utils/config.py:75-77 | the loaded section, or {} for an unknown one |
| Config.ConfigManager.GetWholeSection | backend/utils/config.py:60-77 | a single-segment key returns the whole section, as get_section does |
| Config.ConfigManager.GetTwoLevels | backend/utils/config.py:60-73 | "section.key" is the stored value (even None or falsy) when present, the default otherwise |
| Config.ConfigManager.GetResolves | backend/utils/config.py:55-73 | get returns what the dotted path leads to in its section, or the default |
| Strings.Strip | backend/core/text_recognizer.py:74 | the stripped text neither starts nor ends with whitespace |
| Strings.StripLeftRemovesSpace | backend/core/text_recognizer.py:74 | everything removed from the front is whitespace |
| Strings.StripRightRemovesSpace | backend/core/text_recognizer.py:74 | everything removed from the back is whitespace |
| Strings.StripIsSlice | backend/core/text_recognizer.py:74 | the stripped text is a contiguous slice `s[a..b]` of the original; everything before `a` and from `b` on is whitespace, the slice's first and last characters are not, and an empty result means the whole text was whitespace |
| Strings.TrimRight | backend/core/ai_recognizer.py:135 | rstrip('/') removes exactly the trailing slashes |
| Strings.Split | backend/utils/config.py:60 | split gives at least one part and no part holds the separator |
| Strings.JoinSplit | backend/utils/config.py:60 | joining the parts with the separator gives the key back |
| Strings.FindFrom | backend/core/ai_recognizer.py:166-169 | the first occurrence at or after the start, or none |
| Strings.Upper | backend/core/text_recognizer.py:166 | upper-casing maps each character, ASCII letters to capitals |
| Strings.UpperChar | backend/core/text_recognizer.py:166 | a lower-case ASCII letter becomes the capital at the same alphabet position; every other character is unchanged |

## Left out

- Pixel work (preprocessing, OpenCV enhancement, resizing, drawing) is not modelled: each decoder stage sees an opaque variant, and preprocessing either succeeds or raises. The OpenCV calls of the enhancement stages (barcode_detector.py:104-175) are assumed not to raise; in the source such a raise would reach the processor's handler as a failed result.
- pyzbar, Tesseract, the HTTP endpoint, JPEG/base64 encoding, `json.loads`, `re.search` and YAML parsing are parameters of the model; their own behaviour is not modelled.
- Floating point: scores use exact reals, and `math.sqrt` is known only through `d >= 0 && d * d == v`; `/ 1.5` and `* 0.4` use their exact integer equivalents, which can differ from IEEE rounding by one unit at rare values.
- Strings.Upper: maps ASCII letters only, not full Unicode upper-casing. The three keywords it is tested against are ASCII, but non-ASCII letters whose capital is ASCII (such as dotless 'ı', which Python upper-cases to 'I') are not matched, so a text like "ıtem" contains 'ITEM' in the source's upper-cased text and not in the model's.
- Timing fields (`process_time`, `decode_time`, `ocr_time`) and all logging are not modelled.
- The `ocr_mode` parameter of `process_image` and `process_image_file` is accepted by the source and never read; the model has no such parameter.
- `col_tolerance` and `min_object_distance` are stored by the sorter and never used; the processor model keeps `colTolerance` only.
- A model entry without `provider_id` (a KeyError in `is_available`), JSON positions that are not four integers, list elements that are not objects, and non-string delta content are outside the model's types.
- The streaming path of `recognize` (`stream=True`) is modelled only through `_stream_response` over the response lines; generator lifetime and cancellation are not modelled.
- Undecodable UTF-8 in decoder payloads and stream lines is assumed already dropped or decoded by the oracle.
- Dictionary key order of the result objects is not modelled.
- `get_barcode_region` returns the clamped bounds; numpy's wrap-around for a negative slice end (an image smaller than the box offset) is not modelled.
- The frozen-executable branch of `ConfigManager.__init__` only changes the directory searched, which the file oracle abstracts.
- A YAML file that fails to parse raises in the source; the file oracle always returns parsed content or nothing.
- `recognize_with_data` and `preprocess_for_ocr` are engine calls: their outcome is the `readData` and `readText` oracles.
- OrderSorter.AddOrderNumbers: the source returns the same list object; the model returns the same sequence of objects, and aliasing between that list and other lists is not modelled.
