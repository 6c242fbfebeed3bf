/** The AI side of the recogniser (backend/core/ai_recognizer.py): which configured model and
    provider answer, the request sent to an OpenAI-compatible chat-completions endpoint, and how
    its reply becomes barcodes and texts.

    The network, JPEG/base64 encoding and `json.loads` are oracles: `encoded` is the base64 image
    (None when `cv2.imencode` fails), `post(request)` is what the HTTP call and the extraction of
    `choices[0].message.content` do, and `parse(content)` is what `json.loads` makes of a reply. */
module AiRecognizer {
  import opened Wrappers
  import opened Strings
  import opened Boxes

  /** A provider entry: `id`, `enabled` (missing counts as false), `api_key` (missing counts as
      the empty string), `api_base`. */
  datatype Provider = Provider(id: string, enabled: bool, apiKey: string, apiBase: string)

  /** A model entry. `max_tokens` and `temperature` are optional. */
  datatype Model = Model(
    id: string, name: string, modelName: string, providerId: string,
    systemPrompt: string, userPrompt: string,
    maxTokens: Option<int>, temperature: Option<real>)

  /** The `ai` configuration section handed to the constructor. */
  datatype AiConfig = AiConfig(
    enabled: bool, providers: seq<Provider>, models: seq<Model>, activeModelId: Option<string>)

  /** The recogniser after construction: providers and models indexed by id. */
  datatype Recognizer = Recognizer(
    enabled: bool,
    providers: map<string, Provider>,
    models: map<string, Model>,
    activeModelId: Option<string>)

  /** `{key(x): x for x in items}`: entries are inserted in list order, so a later entry
      replaces an earlier one with the same key. */
  function IndexBy<T>(items: seq<T>, key: T -> string): map<string, T> {
    if items == [] then map[]
    else
      var last := items[|items| - 1];
      IndexBy(items[..|items| - 1], key)[key(last) := last]
  }

  /** The index holds exactly the keys of the list. */
  lemma {:induction false} IndexByKeys<T>(items: seq<T>, key: T -> string, k: string)
    ensures k in IndexBy(items, key) <==> exists i | 0 <= i < |items| :: key(items[i]) == k
  {
    if items != [] {
      var init := items[..|items| - 1];
      IndexByKeys(init, key, k);
      if k in IndexBy(init, key) {
        var i :| 0 <= i < |init| && key(init[i]) == k;
        assert items[i] == init[i];
      }
      forall i | 0 <= i < |items| - 1
        ensures items[i] == init[i]
      {
      }
    }
  }

  /** An entry that no later entry shares its key with is the one the index keeps. */
  lemma {:induction false} IndexByLastWins<T>(items: seq<T>, key: T -> string, i: nat)
    requires i < |items|
    requires forall j | i < j < |items| :: key(items[j]) != key(items[i])
    ensures key(items[i]) in IndexBy(items, key)
    ensures IndexBy(items, key)[key(items[i])] == items[i]
  {
    if i < |items| - 1 {
      var init := items[..|items| - 1];
      assert init[i] == items[i];
      forall j | i < j < |init|
        ensures key(init[j]) != key(init[i])
      {
        assert init[j] == items[j];
      }
      IndexByLastWins(init, key, i);
    }
  }

  function ProviderId(p: Provider): string { p.id }

  function ModelId(m: Model): string { m.id }

  /** `AIRecognizer.__init__`. */
  function NewRecognizer(config: AiConfig): (r: Recognizer)
    ensures r.enabled == config.enabled && r.activeModelId == config.activeModelId
    ensures forall id | id in r.providers :: r.providers[id].id == id
    ensures forall id | id in r.models :: r.models[id].id == id
  {
    IndexedUnderOwnIds(config.providers, ProviderId);
    IndexedUnderOwnIds(config.models, ModelId);
    Recognizer(config.enabled, IndexBy(config.providers, ProviderId), IndexBy(config.models, ModelId),
               config.activeModelId)
  }

  /** Every entry of an index sits under its own id. */
  lemma {:induction false} IndexedUnderOwnId<T>(items: seq<T>, key: T -> string, k: string)
    requires k in IndexBy(items, key)
    ensures key(IndexBy(items, key)[k]) == k
  {
    var init := items[..|items| - 1];
    if k != key(items[|items| - 1]) {
      IndexedUnderOwnId(init, key, k);
    }
  }

  lemma IndexedUnderOwnIds<T>(items: seq<T>, key: T -> string)
    ensures forall k | k in IndexBy(items, key) :: key(IndexBy(items, key)[k]) == k
  {
    forall k | k in IndexBy(items, key)
      ensures key(IndexBy(items, key)[k]) == k
    {
      IndexedUnderOwnId(items, key, k);
    }
  }

  /** `is_available`: AI is enabled, a model is active, it exists, its provider exists and is
      enabled, and that provider has an API key. */
  predicate IsAvailable(r: Recognizer) {
    && r.enabled
    && r.activeModelId.Some? && r.activeModelId.value != ""
    && r.activeModelId.value in r.models
    && r.models[r.activeModelId.value].providerId in r.providers
    && r.providers[r.models[r.activeModelId.value].providerId].enabled
    && r.providers[r.models[r.activeModelId.value].providerId].apiKey != ""
  }

  function ActiveModel(r: Recognizer): Model
    requires IsAvailable(r)
  {
    r.models[r.activeModelId.value]
  }

  function ActiveProvider(r: Recognizer): (p: Provider)
    requires IsAvailable(r)
    ensures p.enabled && p.apiKey != ""
  {
    r.providers[ActiveModel(r).providerId]
  }

  const CompletionsPath := "/chat/completions"

  /** The endpoint: `api_base` without trailing '/', with "/chat/completions" appended unless
      it already ends with it. */
  function ApiUrl(base: string): (url: string)
    ensures EndsWith(url, CompletionsPath)
    ensures StartsWith(url, TrimRight(base, '/'))
    ensures url == TrimRight(base, '/') <==> EndsWith(TrimRight(base, '/'), CompletionsPath)
    ensures !EndsWith(TrimRight(base, '/'), CompletionsPath) ==> url == TrimRight(base, '/') + CompletionsPath
  {
    var b := TrimRight(base, '/');
    if EndsWith(b, CompletionsPath) then b else b + CompletionsPath
  }

  /** Building the endpoint from an endpoint gives it back unchanged. */
  lemma ApiUrlIdempotent(base: string)
    ensures ApiUrl(ApiUrl(base)) == ApiUrl(base)
  {
    var url := ApiUrl(base);
    assert url[|url| - 1] == 's';
  }

  /** The chat-completions request: endpoint, bearer token and payload. */
  datatype Request = Request(
    url: string, authorization: string, model: string,
    systemPrompt: string, userPrompt: string, imageUrl: string,
    maxTokens: int, temperature: real, stream: bool)

  const DefaultMaxTokens := 4096
  const DefaultTemperature := 0.2

  /** The request `recognize` sends for the active model. */
  function BuildRequest(r: Recognizer, encoded: string, stream: bool): (q: Request)
    requires IsAvailable(r)
    ensures q.url == ApiUrl(ActiveProvider(r).apiBase) && EndsWith(q.url, CompletionsPath)
    ensures q.authorization == "Bearer " + ActiveProvider(r).apiKey
    ensures q.model == ActiveModel(r).modelName
    ensures q.systemPrompt == ActiveModel(r).systemPrompt && q.userPrompt == ActiveModel(r).userPrompt
    ensures q.imageUrl == "data:image/jpeg;base64," + encoded
    ensures q.stream == stream
    ensures ActiveModel(r).maxTokens.None? ==> q.maxTokens == DefaultMaxTokens
    ensures ActiveModel(r).maxTokens.Some? ==> q.maxTokens == ActiveModel(r).maxTokens.value
    ensures ActiveModel(r).temperature.None? ==> q.temperature == DefaultTemperature
    ensures ActiveModel(r).temperature.Some? ==> q.temperature == ActiveModel(r).temperature.value
  {
    var model := ActiveModel(r);
    var provider := ActiveProvider(r);
    Request(ApiUrl(provider.apiBase), "Bearer " + provider.apiKey, model.modelName,
            model.systemPrompt, model.userPrompt, "data:image/jpeg;base64," + encoded,
            model.maxTokens.GetOr(DefaultMaxTokens), model.temperature.GetOr(DefaultTemperature),
            stream)
  }

  const Fence := "```"
  const JsonFence := "```json"

  /** The JSON the model was asked for: the text inside the first "```json" block, or else
      inside the first "```" block, stripped; a reply without fences is kept as it is. */
  function ExtractFenced(content: string): (c: string)
    ensures Contains(content, Fence) ==> !Contains(c, Fence)
    ensures !Contains(content, Fence) ==> c == content
  {
    if Contains(content, JsonFence) then
      FenceInsideJsonFence(content);
      StrippedPieceHasNoFence(SecondPiece(content, JsonFence));
      Strip(BeforeFirst(SecondPiece(content, JsonFence), Fence))
    else if Contains(content, Fence) then
      StrippedPieceHasNoFence(SecondPiece(content, Fence));
      Strip(BeforeFirst(SecondPiece(content, Fence), Fence))
    else content
  }

  lemma FenceInsideJsonFence(s: string)
    requires Contains(s, JsonFence)
    ensures Contains(s, Fence)
  {
    var i := Find(s, JsonFence).value;
    assert s[i..i + 3] == s[i..i + 7][..3];
    assert OccursAt(s, Fence, i);
    ContainsIffOccurs(s, Fence);
  }

  lemma StrippedPieceHasNoFence(s: string)
    ensures !Contains(Strip(BeforeFirst(s, Fence)), Fence)
  {
    var piece := BeforeFirst(s, Fence);
    BeforeFirstHasNoSeparator(s, Fence);
    var a, b := StripIsSlice(piece);
    ContainedInSlice(piece, a, b, Fence);
  }

  /** With a "```json" block, the result is the stripped text that starts right after the first
      "```json" and runs to the next "```" or to the end of the reply. */
  lemma {:induction false} JsonBlockTaken(content: string) returns (start: nat, end: nat)
    requires Contains(content, JsonFence)
    ensures start == Find(content, JsonFence).value + |JsonFence| && start <= end <= |content|
    ensures ExtractFenced(content) == Strip(content[start..end])
    ensures !Contains(content[start..end], Fence)
    ensures end == |content| || OccursAt(content, Fence, end)
  {
    start := Find(content, JsonFence).value + |JsonFence|;
    end := PieceEnd(content, start, JsonFence);
  }

  /** Without "```json" but with "```", the result is the stripped text between the first
      "```" and the next one (or the end of the reply). */
  lemma {:induction false} PlainBlockTaken(content: string) returns (start: nat, end: nat)
    requires !Contains(content, JsonFence) && Contains(content, Fence)
    ensures start == Find(content, Fence).value + |Fence| && start <= end <= |content|
    ensures ExtractFenced(content) == Strip(content[start..end])
    ensures !Contains(content[start..end], Fence)
    ensures end == |content| || OccursAt(content, Fence, end)
  {
    start := Find(content, Fence).value + |Fence|;
    end := PieceEnd(content, start, Fence);
  }

  /** `t.split(sep)[0].split("```")[0]`, for a `sep` that opens with a fence, is a fence-free
      prefix of `t` that ends at the end of `t` or at a fence. */
  lemma CutAtFence(t: string, sep: string)
    requires StartsWith(sep, Fence)
    ensures var v := BeforeFirst(BeforeFirst(t, sep), Fence);
      && |v| <= |t| && v == t[..|v|] && !Contains(v, Fence)
      && (|v| == |t| || OccursAt(t, Fence, |v|))
  {
    var u := BeforeFirst(t, sep);
    var v := BeforeFirst(u, Fence);
    BeforeFirstStops(t, sep);
    BeforeFirstStops(u, Fence);
    BeforeFirstHasNoSeparator(u, Fence);
    if |v| < |u| {
      assert t[0..|u|] == u;
      SliceOccurrence(t, 0, |u|, Fence, |v|);
    } else if |u| < |t| {
      assert t[|u|..|u| + |Fence|] == t[|u|..|u| + |sep|][..|Fence|];
    }
  }

  /** `content.split(sep)[1].split("```")[0]` is a slice of `content` from `start`, free of
      fences, that ends at the end of `content` or at a fence. */
  lemma PieceEnd(content: string, start: nat, sep: string) returns (end: nat)
    requires Contains(content, sep) && StartsWith(sep, Fence)
    requires start == Find(content, sep).value + |sep|
    ensures start <= end <= |content|
    ensures BeforeFirst(SecondPiece(content, sep), Fence) == content[start..end]
    ensures !Contains(content[start..end], Fence)
    ensures end == |content| || OccursAt(content, Fence, end)
  {
    var t := AfterFirst(content, sep);
    assert t == content[start..|content|];
    CutAtFence(t, sep);
    var v := BeforeFirst(BeforeFirst(t, sep), Fence);
    end := start + |v|;
    assert v == content[start..end];
    if |v| < |t| {
      SliceOccurrence(content, start, |content|, Fence, |v|);
    }
  }

  /** One barcode of the model's JSON reply, with the keys it had. */
  datatype ReplyBarcode = ReplyBarcode(data: Option<string>, kind: Option<string>, position: Option<Box>)

  /** One text of the model's JSON reply, with the keys it had. */
  datatype ReplyText = ReplyText(text: Option<string>, position: Option<Box>, confidence: Option<real>)

  /** The model's JSON reply; `barcodes` and `texts` may be missing. */
  datatype Reply = Reply(barcodes: Option<seq<ReplyBarcode>>, texts: Option<seq<ReplyText>>)

  /** A recognised barcode: `barcode_data`, `barcode_type`, `position`. */
  datatype AiBarcode = AiBarcode(data: string, kind: string, position: Box)

  /** A recognised text; the fallback text carries no `confidence` key. */
  datatype AiText = AiText(text: string, position: Box, confidence: Option<real>)

  /** `raw_response`: the parsed reply, or the reply text when it was not JSON. */
  datatype RawResponse = Structured(reply: Reply) | Unparsed(content: string)

  datatype AiResult = AiResult(barcodes: seq<AiBarcode>, texts: seq<AiText>, raw: RawResponse)

  /** The `idx`-th barcode of `_format_result`; each missing key gets its default. */
  function FormatBarcode(idx: nat, bc: ReplyBarcode): AiBarcode {
    AiBarcode(bc.data.GetOr(""), bc.kind.GetOr("UNKNOWN"), bc.position.GetOr(Box(0, idx * 100, 100, 50)))
  }

  /** The `idx`-th text of `_format_result`; each missing key gets its default. */
  function FormatText(idx: nat, t: ReplyText): AiText {
    AiText(t.text.GetOr(""), t.position.GetOr(Box(0, idx * 30, 100, 20)), Some(t.confidence.GetOr(1.0)))
  }

  /** What `_format_result` returns for a parsed reply. */
  function Formatted(reply: Reply): AiResult {
    var bs := reply.barcodes.GetOr([]);
    var ts := reply.texts.GetOr([]);
    AiResult(seq(|bs|, i requires 0 <= i < |bs| => FormatBarcode(i, bs[i])),
             seq(|ts|, i requires 0 <= i < |ts| => FormatText(i, ts[i])),
             Structured(reply))
  }

  /** `_format_result`: one output entry per reply entry, in order. */
  method FormatResult(reply: Reply) returns (formatted: AiResult)
    ensures formatted == Formatted(reply)
  {
    var bs := reply.barcodes.GetOr([]);
    var barcodes: seq<AiBarcode> := [];
    for idx := 0 to |bs|
      invariant |barcodes| == idx
      invariant forall i | 0 <= i < idx :: barcodes[i] == FormatBarcode(i, bs[i])
    {
      barcodes := barcodes + [FormatBarcode(idx, bs[idx])];
    }
    var ts := reply.texts.GetOr([]);
    var texts: seq<AiText> := [];
    for idx := 0 to |ts|
      invariant |texts| == idx
      invariant forall i | 0 <= i < idx :: texts[i] == FormatText(i, ts[i])
    {
      texts := texts + [FormatText(idx, ts[idx])];
    }
    formatted := AiResult(barcodes, texts, Structured(reply));
  }

  /** Counts and order are kept, a key that is present is copied, and a missing key gets its
      default: '' and 'UNKNOWN', position (0, 100i, 100, 50) for the i-th barcode; '',
      position (0, 30i, 100, 20) and confidence 1.0 for the i-th text. */
  lemma FormattedKeepsOrDefaults(reply: Reply, i: nat)
    ensures |Formatted(reply).barcodes| == |reply.barcodes.GetOr([])|
    ensures |Formatted(reply).texts| == |reply.texts.GetOr([])|
    ensures Formatted(reply).raw == Structured(reply)
    ensures i < |reply.barcodes.GetOr([])| ==>
      var bc := reply.barcodes.value[i];
      var out := Formatted(reply).barcodes[i];
      && (bc.data.Some? ==> out.data == bc.data.value) && (bc.data.None? ==> out.data == "")
      && (bc.kind.Some? ==> out.kind == bc.kind.value) && (bc.kind.None? ==> out.kind == "UNKNOWN")
      && (bc.position.Some? ==> out.position == bc.position.value)
      && (bc.position.None? ==> out.position == Box(0, i * 100, 100, 50))
    ensures i < |reply.texts.GetOr([])| ==>
      var t := reply.texts.value[i];
      var out := Formatted(reply).texts[i];
      && (t.text.Some? ==> out.text == t.text.value) && (t.text.None? ==> out.text == "")
      && (t.position.Some? ==> out.position == t.position.value)
      && (t.position.None? ==> out.position == Box(0, i * 30, 100, 20))
      && (t.confidence.Some? ==> out.confidence == t.confidence)
      && (t.confidence.None? ==> out.confidence == Some(1.0))
  {
  }

  /** The result when the reply is not JSON: no barcodes, the reply as one text at the origin
      with no confidence, and the reply as `raw_response`. */
  function Fallback(content: string): (f: AiResult)
    ensures f.barcodes == [] && f.raw == Unparsed(content)
    ensures |f.texts| == 1 && f.texts[0].text == content
    ensures f.texts[0].position == Box(0, 0, 0, 0) && f.texts[0].confidence.None?
  {
    AiResult([], [AiText(content, Box(0, 0, 0, 0), None)], Unparsed(content))
  }

  /** What the HTTP round trip does: the reply content, a `RequestException` (connection
      failure, timeout, error status), or another exception with its message (a reply body
      without `choices`, say). */
  datatype HttpOutcome = Replied(content: string) | RequestFailed(message: string) | Raised(message: string)

  /** What `json.loads` does with the content: a reply object, a `JSONDecodeError`, or JSON that
      is not an object, on which `_format_result` raises. */
  datatype JsonOutcome = Parsed(reply: Reply) | Malformed | NotAnObject(message: string)

  const UnavailableMessage := "AI识别功能不可用,请检查配置"
  const EncodeFailedMessage := "Failed to encode image"
  const RequestFailedPrefix := "AI识别请求失败: "

  /** `recognize(image)` without streaming. */
  function Recognize(r: Recognizer, encoded: Option<string>, post: Request -> HttpOutcome,
                     parse: string -> JsonOutcome): (res: Result<AiResult>)
    ensures !IsAvailable(r) ==> res == Err(UnavailableMessage)
    ensures IsAvailable(r) && encoded.None? ==> res == Err(EncodeFailedMessage)
    ensures res.Ok? ==> IsAvailable(r) && encoded.Some?
  {
    if !IsAvailable(r) then Err(UnavailableMessage)
    else if encoded.None? then Err(EncodeFailedMessage)
    else match post(BuildRequest(r, encoded.value, false))
      case RequestFailed(m) => Err(RequestFailedPrefix + m)
      case Raised(m) => Err(m)
      case Replied(content) =>
        var c := ExtractFenced(content);
        match parse(c)
        case Parsed(reply) => Ok(Formatted(reply))
        case Malformed => Ok(Fallback(c))
        case NotAnObject(m) => Err(m)
  }

  /** `recognize(image)` as the processor calls it, formatting the reply with `_format_result`. */
  method RecognizeImage(r: Recognizer, encoded: Option<string>, post: Request -> HttpOutcome,
                        parse: string -> JsonOutcome) returns (res: Result<AiResult>)
    ensures res == Recognize(r, encoded, post, parse)
  {
    if !IsAvailable(r) {
      return Err(UnavailableMessage);
    }
    if encoded.None? {
      return Err(EncodeFailedMessage);
    }
    var sent := post(BuildRequest(r, encoded.value, false));
    match sent {
      case RequestFailed(m) =>
        res := Err(RequestFailedPrefix + m);
      case Raised(m) =>
        res := Err(m);
      case Replied(content) =>
        var c := ExtractFenced(content);
        match parse(c) {
          case Parsed(reply) =>
            var formatted := FormatResult(reply);
            res := Ok(formatted);
          case Malformed =>
            res := Ok(Fallback(c));
          case NotAnObject(m) =>
            res := Err(m);
        }
    }
  }

  /** Once the recogniser is available and the image encoded, the reply decides the outcome:
      a failed request is reported with its reason, any other exception of the call is reported
      with its own message, a JSON object is formatted, JSON that is not an object fails with
      the message `_format_result` raises, and a reply that is not JSON comes back as one text
      holding the fence-stripped content. */
  lemma RecognizeOutcomes(r: Recognizer, encoded: Option<string>, post: Request -> HttpOutcome,
                          parse: string -> JsonOutcome)
    requires IsAvailable(r) && encoded.Some?
    ensures var sent := post(BuildRequest(r, encoded.value, false));
      && (sent.RequestFailed? ==> Recognize(r, encoded, post, parse) == Err(RequestFailedPrefix + sent.message))
      && (sent.Replied? && parse(ExtractFenced(sent.content)).Parsed? ==>
            Recognize(r, encoded, post, parse) == Ok(Formatted(parse(ExtractFenced(sent.content)).reply)))
      && (sent.Raised? ==> Recognize(r, encoded, post, parse) == Err(sent.message))
      && (sent.Replied? && parse(ExtractFenced(sent.content)).Malformed? ==>
            Recognize(r, encoded, post, parse) == Ok(Fallback(ExtractFenced(sent.content))))
      && (sent.Replied? && parse(ExtractFenced(sent.content)).NotAnObject? ==>
            Recognize(r, encoded, post, parse) == Err(parse(ExtractFenced(sent.content)).message))
  {
  }

  /** The fallback text never holds a fence when the reply had one. */
  lemma FallbackHasNoFence(r: Recognizer, encoded: Option<string>, post: Request -> HttpOutcome,
                           parse: string -> JsonOutcome)
    requires Recognize(r, encoded, post, parse).Ok?
    requires Recognize(r, encoded, post, parse).value.raw.Unparsed?
    ensures var res := Recognize(r, encoded, post, parse).value;
      var sent := post(BuildRequest(r, encoded.value, false));
      sent.Replied? && (Contains(sent.content, Fence) ==> !Contains(res.texts[0].text, Fence))
  {
    var sent := post(BuildRequest(r, encoded.value, false));
    assert sent.Replied?;
    var c := ExtractFenced(sent.content);
    assert parse(c).Malformed?;
    assert Recognize(r, encoded, post, parse) == Ok(Fallback(c));
  }

  /** What decoding one streamed `data:` payload does: not JSON, a chunk whose delta may carry
      `content`, or a chunk without `choices[0].delta`, which raises. */
  datatype ChunkOutcome = Undecodable | Delta(content: Option<string>) | ChunkFailed(message: string)

  /** The generator's output: the contents yielded, and the exception that ended it, if any. */
  datatype StreamOutcome = StreamOutcome(chunks: seq<string>, failure: Option<string>)

  const DataPrefix := "data: "
  const DoneMarker := "[DONE]"

  function Prepend(xs: seq<string>, o: StreamOutcome): StreamOutcome {
    StreamOutcome(xs + o.chunks, o.failure)
  }

  /** The server-sent-event lines a streamed reply yields, read from the first line. */
  function Deltas(lines: seq<string>, decode: string -> ChunkOutcome): StreamOutcome {
    if lines == [] then StreamOutcome([], None)
    else
      var line := lines[0];
      if line == "" || !StartsWith(line, DataPrefix) then Deltas(lines[1..], decode)
      else if line[|DataPrefix|..] == DoneMarker then StreamOutcome([], None)
      else match decode(line[|DataPrefix|..])
        case Undecodable => Deltas(lines[1..], decode)
        case ChunkFailed(m) => StreamOutcome([], Some(m))
        case Delta(content) =>
          var rest := Deltas(lines[1..], decode);
          if content.Some? then Prepend([content.value], rest) else rest
  }

  /** `_stream_response` over the response's lines. */
  method StreamResponse(lines: seq<string>, decode: string -> ChunkOutcome) returns (out: StreamOutcome)
    ensures out == Deltas(lines, decode)
  {
    var chunks: seq<string> := [];
    var i := 0;
    while i < |lines|
      invariant 0 <= i <= |lines|
      invariant Deltas(lines, decode) == Prepend(chunks, Deltas(lines[i..], decode))
    {
      var line := lines[i];
      assert lines[i..][1..] == lines[i + 1..];
      if line != "" && StartsWith(line, DataPrefix) {
        var data := line[|DataPrefix|..];
        if data == DoneMarker {
          return StreamOutcome(chunks, None);
        }
        match decode(data)
        case Undecodable =>
        case ChunkFailed(m) =>
          return StreamOutcome(chunks, Some(m));
        case Delta(content) =>
          if content.Some? {
            chunks := chunks + [content.value];
          }
      }
      i := i + 1;
    }
    assert lines[i..] == [];
    out := StreamOutcome(chunks, None);
  }

  /** A line that is not a `data:` event changes nothing, wherever it appears. */
  lemma {:induction false} DeltasSkipNonData(pre: seq<string>, line: string, post: seq<string>,
                                             decode: string -> ChunkOutcome)
    requires !StartsWith(line, DataPrefix)
    ensures Deltas(pre + [line] + post, decode) == Deltas(pre + post, decode)
  {
    if pre == [] {
      assert pre + [line] + post == [line] + post && pre + post == post;
      assert ([line] + post)[1..] == post;
    } else {
      DeltasSkipNonData(pre[1..], line, post, decode);
      assert (pre + [line] + post)[1..] == pre[1..] + [line] + post;
      assert (pre + post)[1..] == pre[1..] + post;
    }
  }

  /** An event whose payload is not JSON changes nothing, wherever it appears. */
  lemma {:induction false} DeltasSkipUndecodable(pre: seq<string>, line: string, post: seq<string>,
                                                 decode: string -> ChunkOutcome)
    requires StartsWith(line, DataPrefix) && line[|DataPrefix|..] != DoneMarker
    requires decode(line[|DataPrefix|..]).Undecodable?
    ensures Deltas(pre + [line] + post, decode) == Deltas(pre + post, decode)
  {
    if pre == [] {
      assert pre + [line] + post == [line] + post && pre + post == post;
      assert ([line] + post)[1..] == post;
    } else {
      DeltasSkipUndecodable(pre[1..], line, post, decode);
      assert (pre + [line] + post)[1..] == pre[1..] + [line] + post;
      assert (pre + post)[1..] == pre[1..] + post;
    }
  }

  /** Nothing after a `data: [DONE]` event is read. */
  lemma {:induction false} DeltasStopAtDone(pre: seq<string>, post: seq<string>,
                                            decode: string -> ChunkOutcome)
    ensures Deltas(pre + [DataPrefix + DoneMarker] + post, decode) == Deltas(pre + [DataPrefix + DoneMarker], decode)
  {
    var done := DataPrefix + DoneMarker;
    assert done[|DataPrefix|..] == DoneMarker;
    if pre != [] {
      DeltasStopAtDone(pre[1..], post, decode);
      assert (pre + [done] + post)[1..] == pre[1..] + [done] + post;
      assert (pre + [done])[1..] == pre[1..] + [done];
    }
  }

  /** Each event carrying content contributes exactly that content, in place. */
  lemma DeltasYieldContent(line: string, rest: seq<string>, decode: string -> ChunkOutcome)
    requires StartsWith(line, DataPrefix) && line[|DataPrefix|..] != DoneMarker
    requires decode(line[|DataPrefix|..]).Delta? && decode(line[|DataPrefix|..]).content.Some?
    ensures Deltas([line] + rest, decode).chunks ==
      [decode(line[|DataPrefix|..]).content.value] + Deltas(rest, decode).chunks
  {
    assert ([line] + rest)[1..] == rest;
  }
}
