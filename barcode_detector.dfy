/** The barcode detector (backend/core/barcode_detector.py): shapes the decoder's symbols into
    detections, merges the detections of eight decoder runs over enhanced variants of the image
    with first-seen-wins deduplication by payload, and computes crop bounds.

    The pixel transforms are not modelled: each variant is opaque, and the decoder is the oracle
    `decode`, which says what pyzbar reports (or raises) on that variant. */
module BarcodeDetector {
  import opened Boxes

  /** One symbol as the decoder reports it: bounding rectangle, outline, payload (already
      decoded from UTF-8 with undecodable bytes dropped) and symbology name. */
  datatype Symbol = Symbol(rect: Box, polygon: seq<(int, int)>, data: string, kind: string)

  /** What one decoder call does: returns its symbols, or raises. */
  datatype DecodeOutcome = Decoded(symbols: seq<Symbol>) | Raised(message: string)

  /** A detection dictionary: `barcode_data`, `barcode_type`, `position`, `confidence`,
      `polygon`. */
  datatype Detection = Detection(data: string, kind: string, position: Box, confidence: real, polygon: seq<(int, int)>)

  /** The images the ensemble decodes, in the order it tries them. */
  datatype Variant = Original | Equalized | Clahe | Otsu | OtsuInverted | Sharpened | Closed | Upscaled

  /** Images no larger than this on their longer side are also tried upscaled. */
  const UpscaleLimit := 1500

  function ToDetection(s: Symbol): Detection {
    Detection(s.data, s.kind, s.rect, 1.0, s.polygon)
  }

  /** What `decode_barcodes` returns for one decoder outcome. */
  function Detections(outcome: DecodeOutcome): (r: seq<Detection>)
    ensures outcome.Raised? ==> r == []
    ensures outcome.Decoded? ==> |r| == |outcome.symbols|
    ensures outcome.Decoded? ==> forall k | 0 <= k < |r| ::
      && r[k].confidence == 1.0
      && r[k].data == outcome.symbols[k].data && r[k].kind == outcome.symbols[k].kind
      && r[k].position == outcome.symbols[k].rect && r[k].polygon == outcome.symbols[k].polygon
  {
    match outcome
    case Raised(_) => []
    case Decoded(symbols) => seq(|symbols|, k requires 0 <= k < |symbols| => ToDetection(symbols[k]))
  }

  /** `decode_barcodes`: one detection per symbol, in the decoder's order, always with
      confidence 1.0; a decoder that raises yields no detections. */
  method DecodeBarcodes(outcome: DecodeOutcome) returns (barcodes: seq<Detection>)
    ensures barcodes == Detections(outcome)
  {
    match outcome {
      case Raised(_) =>
        return [];
      case Decoded(symbols) =>
        barcodes := [];
        for k := 0 to |symbols|
          invariant barcodes == seq(k, j requires 0 <= j < k => ToDetection(symbols[j]))
        {
          barcodes := barcodes + [ToDetection(symbols[k])];
        }
    }
  }

  /** The payloads of a list of detections (the `detected_data` set). */
  function Payloads(s: seq<Detection>): set<string> {
    set d | d in s :: d.data
  }

  /** No two detections share a payload. */
  predicate UniquePayloads(s: seq<Detection>) {
    forall i, j | 0 <= i < j < |s| :: s[i].data != s[j].data
  }

  /** One pass of a merge loop: `bc` is kept only when its payload is new. */
  function Admit(acc: seq<Detection>, bc: Detection): seq<Detection> {
    if bc.data in Payloads(acc) then acc else acc + [bc]
  }

  /** A merge loop over `batch`, starting from the list `acc`. */
  function MergeInto(acc: seq<Detection>, batch: seq<Detection>): seq<Detection>
    decreases |batch|
  {
    if batch == [] then acc else Admit(MergeInto(acc, batch[..|batch| - 1]), batch[|batch| - 1])
  }

  /** The first-seen-wins deduplication of a stream of detections. */
  function Dedup(stream: seq<Detection>): seq<Detection> {
    MergeInto([], stream)
  }

  /** A detection from the upscaled image mapped back to original coordinates: each position
      field becomes `int(v / 1.5)`; payload, type, confidence and polygon are untouched. */
  function Rescaled(bc: Detection): (r: Detection)
    ensures r.data == bc.data && r.kind == bc.kind && r.confidence == bc.confidence && r.polygon == bc.polygon
    ensures r.position.x == TruncDiv(2 * bc.position.x, 3) && r.position.y == TruncDiv(2 * bc.position.y, 3)
    ensures r.position.width == TruncDiv(2 * bc.position.width, 3)
    ensures r.position.height == TruncDiv(2 * bc.position.height, 3)
  {
    var p := bc.position;
    bc.(position := Box(TruncDiv(2 * p.x, 3), TruncDiv(2 * p.y, 3), TruncDiv(2 * p.width, 3), TruncDiv(2 * p.height, 3)))
  }

  function RescaleAll(batch: seq<Detection>): (r: seq<Detection>)
    ensures |r| == |batch| && forall k | 0 <= k < |r| :: r[k] == Rescaled(batch[k])
  {
    seq(|batch|, k requires 0 <= k < |batch| => Rescaled(batch[k]))
  }

  /** Whether the ensemble also decodes an upscaled copy of an image of this size. */
  predicate TriesUpscale(height: int, width: int) {
    Max(height, width) < UpscaleLimit
  }

  /** The detections of the seven stages at the original scale, in the order they are tried. */
  function DirectStream(decode: Variant -> DecodeOutcome): seq<Detection> {
    Detections(decode(Original)) + Detections(decode(Equalized)) + Detections(decode(Clahe))
    + Detections(decode(Otsu)) + Detections(decode(OtsuInverted)) + Detections(decode(Sharpened))
    + Detections(decode(Closed))
  }

  /** The detections of the upscaled stage, mapped back to original coordinates, or nothing
      when the image is too large to be upscaled. */
  function UpscaledStream(decode: Variant -> DecodeOutcome, height: int, width: int): seq<Detection> {
    if TriesUpscale(height, width) then RescaleAll(Detections(decode(Upscaled))) else []
  }

  /** What `decode_with_enhancement` returns: the deduplication of every stage's detections. */
  function Ensemble(decode: Variant -> DecodeOutcome, height: int, width: int): seq<Detection> {
    Dedup(DirectStream(decode) + UpscaledStream(decode, height, width))
  }

  lemma {:induction false} MergeIntoConcat(acc: seq<Detection>, b1: seq<Detection>, b2: seq<Detection>)
    decreases |b2|
    ensures MergeInto(MergeInto(acc, b1), b2) == MergeInto(acc, b1 + b2)
  {
    if b2 == [] {
      assert b1 + b2 == b1;
    } else {
      var n := |b2|;
      MergeIntoConcat(acc, b1, b2[..n - 1]);
      assert (b1 + b2)[..|b1 + b2| - 1] == b1 + b2[..n - 1];
      assert (b1 + b2)[|b1 + b2| - 1] == b2[n - 1];
    }
  }

  /** One stage's merge loop; for the upscaled stage, each newly kept detection is rescaled
      before it is appended, and detections whose payload was already seen are dropped as they
      are. */
  method MergeStage(all: seq<Detection>, seen: set<string>, batch: seq<Detection>, upscaled: bool)
    returns (merged: seq<Detection>, mergedSeen: set<string>)
    requires seen == Payloads(all)
    ensures merged == MergeInto(all, if upscaled then RescaleAll(batch) else batch)
    ensures mergedSeen == Payloads(merged)
  {
    ghost var stream := if upscaled then RescaleAll(batch) else batch;
    merged, mergedSeen := all, seen;
    for k := 0 to |batch|
      invariant merged == MergeInto(all, stream[..k])
      invariant mergedSeen == Payloads(merged)
    {
      var bc := batch[k];
      assert stream[..k + 1][..k] == stream[..k];
      if bc.data !in mergedSeen {
        if upscaled {
          bc := Rescaled(bc);
        }
        merged := merged + [bc];
        mergedSeen := mergedSeen + {bc.data};
      }
    }
    assert stream[..|batch|] == stream;
  }

  /** `decode_with_enhancement`: all eight stages are run in order, with no early exit; the
      upscaled stage runs only for images below the size limit. */
  method DecodeWithEnhancement(decode: Variant -> DecodeOutcome, height: int, width: int)
    returns (allBarcodes: seq<Detection>)
    ensures allBarcodes == Ensemble(decode, height, width)
  {
    var seen: set<string> := {};
    allBarcodes := [];
    var b1 := DecodeBarcodes(decode(Original));
    allBarcodes, seen := MergeStage(allBarcodes, seen, b1, false);
    var b2 := DecodeBarcodes(decode(Equalized));
    allBarcodes, seen := MergeStage(allBarcodes, seen, b2, false);
    var b3 := DecodeBarcodes(decode(Clahe));
    allBarcodes, seen := MergeStage(allBarcodes, seen, b3, false);
    var b4 := DecodeBarcodes(decode(Otsu));
    allBarcodes, seen := MergeStage(allBarcodes, seen, b4, false);
    var b5 := DecodeBarcodes(decode(OtsuInverted));
    allBarcodes, seen := MergeStage(allBarcodes, seen, b5, false);
    var b6 := DecodeBarcodes(decode(Sharpened));
    allBarcodes, seen := MergeStage(allBarcodes, seen, b6, false);
    var b7 := DecodeBarcodes(decode(Closed));
    allBarcodes, seen := MergeStage(allBarcodes, seen, b7, false);
    MergeIntoConcat([], b1, b2);
    MergeIntoConcat([], b1 + b2, b3);
    MergeIntoConcat([], b1 + b2 + b3, b4);
    MergeIntoConcat([], b1 + b2 + b3 + b4, b5);
    MergeIntoConcat([], b1 + b2 + b3 + b4 + b5, b6);
    MergeIntoConcat([], b1 + b2 + b3 + b4 + b5 + b6, b7);
    assert allBarcodes == Dedup(DirectStream(decode));
    if Max(height, width) < UpscaleLimit {
      var b8 := DecodeBarcodes(decode(Upscaled));
      allBarcodes, seen := MergeStage(allBarcodes, seen, b8, true);
      MergeIntoConcat([], DirectStream(decode), RescaleAll(b8));
    } else {
      assert DirectStream(decode) + UpscaledStream(decode, height, width) == DirectStream(decode);
    }
  }

  /** `detect`: the ensemble when `try_enhancement` is set, a single decoder run otherwise. */
  method Detect(decode: Variant -> DecodeOutcome, height: int, width: int, tryEnhancement: bool)
    returns (barcodes: seq<Detection>)
    ensures barcodes == DetectSpec(decode, height, width, tryEnhancement)
  {
    if tryEnhancement {
      barcodes := DecodeWithEnhancement(decode, height, width);
    } else {
      barcodes := DecodeBarcodes(decode(Original));
    }
  }

  function DetectSpec(decode: Variant -> DecodeOutcome, height: int, width: int, tryEnhancement: bool): seq<Detection> {
    if tryEnhancement then Ensemble(decode, height, width) else Detections(decode(Original))
  }

  /** The index of the first detection carrying payload `p`. */
  function FirstIndex(s: seq<Detection>, p: string): (i: nat)
    requires p in Payloads(s)
    ensures i < |s| && s[i].data == p
    ensures forall j | 0 <= j < i :: s[j].data != p
  {
    if s[0].data == p then 0
    else
      assert p in Payloads(s[1..]) by {
        var d :| d in s && d.data == p;
        var k :| 0 <= k < |s| && s[k] == d;
        assert s[1..][k - 1] == d;
      }
      1 + FirstIndex(s[1..], p)
  }

  lemma PayloadsSnoc(s: seq<Detection>, x: Detection)
    ensures Payloads(s + [x]) == Payloads(s) + {x.data}
  {
    forall p | p in Payloads(s + [x]) ensures p in Payloads(s) + {x.data} {
      var d :| d in s + [x] && d.data == p;
    }
    forall p | p in Payloads(s) ensures p in Payloads(s + [x]) {
      var d :| d in s && d.data == p;
      assert d in s + [x];
    }
    assert x in s + [x];
  }

  lemma FirstIndexSnoc(s: seq<Detection>, x: Detection, p: string)
    requires p in Payloads(s)
    ensures p in Payloads(s + [x]) && FirstIndex(s + [x], p) == FirstIndex(s, p)
  {
    PayloadsSnoc(s, x);
    var i := FirstIndex(s, p);
    var i2 := FirstIndex(s + [x], p);
    assert (s + [x])[i] == s[i];
  }

  lemma FirstIndexSnocNew(s: seq<Detection>, x: Detection)
    requires x.data !in Payloads(s)
    ensures x.data in Payloads(s + [x]) && FirstIndex(s + [x], x.data) == |s|
  {
    PayloadsSnoc(s, x);
    forall j | 0 <= j < |s|
      ensures (s + [x])[j].data != x.data
    {
      assert (s + [x])[j] == s[j] && s[j] in s;
    }
  }

  /** The deduplicated stream holds every payload of the stream, each exactly once. */
  lemma {:induction false} DedupPayloads(s: seq<Detection>)
    decreases |s|
    ensures UniquePayloads(Dedup(s)) && Payloads(Dedup(s)) == Payloads(s)
  {
    if s == [] {
      assert Payloads(s) == {};
    } else {
      var n := |s|;
      var s' := s[..n - 1];
      var x := s[n - 1];
      var r' := Dedup(s');
      DedupPayloads(s');
      assert s == s' + [x];
      PayloadsSnoc(s', x);
      if x.data !in Payloads(r') {
        PayloadsSnoc(r', x);
        forall k | 0 <= k < |r'| ensures r'[k].data != x.data {
          assert r'[k] in r';
        }
      }
    }
  }

  /** Every entry of `r` is the first detection in `s` with its payload, and entries appear in
      the order their payloads were first seen in `s`. */
  ghost predicate FirstSeenOrder(s: seq<Detection>, r: seq<Detection>) {
    && (forall k | 0 <= k < |r| :: r[k].data in Payloads(s) && r[k] == s[FirstIndex(s, r[k].data)])
    && (forall i, j | 0 <= i < j < |r| ::
          r[i].data in Payloads(s) && r[j].data in Payloads(s) &&
          FirstIndex(s, r[i].data) < FirstIndex(s, r[j].data))
  }

  /** Admitting the next detection of the stream keeps the first-seen order. */
  lemma FirstSeenSnoc(s: seq<Detection>, x: Detection, r: seq<Detection>)
    requires FirstSeenOrder(s, r) && Payloads(r) == Payloads(s)
    ensures FirstSeenOrder(s + [x], Admit(r, x))
  {
    var s2 := s + [x];
    forall k | 0 <= k < |r|
      ensures r[k].data in Payloads(s2) && FirstIndex(s2, r[k].data) == FirstIndex(s, r[k].data)
      ensures s2[FirstIndex(s, r[k].data)] == s[FirstIndex(s, r[k].data)]
    {
      FirstIndexSnoc(s, x, r[k].data);
    }
    if x.data !in Payloads(r) {
      FirstIndexSnocNew(s, x);
      var r2 := r + [x];
      forall k | 0 <= k < |r2|
        ensures r2[k].data in Payloads(s2) && r2[k] == s2[FirstIndex(s2, r2[k].data)]
      {
        if k < |r| {
          assert r2[k] == r[k];
        }
      }
      forall i, j | 0 <= i < j < |r2|
        ensures r2[i].data in Payloads(s2) && r2[j].data in Payloads(s2)
        ensures FirstIndex(s2, r2[i].data) < FirstIndex(s2, r2[j].data)
      {
        assert r2[i] == r[i];
        if j < |r| {
          assert r2[j] == r[j];
        }
      }
    }
  }

  /** Each entry of the deduplicated stream is the first detection in the stream with its
      payload, and entries appear in the order their payloads were first seen. */
  lemma {:induction false} DedupFirstSeen(s: seq<Detection>)
    decreases |s|
    ensures var r := Dedup(s);
      && (forall k | 0 <= k < |r| :: r[k].data in Payloads(s) && r[k] == s[FirstIndex(s, r[k].data)])
      && (forall i, j | 0 <= i < j < |r| :: FirstIndex(s, r[i].data) < FirstIndex(s, r[j].data))
  {
    assert FirstSeenOrder(s, Dedup(s)) by {
      if s != [] {
        var n := |s|;
        var s' := s[..n - 1];
        var x := s[n - 1];
        DedupFirstSeen(s');
        DedupPayloads(s');
        assert s == s' + [x];
        FirstSeenSnoc(s', x, Dedup(s'));
      }
    }
  }

  /** Every payload any stage found is in the merged list, exactly once. */
  lemma EnsembleKeepsEveryPayload(decode: Variant -> DecodeOutcome, height: int, width: int)
    ensures var r := Ensemble(decode, height, width);
      && UniquePayloads(r)
      && Payloads(DirectStream(decode)) <= Payloads(r)
      && (TriesUpscale(height, width) ==> Payloads(Detections(decode(Upscaled))) <= Payloads(r))
  {
    var direct := DirectStream(decode);
    var up := UpscaledStream(decode, height, width);
    DedupPayloads(direct + up);
    forall p | p in Payloads(direct) ensures p in Payloads(direct + up) {
      var d :| d in direct && d.data == p;
      assert d in direct + up;
    }
    if TriesUpscale(height, width) {
      var raw := Detections(decode(Upscaled));
      forall p | p in Payloads(raw) ensures p in Payloads(direct + up) {
        var d :| d in raw && d.data == p;
        var k :| 0 <= k < |raw| && raw[k] == d;
        assert up[k] in direct + up;
      }
    }
  }

  /** A payload found in `a` is first found in `a + b` where it is first found in `a`. */
  lemma FirstIndexInPrefix(a: seq<Detection>, b: seq<Detection>, p: string)
    requires p in Payloads(a)
    ensures p in Payloads(a + b) && FirstIndex(a + b, p) == FirstIndex(a, p)
  {
    var i0 := FirstIndex(a, p);
    assert (a + b)[i0] == a[i0] && a[i0] in a + b;
    assert forall j | 0 <= j < i0 :: (a + b)[j] == a[j];
  }

  /** An entry of the deduplicated `a + b` is the first of `a` with its payload, or else comes
      from `b`. */
  lemma DedupConcatEntry(a: seq<Detection>, b: seq<Detection>, d: Detection)
    requires d in Dedup(a + b)
    ensures d.data in Payloads(a) ==> d == a[FirstIndex(a, d.data)]
    ensures d.data !in Payloads(a) ==> d in b
  {
    var s := a + b;
    var r := Dedup(s);
    DedupFirstSeen(s);
    var k :| 0 <= k < |r| && r[k] == d;
    var i := FirstIndex(s, d.data);
    assert d == s[i];
    if d.data in Payloads(a) {
      FirstIndexInPrefix(a, b, d.data);
    } else {
      assert b[i - |a|] == d;
    }
  }

  lemma EnsembleEntry(decode: Variant -> DecodeOutcome, height: int, width: int, d: Detection)
    requires d in Ensemble(decode, height, width)
    ensures var direct := DirectStream(decode);
      && (d.data in Payloads(direct) ==> d == direct[FirstIndex(direct, d.data)])
      && (d.data !in Payloads(direct) ==>
            TriesUpscale(height, width)
            && exists u | u in Detections(decode(Upscaled)) :: d == Rescaled(u))
  {
    var direct := DirectStream(decode);
    var up := UpscaledStream(decode, height, width);
    DedupConcatEntry(direct, up, d);
    if d.data !in Payloads(direct) {
      var raw := Detections(decode(Upscaled));
      var k :| 0 <= k < |up| && up[k] == d;
      assert raw[k] in raw;
    }
  }

  /** Which entry the merge keeps for a payload: the first one at the original scale when any
      of the seven direct stages found it, and otherwise the rescaled copy of the first one the
      upscaled stage found, its polygon left as decoded. */
  lemma EnsembleEntries(decode: Variant -> DecodeOutcome, height: int, width: int)
    ensures var r := Ensemble(decode, height, width);
      var direct := DirectStream(decode);
      forall d | d in r ::
        && (d.data in Payloads(direct) ==> d == direct[FirstIndex(direct, d.data)])
        && (d.data !in Payloads(direct) ==>
              TriesUpscale(height, width)
              && exists u | u in Detections(decode(Upscaled)) :: d == Rescaled(u))
  {
    forall d | d in Ensemble(decode, height, width)
      ensures var direct := DirectStream(decode);
        && (d.data in Payloads(direct) ==> d == direct[FirstIndex(direct, d.data)])
        && (d.data !in Payloads(direct) ==>
              TriesUpscale(height, width)
              && exists u | u in Detections(decode(Upscaled)) :: d == Rescaled(u))
    {
      EnsembleEntry(decode, height, width, d);
    }
  }

  /** For images at or above the size limit, the upscaled decoder run has no influence. */
  lemma LargeImagesSkipUpscale(decode1: Variant -> DecodeOutcome, decode2: Variant -> DecodeOutcome, height: int, width: int)
    requires !TriesUpscale(height, width)
    requires forall v | v != Upscaled :: decode1(v) == decode2(v)
    ensures Ensemble(decode1, height, width) == Ensemble(decode2, height, width)
  {
    assert decode1(Original) == decode2(Original) && decode1(Equalized) == decode2(Equalized);
    assert decode1(Clahe) == decode2(Clahe) && decode1(Otsu) == decode2(Otsu);
    assert decode1(OtsuInverted) == decode2(OtsuInverted) && decode1(Sharpened) == decode2(Sharpened);
    assert decode1(Closed) == decode2(Closed);
  }

  /** The crop rectangle `get_barcode_region` slices: rows `y1..y2`, columns `x1..x2`. */
  datatype Crop = Crop(x1: int, y1: int, x2: int, y2: int)

  /** `get_barcode_region`: the barcode box grown by `int(w * ratio)` and `int(h * ratio)` on
      every side, clamped to the image. */
  function BarcodeRegion(imageHeight: nat, imageWidth: nat, pos: Box, expandRatio: real): (c: Crop)
    ensures 0 <= c.x1 && 0 <= c.y1 && c.x2 <= imageWidth && c.y2 <= imageHeight
  {
    Clamped(imageHeight, imageWidth, pos, Margin(pos.width, expandRatio), Margin(pos.height, expandRatio))
  }

  /** The margin `int(v * ratio)` added on each side of a box of length `v`. */
  function Margin(v: int, ratio: real): int {
    Trunc(v as real * ratio)
  }

  /** A non-negative length and ratio give a non-negative margin, at most the scaled length. */
  lemma MarginNonneg(v: int, ratio: real)
    requires 0 <= v && 0.0 <= ratio
    ensures 0 <= Margin(v, ratio) && Margin(v, ratio) as real <= v as real * ratio
  {
    assert 0.0 <= v as real * ratio;
  }

  /** The box grown by margins `mw` and `mh` on every side and clamped to the image. */
  function Clamped(imageHeight: nat, imageWidth: nat, pos: Box, mw: int, mh: int): (c: Crop)
    ensures 0 <= c.x1 && 0 <= c.y1 && c.x2 <= imageWidth && c.y2 <= imageHeight
  {
    Crop(Max(0, pos.x - mw), Max(0, pos.y - mh),
         Min(imageWidth, pos.x + pos.width + mw), Min(imageHeight, pos.y + pos.height + mh))
  }

  /** A box that lies inside the image is inside its crop, for a non-negative ratio; each edge
      of the crop that the image does not clip is the box's edge moved out by the truncated
      margin, and each clipped edge is the image border. */
  lemma RegionContainsBox(imageHeight: nat, imageWidth: nat, pos: Box, expandRatio: real)
    requires 0.0 <= expandRatio && 0 <= pos.width && 0 <= pos.height
    requires 0 <= pos.x && pos.x + pos.width <= imageWidth
    requires 0 <= pos.y && pos.y + pos.height <= imageHeight
    ensures var c := BarcodeRegion(imageHeight, imageWidth, pos, expandRatio);
      && c.x1 <= pos.x && pos.x + pos.width <= c.x2
      && c.y1 <= pos.y && pos.y + pos.height <= c.y2
    ensures var c := BarcodeRegion(imageHeight, imageWidth, pos, expandRatio);
      var mw := Margin(pos.width, expandRatio);
      var mh := Margin(pos.height, expandRatio);
      && 0 <= mw && 0 <= mh
      && (if pos.x - mw >= 0 then c.x1 == pos.x - mw else c.x1 == 0)
      && (if pos.y - mh >= 0 then c.y1 == pos.y - mh else c.y1 == 0)
      && (if pos.x + pos.width + mw <= imageWidth then c.x2 == pos.x + pos.width + mw else c.x2 == imageWidth)
      && (if pos.y + pos.height + mh <= imageHeight then c.y2 == pos.y + pos.height + mh else c.y2 == imageHeight)
  {
    MarginNonneg(pos.width, expandRatio);
    MarginNonneg(pos.height, expandRatio);
    ClampedEdges(imageHeight, imageWidth, pos, Margin(pos.width, expandRatio), Margin(pos.height, expandRatio),
                 BarcodeRegion(imageHeight, imageWidth, pos, expandRatio));
  }

  /** Clamping with non-negative margins keeps a box that lies inside the image, and moves
      each edge out by its margin unless the image border comes first. */
  lemma ClampedEdges(imageHeight: nat, imageWidth: nat, pos: Box, mw: int, mh: int, c: Crop)
    requires 0 <= mw && 0 <= mh && 0 <= pos.width && 0 <= pos.height
    requires 0 <= pos.x && pos.x + pos.width <= imageWidth
    requires 0 <= pos.y && pos.y + pos.height <= imageHeight
    requires c == Clamped(imageHeight, imageWidth, pos, mw, mh)
    ensures c.x1 <= pos.x && pos.x + pos.width <= c.x2
      && c.y1 <= pos.y && pos.y + pos.height <= c.y2
      && (if pos.x - mw >= 0 then c.x1 == pos.x - mw else c.x1 == 0)
      && (if pos.y - mh >= 0 then c.y1 == pos.y - mh else c.y1 == 0)
      && (if pos.x + pos.width + mw <= imageWidth then c.x2 == pos.x + pos.width + mw else c.x2 == imageWidth)
      && (if pos.y + pos.height + mh <= imageHeight then c.y2 == pos.y + pos.height + mh else c.y2 == imageHeight)
  {
  }
}
