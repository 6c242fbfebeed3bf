/** The association analyzer (backend/core/association_analyzer.py): scores each text region
    against each barcode by distance and direction, lets every barcode collect the regions that
    score high enough, consumes strongly associated regions so that later barcodes cannot take
    them, and reports the regions no barcode consumed as independent text.

    Scores are real numbers; the square root is the parameter `sqrt`, of which only `IsSqrt` is
    known. */
module AssociationAnalyzer {
  import opened Wrappers
  import opened Boxes
  import opened Strings
  import opened Sorting
  import BarcodeDetector
  import TextRecognizer

  type Detection = BarcodeDetector.Detection
  type Region = TextRecognizer.Region

  /** The analyzer's settings: search radius as a multiple of barcode width, the weight of each
      direction, and the strong and weak score thresholds. */
  datatype Analyzer = Analyzer(multiplier: real, weights: map<string, real>, strong: real, weak: real)

  const DefaultWeights: map<string, real> := map["right" := 0.8, "bottom" := 0.6, "left" := 0.4, "top" := 0.3]

  /** The constructor: no weights, or an empty weight table, means the default weights. */
  function NewAnalyzer(multiplier: real, weights: Option<map<string, real>>, strong: real, weak: real): (a: Analyzer)
    ensures a.multiplier == multiplier && a.strong == strong && a.weak == weak
    ensures weights.None? || weights.value == map[] ==> a.weights == DefaultWeights
    ensures weights.Some? && weights.value != map[] ==> a.weights == weights.value
  {
    Analyzer(multiplier, if weights.Some? && weights.value != map[] then weights.value else DefaultWeights, strong, weak)
  }

  /** `sqrt(v)`, named so that the facts `IsSqrt` states about it are only used where a proof
      asks for them. */
  ghost function Root(sqrt: real -> real, v: real): real {
    sqrt(v)
  }

  /** `sqrt` returns the non-negative square root of every non-negative real (so the root of 0
      is 0). */
  ghost predicate IsSqrt(sqrt: real -> real) {
    && (forall v {:trigger Root(sqrt, v)} | 0.0 <= v :: 0.0 <= Root(sqrt, v) && Root(sqrt, v) * Root(sqrt, v) == v)
    && sqrt(0.0) == 0.0
  }

  function CenterX(b: Box): real {
    b.x as real + b.width as real / 2.0
  }

  function CenterY(b: Box): real {
    b.y as real + b.height as real / 2.0
  }

  /** The squared length of the vector `(dx, dy)`. */
  function Norm2(dx: real, dy: real): real {
    dx * dx + dy * dy
  }

  /** Squared distance between the centres of two boxes. */
  function SquaredDistance(b1: Box, b2: Box): real {
    Norm2(CenterX(b1) - CenterX(b2), CenterY(b1) - CenterY(b2))
  }

  /** `_calculate_distance`: Euclidean distance between the centres. */
  function Distance(sqrt: real -> real, b1: Box, b2: Box): (d: real)
    requires IsSqrt(sqrt)
    ensures d >= 0.0
  {
    var v := SquaredDistance(b1, b2);
    assert v >= 0.0 && Root(sqrt, v) == sqrt(v);
    sqrt(v)
  }

  /** The distance squared is the squared distance. */
  lemma DistanceSquared(sqrt: real -> real, b1: Box, b2: Box)
    requires IsSqrt(sqrt)
    ensures Distance(sqrt, b1, b2) * Distance(sqrt, b1, b2) == SquaredDistance(b1, b2)
  {
    assert Root(sqrt, SquaredDistance(b1, b2)) == Distance(sqrt, b1, b2);
  }

  /** `_get_direction`: where the text lies as seen from the barcode. The horizontal axis wins
      only when strictly dominant. */
  function Direction(barcode: Box, text: Box): string {
    var dx := CenterX(text) - CenterX(barcode);
    var dy := CenterY(text) - CenterY(barcode);
    if Abs(dx) > Abs(dy) then (if dx > 0.0 then "right" else "left")
    else (if dy > 0.0 then "bottom" else "top")
  }

  function Abs(r: real): (a: real)
    ensures a >= 0.0 && (a == r || a == -r)
  {
    if r < 0.0 then -r else r
  }

  /** The direction rules: horizontal when |dx| > |dy| (right iff dx > 0), otherwise vertical
      (bottom iff dy > 0); ties and coincident centres fall on the vertical axis. */
  lemma DirectionRules(barcode: Box, text: Box)
    ensures var dx := CenterX(text) - CenterX(barcode);
      var dy := CenterY(text) - CenterY(barcode);
      && (Direction(barcode, text) == "right" <==> Abs(dx) > Abs(dy) && dx > 0.0)
      && (Direction(barcode, text) == "left" <==> Abs(dx) > Abs(dy) && dx <= 0.0)
      && (Direction(barcode, text) == "bottom" <==> Abs(dx) <= Abs(dy) && dy > 0.0)
      && (Direction(barcode, text) == "top" <==> Abs(dx) <= Abs(dy) && dy <= 0.0)
  {
  }

  /** `direction_weights.get(direction, 0.5)`. */
  function Weight(a: Analyzer, direction: string): (w: real)
    ensures direction in a.weights ==> w == a.weights[direction]
    ensures direction !in a.weights ==> w == 0.5
  {
    if direction in a.weights then a.weights[direction] else 0.5
  }

  /** The message Python gives when a float is divided by zero. */
  const ZeroDivision := "float division by zero"

  /** `_calculate_association_score`. Outside the radius `width * multiplier` the score is 0;
      inside it is the distance score `1 - d / radius` times the direction weight. A zero radius
      with coincident centres divides zero by zero and raises. */
  function Score(a: Analyzer, sqrt: real -> real, barcode: Box, text: Box): (r: Result<real>)
    requires IsSqrt(sqrt)
    ensures Distance(sqrt, barcode, text) > barcode.width as real * a.multiplier ==> r == Ok(0.0)
  {
    ScoreAt(a, Distance(sqrt, barcode, text), barcode.width as real * a.multiplier, Direction(barcode, text))
  }

  /** The score once the distance, the radius and the direction are known. */
  function ScoreAt(a: Analyzer, distance: real, maxRadius: real, direction: string): (r: Result<real>)
    ensures distance > maxRadius ==> r == Ok(0.0)
    ensures distance <= maxRadius && maxRadius == 0.0 ==> r == Err(ZeroDivision)
  {
    if distance > maxRadius then Ok(0.0)
    else if maxRadius == 0.0 then Err(ZeroDivision)
    else Ok(Combined(DistanceScore(distance, maxRadius), Weight(a, direction)))
  }

  /** The distance score: 1 at the centre, falling linearly to 0 at the radius. */
  function DistanceScore(distance: real, maxRadius: real): real
    requires maxRadius != 0.0
  {
    1.0 - distance / maxRadius
  }

  /** The combined score: the distance score times the direction weight. */
  function Combined(distanceScore: real, weight: real): real {
    distanceScore * weight
  }

  /** The cut-off on squared distances: beyond a non-negative radius the score is 0. */
  lemma ScoreZeroOutsideRadius(a: Analyzer, sqrt: real -> real, barcode: Box, text: Box)
    requires IsSqrt(sqrt)
    requires var radius := barcode.width as real * a.multiplier;
      radius < 0.0 || SquaredDistance(barcode, text) > radius * radius
    ensures Score(a, sqrt, barcode, text) == Ok(0.0)
  {
    var radius := barcode.width as real * a.multiplier;
    if radius >= 0.0 {
      DistanceSquared(sqrt, barcode, text);
      SquareMonotone(Distance(sqrt, barcode, text), radius);
    }
  }

  /** Between non-negative reals, a larger square means a larger number. */
  lemma SquareMonotone(d: real, r: real)
    requires 0.0 <= d && 0.0 <= r && d * d > r * r
    ensures d > r
  {
  }

  /** A fraction in [0, 1] of a non-negative weight lies between 0 and the weight; the whole
      of any weight is the weight. */
  lemma CombinedWithin(f: real, w: real)
    ensures 0.0 <= f <= 1.0 && 0.0 <= w ==> 0.0 <= Combined(f, w) <= w
    ensures f == 1.0 ==> Combined(f, w) == w
  {
    if 0.0 <= f <= 1.0 && 0.0 <= w {
      assert f * w <= 1.0 * w;
    }
  }

  /** Within a positive radius the distance score lies in [0, 1], and is 1 at distance 0. */
  lemma DistanceScoreWithin(d: real, r: real)
    requires 0.0 <= d <= r && 0.0 < r
    ensures 0.0 <= DistanceScore(d, r) <= 1.0
    ensures d == 0.0 ==> DistanceScore(d, r) == 1.0
  {
  }

  /** Within a positive radius the score is defined and, for a non-negative direction weight,
      lies between 0 and that weight; at distance 0 it is the full weight. */
  lemma ScoreAtWithin(a: Analyzer, d: real, radius: real, direction: string)
    requires 0.0 <= d <= radius && 0.0 < radius
    ensures ScoreAt(a, d, radius, direction).Ok?
    ensures 0.0 <= Weight(a, direction) ==> 0.0 <= ScoreAt(a, d, radius, direction).value <= Weight(a, direction)
    ensures d == 0.0 ==> ScoreAt(a, d, radius, direction).value == Weight(a, direction)
  {
    DistanceScoreWithin(d, radius);
    CombinedWithin(DistanceScore(d, radius), Weight(a, direction));
  }

  /** The square of a real is non-negative. */
  lemma SquareNonneg(x: real)
    ensures x * x >= 0.0
  {
  }

  /** The square of a non-zero real is positive. */
  lemma SquarePositive(x: real)
    requires x != 0.0
    ensures x * x > 0.0
  {
    if x < 0.0 {
      assert x * x == (-x) * (-x);
    }
  }

  /** A vector with a non-zero coordinate has a positive squared length. */
  lemma Norm2Positive(x: real, y: real)
    requires x != 0.0 || y != 0.0
    ensures Norm2(x, y) > 0.0
  {
    if x != 0.0 {
      calc {
        Norm2(x, y);
        x * x + y * y;
      >= { SquareNonneg(y); }
        x * x;
      > { SquarePositive(x); }
        0.0;
      }
    } else {
      calc {
        Norm2(x, y);
        x * x + y * y;
      >= { SquareNonneg(x); }
        y * y;
      > { SquarePositive(y); }
        0.0;
      }
    }
  }

  /** A number whose square is positive is not zero. */
  lemma RootNonzero(d: real, v: real)
    requires d * d == v && 0.0 < v
    ensures d != 0.0
  {
  }

  /** Centres apart on some axis are at a positive squared distance. */
  lemma SquaredDistancePositive(b1: Box, b2: Box)
    requires CenterX(b1) != CenterX(b2) || CenterY(b1) != CenterY(b2)
    ensures SquaredDistance(b1, b2) > 0.0
  {
    Norm2Positive(CenterX(b1) - CenterX(b2), CenterY(b1) - CenterY(b2));
  }

  /** The distance is zero exactly when the centres coincide. */
  lemma DistanceZeroIff(sqrt: real -> real, b1: Box, b2: Box)
    requires IsSqrt(sqrt)
    ensures Distance(sqrt, b1, b2) == 0.0 <==> CenterX(b1) == CenterX(b2) && CenterY(b1) == CenterY(b2)
  {
    if CenterX(b1) != CenterX(b2) || CenterY(b1) != CenterY(b2) {
      SquaredDistancePositive(b1, b2);
      DistanceSquared(sqrt, b1, b2);
      RootNonzero(Distance(sqrt, b1, b2), SquaredDistance(b1, b2));
    } else {
      assert SquaredDistance(b1, b2) == 0.0;
    }
  }

  /** The score raises exactly when the radius is zero and the centres coincide. */
  lemma ScoreFailsIff(a: Analyzer, sqrt: real -> real, barcode: Box, text: Box)
    requires IsSqrt(sqrt)
    ensures Score(a, sqrt, barcode, text).Err? <==>
      barcode.width as real * a.multiplier == 0.0
      && CenterX(barcode) == CenterX(text) && CenterY(barcode) == CenterY(text)
  {
    DistanceZeroIff(sqrt, barcode, text);
  }

  /** One entry of a barcode's `related_text`. */
  datatype Association = Association(text: string, position: Box, confidence: real, score: real, relation: string)

  /** One element of the first list `associate_text_with_barcodes` returns. */
  datatype BarcodeResult = BarcodeResult(barcode: Detection, related: seq<Association>, hasAssociation: bool)

  /** One element of its second list; its `type` is always "independent". */
  datatype IndependentText = IndependentText(text: string, position: Box)

  /** A table of scores: `s(k, i)` is the score of text `i` against barcode `k`. The consumption
      logic below is stated for any such table. */
  type Scores = (nat, nat) -> Result<real>

  /** The table `associate_text_with_barcodes` computes. */
  function ScoreTable(a: Analyzer, sqrt: real -> real, barcodes: seq<Detection>, texts: seq<Region>): (s: Scores)
    requires IsSqrt(sqrt)
    ensures forall k: nat, i: nat | k < |barcodes| && i < |texts| ::
      s(k, i) == Score(a, sqrt, barcodes[k].position, texts[i].position)
  {
    (k: nat, i: nat) =>
      if k < |barcodes| && i < |texts| then Score(a, sqrt, barcodes[k].position, texts[i].position) else Ok(0.0)
  }

  /** A score that makes a barcode record the text. */
  predicate WeakHit(a: Analyzer, r: Result<real>) {
    r.Ok? && r.value >= a.weak
  }

  /** A score that makes a barcode consume the text: the strong test sits inside the weak one,
      so a text is consumed only when it is also recorded. */
  predicate Consumes(a: Analyzer, r: Result<real>) {
    WeakHit(a, r) && r.value >= a.strong
  }

  /** The texts among the first `n` that barcode `k` consumes, given the ones already consumed. */
  function StrongBelow(a: Analyzer, s: Scores, k: nat, used: set<nat>, n: nat): set<nat> {
    set i: nat | i < n && i !in used && Consumes(a, s(k, i))
  }

  /** The texts (out of `n`) consumed by barcodes `0..k-1`: the `used_text_indices` set when
      barcode `k` is reached. */
  function Used(a: Analyzer, s: Scores, n: nat, k: nat): set<nat> {
    if k == 0 then {}
    else
      var prev := Used(a, s, n, k - 1);
      prev + StrongBelow(a, s, k - 1, prev, n)
  }

  /** The texts (out of `n`) barcode `k` consumes. */
  function StrongFor(a: Analyzer, s: Scores, n: nat, k: nat): set<nat> {
    StrongBelow(a, s, k, Used(a, s, n, k), n)
  }

  /** Indices, among the first `n`, of the texts barcode `k` records: not yet consumed, and
      scoring at least the weak threshold. */
  function Matched(a: Analyzer, s: Scores, k: nat, used: set<nat>, n: nat): (idx: seq<nat>)
    ensures forall m | 0 <= m < |idx| :: idx[m] < n && idx[m] !in used && WeakHit(a, s(k, idx[m]))
  {
    if n == 0 then []
    else
      var prev := Matched(a, s, k, used, n - 1);
      if n - 1 !in used && WeakHit(a, s(k, n - 1)) then prev + [n - 1] else prev
  }

  /** The entry recorded for a text with the given score. */
  function AssociationOf(a: Analyzer, text: Region, score: real): (e: Association)
    ensures e.score == score && e.text == text.text && e.position == text.position
    ensures e.relation == "strong" <==> score >= a.strong
    ensures e.relation == "weak" <==> score < a.strong
  {
    Association(text.text, text.position, text.confidence, score, if score >= a.strong then "strong" else "weak")
  }

  /** Whether the listed texts exist and score without raising against barcode `k`. */
  predicate Scored(s: Scores, texts: seq<Region>, k: nat, idx: seq<nat>) {
    forall m | 0 <= m < |idx| :: idx[m] < |texts| && s(k, idx[m]).Ok?
  }

  /** The entries for the listed texts, in list order. */
  function EntriesOf(a: Analyzer, s: Scores, texts: seq<Region>, k: nat, idx: seq<nat>): (es: seq<Association>)
    requires Scored(s, texts, k, idx)
    ensures |es| == |idx|
  {
    seq(|idx|, m requires 0 <= m < |idx| => AssociationOf(a, texts[idx[m]], s(k, idx[m]).value))
  }

  lemma EntriesSnoc(a: Analyzer, s: Scores, texts: seq<Region>, k: nat, idx: seq<nat>, j: nat)
    requires Scored(s, texts, k, idx) && j < |texts| && s(k, j).Ok?
    ensures Scored(s, texts, k, idx + [j])
    ensures EntriesOf(a, s, texts, k, idx + [j]) == EntriesOf(a, s, texts, k, idx) + [AssociationOf(a, texts[j], s(k, j).value)]
  {
  }

  /** "`x` goes before `y`": descending score. */
  function ByScoreDescending(): (Association, Association) -> bool {
    (x: Association, y: Association) => x.score >= y.score
  }

  /** The records of barcode `k`, in text order. */
  function Entries(a: Analyzer, s: Scores, texts: seq<Region>, k: nat): seq<Association> {
    EntriesOf(a, s, texts, k, Matched(a, s, k, Used(a, s, |texts|, k), |texts|))
  }

  /** The result for barcode `k`: its records sorted by descending score, ties kept in text
      order. */
  function ResultFor(a: Analyzer, s: Scores, barcodes: seq<Detection>, texts: seq<Region>, k: nat): BarcodeResult
    requires k < |barcodes|
  {
    var related := SortBy(ByScoreDescending(), Entries(a, s, texts, k));
    BarcodeResult(barcodes[k], related, |related| > 0)
  }

  /** The results of the first `k` barcodes, in order. */
  function ResultsUpTo(a: Analyzer, s: Scores, barcodes: seq<Detection>, texts: seq<Region>, k: nat): (rs: seq<BarcodeResult>)
    requires k <= |barcodes|
    ensures |rs| == k
    ensures forall j | 0 <= j < k :: rs[j].barcode == barcodes[j]
  {
    if k == 0 then [] else ResultsUpTo(a, s, barcodes, texts, k - 1) + [ResultFor(a, s, barcodes, texts, k - 1)]
  }

  /** Indices, among the first `n`, of texts outside `used`, in order. */
  function Unused(used: set<nat>, n: nat): (idx: seq<nat>)
    ensures forall m | 0 <= m < |idx| :: idx[m] < n && idx[m] !in used
  {
    if n == 0 then [] else Unused(used, n - 1) + (if n - 1 !in used then [n - 1] else [])
  }

  function IndependentOf(texts: seq<Region>, idx: seq<nat>): seq<IndependentText>
    requires forall m | 0 <= m < |idx| :: idx[m] < |texts|
  {
    seq(|idx|, m requires 0 <= m < |idx| => IndependentText(texts[idx[m]].text, texts[idx[m]].position))
  }

  /** Whether no score the loops compute for the first `k` barcodes (against `n` texts) raises:
      each barcode scores every text not consumed before it without raising. */
  predicate ScoresBefore(a: Analyzer, s: Scores, n: nat, k: nat) {
    k == 0 || (ScoresBefore(a, s, n, k - 1) && ScansCleanly(s, n, k - 1, Used(a, s, n, k - 1)))
  }

  lemma StrongBelowStep(a: Analyzer, s: Scores, k: nat, used: set<nat>, j: nat)
    ensures StrongBelow(a, s, k, used, j + 1) ==
      StrongBelow(a, s, k, used, j) + (if j !in used && Consumes(a, s(k, j)) then {j} else {})
    ensures j !in StrongBelow(a, s, k, used, j)
  {
  }

  /** Whether barcode `k` scores every text (out of `n`) outside `used` without raising. */
  predicate ScansCleanly(s: Scores, n: nat, k: nat, used: set<nat>) {
    forall i: nat | i < n && i !in used :: s(k, i).Ok?
  }

  /** The loops raise exactly when some barcode scores some text not consumed before it with an
      error. */
  lemma {:induction false} ScoresBeforeIff(a: Analyzer, s: Scores, n: nat, k: nat)
    ensures ScoresBefore(a, s, n, k) <==>
      forall m: nat, i: nat | m < k && i < n && i !in Used(a, s, n, m) :: s(m, i).Ok?
  {
    if k > 0 {
      ScoresBeforeIff(a, s, n, k - 1);
    }
  }

  /** What `associate_text_with_barcodes` returns, or the error it raises. */
  function Associations(a: Analyzer, sqrt: real -> real, barcodes: seq<Detection>, texts: seq<Region>)
    : (r: Result<(seq<BarcodeResult>, seq<IndependentText>)>)
    requires IsSqrt(sqrt)
    ensures r.Err? ==> r.message == ZeroDivision
    ensures r.Ok? ==> |r.value.0| == |barcodes| && forall k | 0 <= k < |barcodes| :: r.value.0[k].barcode == barcodes[k]
  {
    var s := ScoreTable(a, sqrt, barcodes, texts);
    if !ScoresBefore(a, s, |texts|, |barcodes|) then Err(ZeroDivision)
    else
      Ok((ResultsUpTo(a, s, barcodes, texts, |barcodes|), IndependentOf(texts, Unused(Used(a, s, |texts|, |barcodes|), |texts|))))
  }

  /** One pass of the inner loop of `associate_text_with_barcodes`, for barcode `k` with the
      texts in `used` already consumed: the records in text order and the consumed set after the
      pass, or the error of the first score that raises. */
  method ScanTexts(a: Analyzer, sqrt: real -> real, barcodes: seq<Detection>, texts: seq<Region>, k: nat, used: set<nat>)
    returns (r: Result<(seq<Association>, set<nat>)>)
    requires IsSqrt(sqrt) && k < |barcodes|
    ensures var s := ScoreTable(a, sqrt, barcodes, texts);
      && (r.Ok? <==> ScansCleanly(s, |texts|, k, used))
      && (r.Err? ==> r.message == ZeroDivision)
      && (r.Ok? ==>
        && Scored(s, texts, k, Matched(a, s, k, used, |texts|))
        && r.value.0 == EntriesOf(a, s, texts, k, Matched(a, s, k, used, |texts|))
        && r.value.1 == used + StrongBelow(a, s, k, used, |texts|))
  {
    ghost var s := ScoreTable(a, sqrt, barcodes, texts);
    var associations: seq<Association> := [];
    var usedTextIndices := used;
    for j := 0 to |texts|
      invariant forall i: nat | i < j && i !in used :: s(k, i).Ok?
      invariant usedTextIndices == used + StrongBelow(a, s, k, used, j)
      invariant Scored(s, texts, k, Matched(a, s, k, used, j))
      invariant associations == EntriesOf(a, s, texts, k, Matched(a, s, k, used, j))
    {
      StrongBelowStep(a, s, k, used, j);
      assert (j in usedTextIndices) == (j in used);
      ghost var before := Matched(a, s, k, used, j);
      if j !in usedTextIndices {
        var score := Score(a, sqrt, barcodes[k].position, texts[j].position);
        assert score == s(k, j);
        if score.Err? {
          return Err(ZeroDivision);
        }
        if score.value >= a.weak {
          EntriesSnoc(a, s, texts, k, before, j);
          associations := associations + [AssociationOf(a, texts[j], score.value)];
          if score.value >= a.strong {
            usedTextIndices := usedTextIndices + {j};
          }
        }
      }
    }
    return Ok((associations, usedTextIndices));
  }

  /** The barcode loop of `associate_text_with_barcodes`: the result of each barcode in order and
      the texts consumed by all of them, or the error of the first score that raises. */
  method AssociateBarcodes(a: Analyzer, sqrt: real -> real, barcodes: seq<Detection>, texts: seq<Region>)
    returns (r: Result<(seq<BarcodeResult>, set<nat>)>)
    requires IsSqrt(sqrt)
    ensures var s := ScoreTable(a, sqrt, barcodes, texts);
      && (r.Err? <==> !ScoresBefore(a, s, |texts|, |barcodes|))
      && (r.Err? ==> r.message == ZeroDivision)
      && (r.Ok? ==>
        && r.value.0 == ResultsUpTo(a, s, barcodes, texts, |barcodes|)
        && r.value.1 == Used(a, s, |texts|, |barcodes|))
  {
    ghost var s := ScoreTable(a, sqrt, barcodes, texts);
    var results: seq<BarcodeResult> := [];
    var usedTextIndices: set<nat> := {};
    for k := 0 to |barcodes|
      invariant usedTextIndices == Used(a, s, |texts|, k)
      invariant results == ResultsUpTo(a, s, barcodes, texts, k)
      invariant ScoresBefore(a, s, |texts|, k)
    {
      var scan := ScanTexts(a, sqrt, barcodes, texts, k, usedTextIndices);
      if scan.Err? {
        ScoresBeforeStays(a, s, |texts|, k + 1, |barcodes|);
        return Err(ZeroDivision);
      }
      var associations := SortBy(ByScoreDescending(), scan.value.0);
      BarcodeStep(a, s, barcodes, texts, k, results, usedTextIndices, scan.value.0, scan.value.1);
      results := results + [BarcodeResult(barcodes[k], associations, |associations| > 0)];
      usedTextIndices := scan.value.1;
    }
    return Ok((results, usedTextIndices));
  }

  /** One turn of the barcode loop, for any score table: a clean scan of barcode `k` extends the
      results, the consumed set and the clean prefix by one barcode. */
  lemma BarcodeStep(a: Analyzer, s: Scores, barcodes: seq<Detection>, texts: seq<Region>, k: nat,
                    results: seq<BarcodeResult>, used: set<nat>, entries: seq<Association>, nextUsed: set<nat>)
    requires k < |barcodes|
    requires results == ResultsUpTo(a, s, barcodes, texts, k) && used == Used(a, s, |texts|, k)
    requires ScoresBefore(a, s, |texts|, k) && ScansCleanly(s, |texts|, k, used)
    requires Scored(s, texts, k, Matched(a, s, k, used, |texts|))
    requires entries == EntriesOf(a, s, texts, k, Matched(a, s, k, used, |texts|))
    requires nextUsed == used + StrongBelow(a, s, k, used, |texts|)
    ensures var related := SortBy(ByScoreDescending(), entries);
      results + [BarcodeResult(barcodes[k], related, |related| > 0)] == ResultsUpTo(a, s, barcodes, texts, k + 1)
    ensures nextUsed == Used(a, s, |texts|, k + 1) && ScoresBefore(a, s, |texts|, k + 1)
  {
  }

  /** Once a barcode's score raises, so do the loops over any longer list of barcodes. */
  lemma {:induction false} ScoresBeforeStays(a: Analyzer, s: Scores, n: nat, k1: nat, k2: nat)
    requires k1 <= k2 && !ScoresBefore(a, s, n, k1)
    decreases k2
    ensures !ScoresBefore(a, s, n, k2)
  {
    if k1 < k2 {
      ScoresBeforeStays(a, s, n, k1, k2 - 1);
    }
  }

  /** The last loop of `associate_text_with_barcodes`: the texts outside `used`, in order. */
  method ListIndependent(texts: seq<Region>, used: set<nat>) returns (independentText: seq<IndependentText>)
    ensures independentText == IndependentOf(texts, Unused(used, |texts|))
  {
    independentText := [];
    for i := 0 to |texts|
      invariant independentText == IndependentOf(texts, Unused(used, i))
    {
      if i !in used {
        independentText := independentText + [IndependentText(texts[i].text, texts[i].position)];
      }
    }
  }

  /** `associate_text_with_barcodes`: for each barcode in order, scan the texts not yet consumed,
      record those scoring at least the weak threshold, consume those among them scoring at least
      the strong one, and sort the records by descending score; then list the texts never
      consumed. */
  method Associate(a: Analyzer, sqrt: real -> real, barcodes: seq<Detection>, texts: seq<Region>)
    returns (r: Result<(seq<BarcodeResult>, seq<IndependentText>)>)
    requires IsSqrt(sqrt)
    ensures r == Associations(a, sqrt, barcodes, texts)
  {
    ghost var s := ScoreTable(a, sqrt, barcodes, texts);
    var scanned := AssociateBarcodes(a, sqrt, barcodes, texts);
    if scanned.Err? {
      return Err(scanned.message);
    }
    var independentText := ListIndependent(texts, scanned.value.1);
    return Ok((scanned.value.0, independentText));
  }

  /** Consumed sets only grow from one barcode to the next. */
  lemma {:induction false} UsedGrows(a: Analyzer, s: Scores, n: nat, k1: nat, k2: nat)
    requires k1 <= k2
    decreases k2
    ensures Used(a, s, n, k1) <= Used(a, s, n, k2)
  {
    if k1 < k2 {
      UsedGrows(a, s, n, k1, k2 - 1);
    }
  }

  /** Strong-match exclusivity: no text is consumed by two barcodes. */
  lemma StrongExclusive(a: Analyzer, s: Scores, n: nat, k1: nat, k2: nat, i: nat)
    requires i in StrongFor(a, s, n, k1) && i in StrongFor(a, s, n, k2)
    ensures k1 == k2
  {
    if k1 < k2 {
      UsedGrows(a, s, n, k1 + 1, k2);
    } else if k2 < k1 {
      UsedGrows(a, s, n, k2 + 1, k1);
    }
  }

  /** A text is consumed before barcode `k` exactly when one of the barcodes before it
      consumes it. */
  lemma {:induction false} UsedIsUnion(a: Analyzer, s: Scores, n: nat, k: nat, i: nat)
    ensures i in Used(a, s, n, k) <==> exists m: nat | m < k :: i in StrongFor(a, s, n, m)
  {
    if k > 0 {
      UsedIsUnion(a, s, n, k - 1, i);
      assert Used(a, s, n, k) == Used(a, s, n, k - 1) + StrongFor(a, s, n, k - 1);
      if exists m: nat | m < k :: i in StrongFor(a, s, n, m) {
        var m: nat :| m < k && i in StrongFor(a, s, n, m);
        if m < k - 1 {
          assert i in Used(a, s, n, k - 1);
        }
      }
    }
  }

  /** `Unused(used, n)` lists, in increasing order, exactly the indices below `n` outside `used`. */
  lemma {:induction false} UnusedExactly(used: set<nat>, n: nat)
    ensures forall i: nat | i < n :: i !in used <==> i in Unused(used, n)
    ensures forall m1, m2 | 0 <= m1 < m2 < |Unused(used, n)| :: Unused(used, n)[m1] < Unused(used, n)[m2]
  {
    if n > 0 {
      UnusedExactly(used, n - 1);
    }
  }

  /** The independent texts are, in input order, exactly the texts no barcode consumed; texts
      only weakly associated are among them. */
  lemma IndependentAreNeverConsumed(a: Analyzer, s: Scores, barcodes: seq<Detection>, texts: seq<Region>, i: nat)
    requires i < |texts|
    ensures var idx := Unused(Used(a, s, |texts|, |barcodes|), |texts|);
      && (i in idx <==> forall k: nat | k < |barcodes| :: i !in StrongFor(a, s, |texts|, k))
      && (forall m1, m2 | 0 <= m1 < m2 < |idx| :: idx[m1] < idx[m2])
  {
    UsedIsUnion(a, s, |texts|, |barcodes|, i);
    UnusedExactly(Used(a, s, |texts|, |barcodes|), |texts|);
  }

  /** Barcode `k` records exactly the texts not consumed before it that score at least the weak
      threshold, in text order. */
  lemma {:induction false} MatchedExactly(a: Analyzer, s: Scores, k: nat, used: set<nat>, n: nat)
    ensures forall i: nat | i < n :: (i in Matched(a, s, k, used, n) <==> i !in used && WeakHit(a, s(k, i)))
    ensures forall m1, m2 | 0 <= m1 < m2 < |Matched(a, s, k, used, n)| ::
      Matched(a, s, k, used, n)[m1] < Matched(a, s, k, used, n)[m2]
  {
    if n > 0 {
      MatchedExactly(a, s, k, used, n - 1);
    }
  }

  lemma ByScoreOrders(es: seq<Association>)
    ensures TotalOn(ByScoreDescending(), es) && TransitiveOn(ByScoreDescending(), es)
  {
  }

  /** Every record of barcode `k` scores at least the weak threshold and is `strong` exactly
      when it scores at least the strong one. */
  lemma EntriesShape(a: Analyzer, s: Scores, texts: seq<Region>, k: nat)
    ensures forall e | e in Entries(a, s, texts, k) ::
      e.score >= a.weak && (e.relation == "strong" <==> e.score >= a.strong)
  {
    var es := Entries(a, s, texts, k);
    forall e | e in es ensures e.score >= a.weak && (e.relation == "strong" <==> e.score >= a.strong) {
      var m :| 0 <= m < |es| && es[m] == e;
    }
  }

  /** Each barcode's `related_text`: a permutation of its records with non-increasing scores,
      every score at least the weak threshold, `strong` exactly for scores at least the strong
      threshold; `has_association` holds exactly when the list is non-empty. */
  lemma RelatedShape(a: Analyzer, s: Scores, barcodes: seq<Detection>, texts: seq<Region>, k: nat)
    requires k < |barcodes|
    ensures var r := ResultFor(a, s, barcodes, texts, k);
      && r.barcode == barcodes[k]
      && multiset(r.related) == multiset(Entries(a, s, texts, k))
      && (forall i, j | 0 <= i < j < |r.related| :: r.related[i].score >= r.related[j].score)
      && (forall e | e in r.related :: e.score >= a.weak && (e.relation == "strong" <==> e.score >= a.strong))
      && (r.hasAssociation <==> r.related != [])
    ensures var r := ResultFor(a, s, barcodes, texts, k);
      forall z | z in r.related ::
        Ties(ByScoreDescending(), r.related, z) == Ties(ByScoreDescending(), Entries(a, s, texts, k), z)
  {
    var es := Entries(a, s, texts, k);
    forall z | z in ResultFor(a, s, barcodes, texts, k).related
      ensures Ties(ByScoreDescending(), SortBy(ByScoreDescending(), es), z) == Ties(ByScoreDescending(), es, z)
    {
      ByScoreOrders([z] + es);
      SortByStable(ByScoreDescending(), es, z);
    }
    ByScoreOrders(es);
    SortBySorted(ByScoreDescending(), es);
    EntriesShape(a, s, texts, k);
    var rel := ResultFor(a, s, barcodes, texts, k).related;
    forall e | e in rel ensures e in es {
      assert e in multiset(rel);
    }
  }

  /** Barcode `k` consumes exactly the texts it records as `strong`. */
  lemma StrongRecordsAreConsumed(a: Analyzer, s: Scores, texts: seq<Region>, k: nat, i: nat)
    requires i < |texts|
    ensures i in StrongFor(a, s, |texts|, k) <==>
      i in Matched(a, s, k, Used(a, s, |texts|, k), |texts|) && s(k, i).value >= a.strong
  {
    MatchedExactly(a, s, k, Used(a, s, |texts|, k), |texts|);
  }

  /** One element of `create_groups`'s result. */
  datatype Group = Group(barcodeData: string, barcodeType: string, position: Box, relatedText: string, textCount: nat, strength: string)

  function TextsOf(related: seq<Association>): (ts: seq<string>)
    ensures |ts| == |related| && forall m | 0 <= m < |ts| :: ts[m] == related[m].text
  {
    seq(|related|, m requires 0 <= m < |related| => related[m].text)
  }

  /** The group built for one barcode result. */
  function GroupOf(r: BarcodeResult): (g: Group)
    ensures g.barcodeData == r.barcode.data && g.barcodeType == r.barcode.kind && g.position == r.barcode.position
    ensures g.relatedText == Join(" ", TextsOf(r.related)) && g.textCount == |r.related|
    ensures g.strength == "strong" <==> exists e | e in r.related :: e.relation == "strong"
    ensures g.strength == "weak" <==> forall e | e in r.related :: e.relation != "strong"
  {
    var strong := exists m | 0 <= m < |r.related| :: r.related[m].relation == "strong";
    Group(r.barcode.data, r.barcode.kind, r.barcode.position, Join(" ", TextsOf(r.related)), |r.related|,
          if strong then "strong" else "weak")
  }

  /** `create_groups`: one group per association result, in order. */
  method CreateGroups(associations: seq<BarcodeResult>) returns (groups: seq<Group>)
    ensures |groups| == |associations|
    ensures forall k | 0 <= k < |groups| :: groups[k] == GroupOf(associations[k])
  {
    groups := [];
    for k := 0 to |associations|
      invariant |groups| == k && forall m | 0 <= m < k :: groups[m] == GroupOf(associations[m])
    {
      groups := groups + [GroupOf(associations[k])];
    }
  }

  /** A group built from the analyzer's own result is `strong` exactly when its barcode consumed
      some text. */
  lemma GroupStrengthMatchesConsumption(a: Analyzer, s: Scores, barcodes: seq<Detection>, texts: seq<Region>, k: nat)
    requires k < |barcodes|
    ensures GroupOf(ResultFor(a, s, barcodes, texts, k)).strength == "strong" <==> StrongFor(a, s, |texts|, k) != {}
  {
    var idx := Matched(a, s, k, Used(a, s, |texts|, k), |texts|);
    var es := Entries(a, s, texts, k);
    var rel := ResultFor(a, s, barcodes, texts, k).related;
    assert multiset(rel) == multiset(es) by {
      RelatedShape(a, s, barcodes, texts, k);
    }
    if StrongFor(a, s, |texts|, k) != {} {
      assert exists e | e in rel :: e.relation == "strong" by {
        var i :| i in StrongFor(a, s, |texts|, k);
        StrongRecordsAreConsumed(a, s, texts, k, i);
        var m :| 0 <= m < |idx| && idx[m] == i;
        assert es[m] in multiset(rel);
        assert es[m].relation == "strong";
      }
    }
    if exists e | e in rel :: e.relation == "strong" {
      assert StrongFor(a, s, |texts|, k) != {} by {
        var e :| e in rel && e.relation == "strong";
        assert e in multiset(es);
        var m :| 0 <= m < |es| && es[m] == e;
        StrongRecordsAreConsumed(a, s, texts, k, idx[m]);
      }
    }
  }
}
