/** The aggregation engine: per-chunk score records in, one weighted report out. */
module Scoring {

  import opened Json
  import opened Seqs
  import opened Rounding
  import opened Weights
  import opened Ranking
  import opened LexOrder

  /** One per-chunk record. The code calls .get on "scores" and "rationales" without
      checking their type, so both are dictionaries here (an absent key reads as the
      empty dictionary, the default of item.get). An absent "red_flags" or "notes"
      reads as NullVal. */
  datatype Chunk = Chunk(
    scores: map<string, Value>,
    rationales: map<string, Value>,
    redFlags: Value,
    notes: Value)

  /** One entry of category_scores. */
  datatype CategoryDetail = CategoryDetail(score: real, weight: int, rationale: string)

  /** The dictionary returned by aggregate_chunk_results. category_scores keeps the
      table's order, as the Python dictionary does. */
  datatype Report = Report(
    overallScore: real,
    confidence: real,
    categoryScores: seq<(string, CategoryDetail)>,
    topStrengths: seq<(string, real)>,
    topRisks: seq<(string, real)>,
    redFlags: seq<string>,
    recommendations: seq<string>)

  const TopCount: nat := 3
  const MaxRecommendations: nat := 10

  // ---------------------------------------------------------------------------
  // Field-level validation

  /** isinstance(v, int) and 0 <= v <= 10. A Python bool is an int, so true and
      false are the scores 1 and 0; a float, a numeric string or an out-of-range
      integer is dropped, never coerced or clamped. */
  function ValidScore(v: Value): (r: Option<int>)
    ensures r.Some? <==> (v.IntVal? && 0 <= v.i <= 10) || v.BoolVal?
    ensures r.Some? ==> 0 <= r.value <= 10
    ensures v.IntVal? && r.Some? ==> r.value == v.i
    ensures v.BoolVal? ==> r == Some(if v.b then 1 else 0)
  {
    match v
    case IntVal(i) => if 0 <= i <= 10 then Some(i) else None
    case BoolVal(b) => Some(if b then 1 else 0)
    case _ => None
  }

  /** isinstance(r, str) and r: a non-empty string. */
  predicate IsRationale(v: Value)
  {
    v.StrVal? && v.s != ""
  }

  /** The valid score, if any, that one chunk gives a category. */
  function ChunkScore(c: Chunk, cat: string): seq<int>
  {
    match ValidScore(Get(c.scores, cat))
    case Some(n) => [n]
    case None => []
  }

  /** The rationale, if any, that one chunk gives a category. */
  function ChunkRationale(c: Chunk, cat: string): seq<string>
  {
    var r := Get(c.rationales, cat);
    if IsRationale(r) then [r.s] else []
  }

  /** per_cat[cat]: the valid scores given to cat, in chunk order. */
  function ValidScores(chunks: seq<Chunk>, cat: string): (r: seq<int>)
    ensures forall x | x in r :: 0 <= x <= 10
  {
    if chunks == [] then []
    else ValidScores(chunks[..|chunks| - 1], cat) + ChunkScore(chunks[|chunks| - 1], cat)
  }

  /** A category is left uncovered exactly when no chunk gives it a valid score. */
  lemma {:induction false} UncoveredIffNoValidScore(chunks: seq<Chunk>, cat: string)
    ensures ValidScores(chunks, cat) == [] <==>
      forall i | 0 <= i < |chunks| :: ValidScore(Get(chunks[i].scores, cat)).None?
  {
    if chunks != [] {
      var init := chunks[..|chunks| - 1];
      UncoveredIffNoValidScore(init, cat);
      assert forall i | 0 <= i < |init| :: init[i] == chunks[i];
    }
  }

  /** rationales[cat]: the non-empty string rationales given to cat, in chunk order. */
  function Rationales(chunks: seq<Chunk>, cat: string): (r: seq<string>)
    ensures forall s | s in r :: s != ""
  {
    if chunks == [] then []
    else Rationales(chunks[..|chunks| - 1], cat) + ChunkRationale(chunks[|chunks| - 1], cat)
  }

  /** The string elements of a list-typed field, in order; any other field gives nothing. */
  function StringsIn(items: seq<Value>): (r: seq<string>)
    ensures forall s :: s in r <==> StrVal(s) in items
  {
    if items == [] then []
    else
      var last := items[|items| - 1];
      assert items == items[..|items| - 1] + [last];
      StringsIn(items[..|items| - 1]) + (if last.StrVal? then [last.s] else [])
  }

  /** A list of strings only is kept whole, element for element, in order and with
      repeats. */
  lemma {:induction false} StringsOfStrings(items: seq<Value>)
    requires forall i | 0 <= i < |items| :: items[i].StrVal?
    ensures |StringsIn(items)| == |items|
    ensures forall i | 0 <= i < |items| :: StringsIn(items)[i] == items[i].s
  {
    if items != [] {
      StringsOfStrings(items[..|items| - 1]);
    }
  }

  /** Filtering a concatenation filters each part, so order and repeats are kept. */
  lemma {:induction false} StringsInConcat(a: seq<Value>, b: seq<Value>)
    ensures StringsIn(a + b) == StringsIn(a) + StringsIn(b)
  {
    if b != [] {
      var n := |b| - 1;
      StringsInConcat(a, b[..n]);
      assert (a + b)[..|a + b| - 1] == a + b[..n];
      assert (a + b)[|a + b| - 1] == b[n];
    } else {
      assert a + b == a;
    }
  }

  function ListStrings(v: Value): (r: seq<string>)
  {
    if v.ListVal? then StringsIn(v.items) else []
  }

  /** all_red_flags: the string red flags of every chunk, chunk after chunk. */
  function AllRedFlags(chunks: seq<Chunk>): seq<string>
  {
    if chunks == [] then []
    else AllRedFlags(chunks[..|chunks| - 1]) + ListStrings(chunks[|chunks| - 1].redFlags)
  }

  /** A string is collected as a red flag exactly when some chunk's red_flags field is a
      list holding it. */
  lemma {:induction false} RedFlagCollected(chunks: seq<Chunk>, s: string)
    ensures s in AllRedFlags(chunks) <==>
      exists i | 0 <= i < |chunks| :: chunks[i].redFlags.ListVal? && StrVal(s) in chunks[i].redFlags.items
  {
    if chunks != [] {
      var init := chunks[..|chunks| - 1];
      RedFlagCollected(init, s);
      assert forall i | 0 <= i < |init| :: init[i] == chunks[i];
    }
  }

  /** all_notes: the string notes of every chunk, chunk after chunk. */
  function AllNotes(chunks: seq<Chunk>): seq<string>
  {
    if chunks == [] then []
    else AllNotes(chunks[..|chunks| - 1]) + ListStrings(chunks[|chunks| - 1].notes)
  }

  // ---------------------------------------------------------------------------
  // Per-category results

  /** _avg: the arithmetic mean, or 0.0 for no values. */
  function Mean(xs: seq<int>): real
  {
    if |xs| == 0 then 0.0 else Sum(xs) as real / |xs| as real
  }

  lemma {:induction false} SumBounds(xs: seq<int>)
    requires forall x | x in xs :: 0 <= x <= 10
    ensures 0 <= Sum(xs) <= 10 * |xs|
  {
    if xs != [] {
      var init := xs[..|xs| - 1];
      assert forall x | x in init :: x in xs;
      assert xs[|xs| - 1] in xs;
      SumBounds(init);
    }
  }

  /** The mean of scores from 0..10 lies in [0, 10]. */
  lemma MeanBounds(xs: seq<int>)
    requires forall x | x in xs :: 0 <= x <= 10
    ensures 0.0 <= Mean(xs) <= 10.0
  {
    if |xs| > 0 {
      SumBounds(xs);
      var n := |xs| as real;
      assert Sum(xs) as real <= 10.0 * n;
      assert Sum(xs) as real / n <= 10.0 * n / n;
    }
  }

  /** The score of one category: round(_avg(per_cat[cat]), 2), always in [0, 10]. */
  function CategoryScore(chunks: seq<Chunk>, cat: string): (r: real)
    ensures 0.0 <= r <= 10.0
  {
    var xs := ValidScores(chunks, cat);
    MeanBounds(xs);
    Round2Between(Mean(xs), 0, 10);
    Round2(Mean(xs))
  }

  /** The representative rationale: the first non-empty string rationale, or "". */
  function FirstRationale(chunks: seq<Chunk>, cat: string): string
  {
    var rs := Rationales(chunks, cat);
    if rs != [] then rs[0] else ""
  }

  /** No rationale is collected for cat exactly when no chunk has a non-empty string
      rationale for it. */
  lemma {:induction false} NoRationaleIffNone(chunks: seq<Chunk>, cat: string)
    ensures Rationales(chunks, cat) == [] <==>
      forall i | 0 <= i < |chunks| :: !IsRationale(Get(chunks[i].rationales, cat))
  {
    if chunks != [] {
      var init := chunks[..|chunks| - 1];
      NoRationaleIffNone(init, cat);
      assert forall i | 0 <= i < |init| :: init[i] == chunks[i];
    }
  }

  /** The first collected rationale comes from the earliest chunk that has one. */
  lemma {:induction false} EarliestRationale(chunks: seq<Chunk>, cat: string)
    requires Rationales(chunks, cat) != []
    ensures exists i | 0 <= i < |chunks| ::
      && Get(chunks[i].rationales, cat) == StrVal(Rationales(chunks, cat)[0])
      && forall j | 0 <= j < i :: !IsRationale(Get(chunks[j].rationales, cat))
  {
    var n := |chunks| - 1;
    var init := chunks[..n];
    assert forall i | 0 <= i < n :: init[i] == chunks[i];
    if Rationales(init, cat) != [] {
      EarliestRationale(init, cat);
      var i :| 0 <= i < n
        && Get(init[i].rationales, cat) == StrVal(Rationales(init, cat)[0])
        && forall j | 0 <= j < i :: !IsRationale(Get(init[j].rationales, cat));
      assert Get(chunks[i].rationales, cat) == StrVal(Rationales(chunks, cat)[0]);
    } else {
      NoRationaleIffNone(init, cat);
      assert Get(chunks[n].rationales, cat) == StrVal(Rationales(chunks, cat)[0]);
    }
  }

  /** The rationale chosen for cat is "" exactly when no chunk has a non-empty string
      rationale for it; otherwise it is that of the earliest chunk that has one. */
  lemma FirstRationaleIsEarliest(chunks: seq<Chunk>, cat: string)
    ensures FirstRationale(chunks, cat) == "" <==>
      forall i | 0 <= i < |chunks| :: !IsRationale(Get(chunks[i].rationales, cat))
    ensures FirstRationale(chunks, cat) != "" ==>
      exists i | 0 <= i < |chunks| ::
        && Get(chunks[i].rationales, cat) == StrVal(FirstRationale(chunks, cat))
        && forall j | 0 <= j < i :: !IsRationale(Get(chunks[j].rationales, cat))
  {
    NoRationaleIffNone(chunks, cat);
    var rs := Rationales(chunks, cat);
    if rs != [] {
      assert rs[0] in rs;
      EarliestRationale(chunks, cat);
    }
  }

  /** The category scores in table order. */
  function CategoryScores(chunks: seq<Chunk>): (scores: seq<real>)
    ensures |scores| == |Table|
    ensures forall i | 0 <= i < |scores| :: 0.0 <= scores[i] <= 10.0
  {
    seq(|Table|, i requires 0 <= i < |Table| => CategoryScore(chunks, Table[i].0))
  }

  /** category_scores: score, weight and rationale of each category, in table order. */
  function CategoryDetails(chunks: seq<Chunk>): seq<(string, CategoryDetail)>
  {
    seq(|Table|, i requires 0 <= i < |Table| =>
      (Table[i].0, CategoryDetail(CategoryScore(chunks, Table[i].0), Table[i].1, FirstRationale(chunks, Table[i].0))))
  }

  // ---------------------------------------------------------------------------
  // Overall score

  /** Σ (score / 10.0) * weight over the table. */
  function WeightedSum(scores: seq<real>, weights: seq<int>): real
    requires |scores| == |weights|
  {
    if scores == [] then 0.0
    else
      var n := |scores| - 1;
      WeightedSum(scores[..n], weights[..n]) + (scores[n] / 10.0) * weights[n] as real
  }

  /** With non-negative weights and scores in [0, 10], the weighted sum lies between 0
      and the total weight. */
  lemma {:induction false} WeightedSumBounds(scores: seq<real>, weights: seq<int>)
    requires |scores| == |weights|
    requires forall i | 0 <= i < |scores| :: 0.0 <= scores[i] <= 10.0
    requires forall i | 0 <= i < |weights| :: weights[i] >= 0
    ensures 0.0 <= WeightedSum(scores, weights) <= Sum(weights) as real
  {
    if scores != [] {
      var n := |scores| - 1;
      WeightedSumBounds(scores[..n], weights[..n]);
      assert weights[..n] == weights[..|weights| - 1];
      assert Sum(weights) == Sum(weights[..n]) + weights[n];
      var w := weights[n] as real;
      var a := scores[n] / 10.0;
      assert WeightedSum(scores, weights) == WeightedSum(scores[..n], weights[..n]) + a * w;
      FractionOfWeight(a, w);
    }
  }

  lemma FractionOfWeight(a: real, w: real)
    requires 0.0 <= a <= 1.0 && 0.0 <= w
    ensures 0.0 <= a * w <= w
  {
    assert (1.0 - a) * w >= 0.0;
  }

  /** With every score equal to u, the weighted sum is u / 10 times the total weight. */
  lemma {:induction false} WeightedSumUniform(scores: seq<real>, weights: seq<int>, u: real)
    requires |scores| == |weights|
    requires forall i | 0 <= i < |scores| :: scores[i] == u
    ensures WeightedSum(scores, weights) == (u / 10.0) * Sum(weights) as real
  {
    if scores != [] {
      var n := |scores| - 1;
      WeightedSumUniform(scores[..n], weights[..n], u);
      assert weights[..n] == weights[..|weights| - 1];
    }
  }

  /** overall_score: round(weighted_sum / total_weight * 100, 2), or 0.0 for a table
      whose weights sum to 0. */
  function OverallScore(scores: seq<real>): real
    requires |scores| == |Table|
  {
    var weights := WeightList();
    var total := Sum(weights);
    if total != 0 then Round2(WeightedSum(scores, weights) / total as real * 100.0) else 0.0
  }

  /** With every category score in [0, 10], the overall score lies in [0, 100]. */
  lemma OverallScoreBounds(scores: seq<real>)
    requires |scores| == |Table|
    requires forall i | 0 <= i < |scores| :: 0.0 <= scores[i] <= 10.0
    ensures 0.0 <= OverallScore(scores) <= 100.0
  {
    WeightsSumTo100();
    WeightsPositive();
    var weights := WeightList();
    WeightedSumBounds(scores, weights);
    var ws := WeightedSum(scores, weights);
    assert 0.0 <= ws / 100.0 * 100.0 <= 100.0;
    Round2Between(ws / 100.0 * 100.0, 0, 100);
  }

  /** When every category scores u, the overall score is round(10 * u, 2). */
  lemma UniformOverall(scores: seq<real>, u: real)
    requires |scores| == |Table|
    requires forall i | 0 <= i < |scores| :: scores[i] == u
    ensures OverallScore(scores) == Round2(10.0 * u)
  {
    WeightsSumTo100();
    WeightedSumUniform(scores, WeightList(), u);
  }

  // ---------------------------------------------------------------------------
  // Confidence

  /** sum(1 for v in per_cat.values() if v), counted over the category names. */
  function CountCovered(perCat: map<string, seq<int>>, names: seq<string>): (r: nat)
    requires forall k | k in names :: k in perCat
    ensures r <= |names|
  {
    if names == [] then 0
    else
      var last := names[|names| - 1];
      CountCovered(perCat, names[..|names| - 1]) + (if perCat[last] != [] then 1 else 0)
  }

  /** per_cat after the collection loop. */
  function PerCategory(chunks: seq<Chunk>): map<string, seq<int>>
  {
    map k | k in RequiredKeys() :: ValidScores(chunks, k)
  }

  lemma PerCategoryCoversNames(chunks: seq<Chunk>)
    ensures forall k | k in Names() :: k in PerCategory(chunks) && PerCategory(chunks)[k] == ValidScores(chunks, k)
  {
  }

  /** confidence: round(covered / len(_REQUIRED_KEYS), 2), always in [0, 1]. */
  lemma CoveredAtMostKeys(chunks: seq<Chunk>)
    ensures forall k | k in Names() :: k in PerCategory(chunks)
    ensures CountCovered(PerCategory(chunks), Names()) <= |RequiredKeys()| == 10
  {
    PerCategoryCoversNames(chunks);
    RequiredKeysCount();
  }

  function Confidence(chunks: seq<Chunk>): (r: real)
    ensures 0.0 <= r <= 1.0
  {
    CoveredAtMostKeys(chunks);
    var covered := CountCovered(PerCategory(chunks), Names());
    var keyCount := |RequiredKeys()|;
    FractionBounds(covered, keyCount);
    Round2Between(covered as real / keyCount as real, 0, 1);
    Round2(covered as real / keyCount as real)
  }

  lemma FractionBounds(c: nat, d: nat)
    requires 0 < d && c <= d
    ensures 0.0 <= c as real / d as real <= 1.0
  {
    assert c as real <= d as real;
  }

  // ---------------------------------------------------------------------------
  // Rankings

  function Negated(scores: seq<real>): (keys: seq<real>)
    ensures |keys| == |scores|
    ensures forall i | 0 <= i < |scores| :: keys[i] == -scores[i]
  {
    seq(|scores|, i requires 0 <= i < |scores| => -scores[i])
  }

  /** Ranking by the negated score is ranking from the highest score down. */
  lemma RankedByNegation(scores: seq<real>, top: seq<nat>)
    requires InRange(top, |scores|)
    requires Ranked(top, Negated(scores))
    requires forall p, q | p in top && 0 <= q < |scores| && q !in top :: RankedBefore(Negated(scores), p, q)
    ensures forall i, j | 0 <= i < j < |top| ::
      scores[top[i]] > scores[top[j]] || (scores[top[i]] == scores[top[j]] && top[i] < top[j])
    ensures forall p, q | p in top && 0 <= q < |scores| && q !in top ::
      scores[p] > scores[q] || (scores[p] == scores[q] && p < q)
  {
    var keys := Negated(scores);
    forall i, j | 0 <= i < j < |top|
      ensures scores[top[i]] > scores[top[j]] || (scores[top[i]] == scores[top[j]] && top[i] < top[j])
    {
      assert RankedBefore(keys, top[i], top[j]);
    }
    forall p, q | p in top && 0 <= q < |scores| && q !in top
      ensures scores[p] > scores[q] || (scores[p] == scores[q] && p < q)
    {
      assert RankedBefore(keys, p, q);
    }
  }

  /** The table positions behind top_strengths: sorted(key = -score)[:3]. They run from the
      highest score down, equal scores in table order, and every position left out has a
      lower score, or the same score and a later table position. */
  function StrengthPositions(scores: seq<real>): (top: seq<nat>)
    ensures |top| == Min(TopCount, |scores|)
    ensures InRange(top, |scores|)
    ensures forall i, j | 0 <= i < j < |top| ::
      scores[top[i]] > scores[top[j]] || (scores[top[i]] == scores[top[j]] && top[i] < top[j])
    ensures forall p, q | p in top && 0 <= q < |scores| && q !in top ::
      scores[p] > scores[q] || (scores[p] == scores[q] && p < q)
  {
    var top := Top(Negated(scores), TopCount);
    RankedByNegation(scores, top);
    top
  }

  /** Ranking by the score itself is ranking from the lowest score up. */
  lemma RankedAscending(scores: seq<real>, top: seq<nat>)
    requires InRange(top, |scores|)
    requires Ranked(top, scores)
    requires forall p, q | p in top && 0 <= q < |scores| && q !in top :: RankedBefore(scores, p, q)
    ensures forall i, j | 0 <= i < j < |top| ::
      scores[top[i]] < scores[top[j]] || (scores[top[i]] == scores[top[j]] && top[i] < top[j])
    ensures forall p, q | p in top && 0 <= q < |scores| && q !in top ::
      scores[p] < scores[q] || (scores[p] == scores[q] && p < q)
  {
    forall i, j | 0 <= i < j < |top|
      ensures scores[top[i]] < scores[top[j]] || (scores[top[i]] == scores[top[j]] && top[i] < top[j])
    {
      assert RankedBefore(scores, top[i], top[j]);
    }
  }

  /** The table positions behind top_risks: sorted(key = score)[:3]. They run from the
      lowest score up, equal scores in table order, and every position left out has a
      higher score, or the same score and a later table position. */
  function RiskPositions(scores: seq<real>): (top: seq<nat>)
    ensures |top| == Min(TopCount, |scores|)
    ensures InRange(top, |scores|)
    ensures forall i, j | 0 <= i < j < |top| ::
      scores[top[i]] < scores[top[j]] || (scores[top[i]] == scores[top[j]] && top[i] < top[j])
    ensures forall p, q | p in top && 0 <= q < |scores| && q !in top ::
      scores[p] < scores[q] || (scores[p] == scores[q] && p < q)
  {
    var top := Top(scores, TopCount);
    RankedAscending(scores, top);
    top
  }

  /** When three categories score strictly more than all the others, top_strengths
      holds exactly those three. */
  lemma ThreeHighestAreStrengths(scores: seq<real>, T: set<nat>)
    requires |scores| >= TopCount && |T| == TopCount
    requires forall p | p in T :: p < |scores|
    requires forall p, q | p in T && 0 <= q < |scores| && q !in T :: scores[p] > scores[q]
    ensures (set p | p in StrengthPositions(scores)) == T
  {
    TopIsSeparatedSet(Negated(scores), TopCount, T);
  }

  /** When three categories score strictly less than all the others, top_risks
      holds exactly those three. */
  lemma ThreeLowestAreRisks(scores: seq<real>, T: set<nat>)
    requires |scores| >= TopCount && |T| == TopCount
    requires forall p | p in T :: p < |scores|
    requires forall p, q | p in T && 0 <= q < |scores| && q !in T :: scores[p] < scores[q]
    ensures (set p | p in RiskPositions(scores)) == T
  {
    TopIsSeparatedSet(scores, TopCount, T);
  }

  /** (category, score) pairs for a list of table positions. */
  function Labelled(scores: seq<real>, ps: seq<nat>): seq<(string, real)>
    requires |scores| == |Table| && InRange(ps, |scores|)
  {
    seq(|ps|, i requires 0 <= i < |ps| => (Table[ps[i]].0, scores[ps[i]]))
  }

  // ---------------------------------------------------------------------------
  // Findings

  /** red_flags: sorted(set(all_red_flags)). */
  function RedFlags(chunks: seq<Chunk>): (r: seq<string>)
    ensures StrictlySorted(r)
    ensures forall s :: s in r <==>
      exists i | 0 <= i < |chunks| :: chunks[i].redFlags.ListVal? && StrVal(s) in chunks[i].redFlags.items
  {
    forall s ensures s in AllRedFlags(chunks) <==>
      exists i | 0 <= i < |chunks| :: chunks[i].redFlags.ListVal? && StrVal(s) in chunks[i].redFlags.items
    {
      RedFlagCollected(chunks, s);
    }
    SortedSet(AllRedFlags(chunks))
  }

  /** recommendations: all_notes[:10]. */
  function Recommendations(chunks: seq<Chunk>): (r: seq<string>)
    ensures |r| == Min(MaxRecommendations, |AllNotes(chunks)|)
    ensures r == AllNotes(chunks)[..|r|]
  {
    var notes := AllNotes(chunks);
    notes[..Min(MaxRecommendations, |notes|)]
  }

  /** The report aggregate_chunk_results returns, stated field by field. */
  function Aggregated(chunks: seq<Chunk>): Report
  {
    var scores := CategoryScores(chunks);
    Report(
      OverallScore(scores),
      Confidence(chunks),
      CategoryDetails(chunks),
      Labelled(scores, StrengthPositions(scores)),
      Labelled(scores, RiskPositions(scores)),
      RedFlags(chunks),
      Recommendations(chunks))
  }

  // ---------------------------------------------------------------------------
  // aggregate_chunk_results

  lemma ChunkStep(chunks: seq<Chunk>, i: nat)
    requires i < |chunks|
    ensures chunks[..i + 1][..i] == chunks[..i]
    ensures chunks[..i + 1][i] == chunks[i]
  {
  }

  /** The body of the per-chunk loop for the category keys: appends this chunk's valid
      score and non-empty rationale, if any, to the lists of each key, and leaves every
      other entry alone. */
  method CollectChunk(item: Chunk, keys: seq<string>,
                      perCat: map<string, seq<int>>, rationales: map<string, seq<string>>)
    returns (perCat': map<string, seq<int>>, rationales': map<string, seq<string>>)
    requires Distinct(keys)
    requires forall q | 0 <= q < |keys| :: keys[q] in perCat && keys[q] in rationales
    ensures perCat'.Keys == perCat.Keys && rationales'.Keys == rationales.Keys
    ensures forall q | 0 <= q < |keys| :: perCat'[keys[q]] == perCat[keys[q]] + ChunkScore(item, keys[q])
    ensures forall q | 0 <= q < |keys| :: rationales'[keys[q]] == rationales[keys[q]] + ChunkRationale(item, keys[q])
    ensures forall k | k in perCat && k !in keys :: perCat'[k] == perCat[k]
    ensures forall k | k in rationales && k !in keys :: rationales'[k] == rationales[k]
  {
    perCat', rationales' := perCat, rationales;
    for j := 0 to |keys|
      invariant perCat'.Keys == perCat.Keys && rationales'.Keys == rationales.Keys
      invariant forall q | 0 <= q < j :: perCat'[keys[q]] == perCat[keys[q]] + ChunkScore(item, keys[q])
      invariant forall q | j <= q < |keys| :: perCat'[keys[q]] == perCat[keys[q]]
      invariant forall q | 0 <= q < j :: rationales'[keys[q]] == rationales[keys[q]] + ChunkRationale(item, keys[q])
      invariant forall q | j <= q < |keys| :: rationales'[keys[q]] == rationales[keys[q]]
      invariant forall k | k in perCat && k !in keys :: perCat'[k] == perCat[k]
      invariant forall k | k in rationales && k !in keys :: rationales'[k] == rationales[k]
    {
      var k := keys[j];
      var v := Get(item.scores, k);
      match ValidScore(v) {
        case Some(n) => perCat' := perCat'[k := perCat'[k] + [n]];
        case None =>
      }
      var r := Get(item.rationales, k);
      if IsRationale(r) {
        rationales' := rationales'[k := rationales'[k] + [r.s]];
      }
    }
  }

  /** Reading one more chunk appends its score and rationale for a category. */
  lemma CollectStep(chunks: seq<Chunk>, i: nat, k: string)
    requires i < |chunks|
    ensures ValidScores(chunks[..i + 1], k) == ValidScores(chunks[..i], k) + ChunkScore(chunks[i], k)
    ensures Rationales(chunks[..i + 1], k) == Rationales(chunks[..i], k) + ChunkRationale(chunks[i], k)
  {
    ChunkStep(chunks, i);
  }

  /** Reading one more chunk appends its string red flags and notes. */
  lemma FlagsStep(chunks: seq<Chunk>, i: nat)
    requires i < |chunks|
    ensures AllRedFlags(chunks[..i + 1]) == AllRedFlags(chunks[..i]) + ListStrings(chunks[i].redFlags)
    ensures AllNotes(chunks[..i + 1]) == AllNotes(chunks[..i]) + ListStrings(chunks[i].notes)
  {
    ChunkStep(chunks, i);
  }

  /** rationales after the collection loop. */
  function RationaleLists(chunks: seq<Chunk>): map<string, seq<string>>
  {
    map k | k in RequiredKeys() :: Rationales(chunks, k)
  }

  /** Two dictionaries keyed by the category names agree when they agree on every name. */
  lemma {:induction false} ByCategoryName<V>(m: map<string, V>, f: map<string, V>)
    requires m.Keys == RequiredKeys() && f.Keys == RequiredKeys()
    requires forall q | 0 <= q < |Names()| :: m[Names()[q]] == f[Names()[q]]
    ensures m == f
  {
    forall k | k in RequiredKeys() ensures m[k] == f[k] {
      var q :| 0 <= q < |Names()| && Names()[q] == k;
    }
  }

  /** The collection loop of aggregate_chunk_results over the category names keys:
      per_cat, rationales, all_red_flags and all_notes after every chunk has been read. */
  method CollectAll(chunks: seq<Chunk>, keys: seq<string>)
    returns (perCat: map<string, seq<int>>, rationales: map<string, seq<string>>,
             allRedFlags: seq<string>, allNotes: seq<string>)
    requires Distinct(keys)
    ensures perCat.Keys == (set k | k in keys) && rationales.Keys == (set k | k in keys)
    ensures forall q | 0 <= q < |keys| :: perCat[keys[q]] == ValidScores(chunks, keys[q])
    ensures forall q | 0 <= q < |keys| :: rationales[keys[q]] == Rationales(chunks, keys[q])
    ensures allRedFlags == AllRedFlags(chunks)
    ensures allNotes == AllNotes(chunks)
  {
    perCat := map k | k in keys :: [];
    rationales := map k | k in keys :: [];
    allRedFlags, allNotes := [], [];
    for i := 0 to |chunks|
      invariant perCat.Keys == (set k | k in keys) && rationales.Keys == (set k | k in keys)
      invariant forall q | 0 <= q < |keys| :: perCat[keys[q]] == ValidScores(chunks[..i], keys[q])
      invariant forall q | 0 <= q < |keys| :: rationales[keys[q]] == Rationales(chunks[..i], keys[q])
      invariant allRedFlags == AllRedFlags(chunks[..i])
      invariant allNotes == AllNotes(chunks[..i])
    {
      var item := chunks[i];
      // The source walks the set _REQUIRED_KEYS; each key is handled on its own,
      // so walking the names in table order gives the same dictionaries.
      var perCat', rationales' := CollectChunk(item, keys, perCat, rationales);
      forall q | 0 <= q < |keys|
        ensures perCat'[keys[q]] == ValidScores(chunks[..i + 1], keys[q])
        ensures rationales'[keys[q]] == Rationales(chunks[..i + 1], keys[q])
      {
        CollectStep(chunks, i, keys[q]);
      }
      perCat, rationales := perCat', rationales';
      FlagsStep(chunks, i);
      if item.redFlags.ListVal? {
        allRedFlags := allRedFlags + StringsIn(item.redFlags.items);
      }
      if item.notes.ListVal? {
        allNotes := allNotes + StringsIn(item.notes.items);
      }
    }
    assert chunks[..|chunks|] == chunks;
  }

  /** Collecting over the table's names gives per_cat and rationales as defined. */
  lemma CollectedByName(chunks: seq<Chunk>, perCat: map<string, seq<int>>, rationales: map<string, seq<string>>)
    requires perCat.Keys == (set k | k in Names()) && rationales.Keys == (set k | k in Names())
    requires forall q | 0 <= q < |Names()| :: perCat[Names()[q]] == ValidScores(chunks, Names()[q])
    requires forall q | 0 <= q < |Names()| :: rationales[Names()[q]] == Rationales(chunks, Names()[q])
    ensures perCat == PerCategory(chunks) && rationales == RationaleLists(chunks)
  {
    ByCategoryName(perCat, PerCategory(chunks));
    ByCategoryName(rationales, RationaleLists(chunks));
  }

  lemma WeightedSumStep(scores: seq<real>, weights: seq<int>, s: real, w: int)
    requires |scores| == |weights|
    ensures WeightedSum(scores + [s], weights + [w]) == WeightedSum(scores, weights) + (s / 10.0) * w as real
  {
    assert (scores + [s])[..|scores|] == scores;
    assert (weights + [w])[..|weights|] == weights;
  }

  /** The rationale reported for a category: the first collected one, or "". */
  function Representative(rs: seq<string>): string
  {
    if rs != [] then rs[0] else ""
  }

  /** The loop over SCORING_WEIGHTS: for each (category, weight) of table, in order, the
      rounded mean score and representative rationale go into category_scores, the
      score times the weight over 10 into the weighted sum, and the weight into the total. */
  method WeighCategories(table: seq<(string, int)>, weights: seq<int>,
                         perCat: map<string, seq<int>>, rationales: map<string, seq<string>>)
    returns (categoryScores: seq<(string, CategoryDetail)>, scores: seq<real>,
             weightedSum: real, totalWeight: int)
    requires |weights| == |table| && forall q | 0 <= q < |table| :: weights[q] == table[q].1
    requires forall q | 0 <= q < |table| :: table[q].0 in perCat && table[q].0 in rationales
    ensures |categoryScores| == |table| && |scores| == |table|
    ensures forall q | 0 <= q < |table| :: scores[q] == Round2(Mean(perCat[table[q].0]))
    ensures forall q | 0 <= q < |table| ::
      categoryScores[q] == (table[q].0, CategoryDetail(scores[q], table[q].1, Representative(rationales[table[q].0])))
    ensures weightedSum == WeightedSum(scores, weights)
    ensures totalWeight == Sum(weights)
  {
    categoryScores, scores := [], [];
    weightedSum, totalWeight := 0.0, 0;
    for j := 0 to |table|
      invariant |categoryScores| == j && |scores| == j
      invariant forall q | 0 <= q < j :: scores[q] == Round2(Mean(perCat[table[q].0]))
      invariant forall q | 0 <= q < j ::
        categoryScores[q] == (table[q].0, CategoryDetail(scores[q], table[q].1, Representative(rationales[table[q].0])))
      invariant weightedSum == WeightedSum(scores, weights[..j])
      invariant totalWeight == Sum(weights[..j])
    {
      var (cat, weight) := table[j];
      var s10 := Round2(Mean(perCat[cat]));
      var rationale := if rationales[cat] != [] then rationales[cat][0] else "";
      WeightedSumStep(scores, weights[..j], s10, weight);
      assert weights[..j + 1] == weights[..j] + [weight];
      SumStep(weights, j + 1);
      categoryScores := categoryScores + [(cat, CategoryDetail(s10, weight, rationale))];
      weightedSum := weightedSum + (s10 / 10.0) * weight as real;
      totalWeight := totalWeight + weight;
      scores := scores + [s10];
    }
    assert weights[..|table|] == weights;
  }

  /** Weighing the collected dictionaries over SCORING_WEIGHTS gives the category scores
      and details as defined. */
  lemma WeighedTable(chunks: seq<Chunk>, categoryScores: seq<(string, CategoryDetail)>, scores: seq<real>)
    requires |categoryScores| == |Table| && |scores| == |Table|
    requires forall q | 0 <= q < |Table| :: scores[q] == Round2(Mean(PerCategory(chunks)[Table[q].0]))
    requires forall q | 0 <= q < |Table| ::
      categoryScores[q] == (Table[q].0, CategoryDetail(scores[q], Table[q].1, Representative(RationaleLists(chunks)[Table[q].0])))
    ensures scores == CategoryScores(chunks)
    ensures categoryScores == CategoryDetails(chunks)
  {
    forall q | 0 <= q < |Table|
      ensures scores[q] == CategoryScores(chunks)[q]
      ensures categoryScores[q] == CategoryDetails(chunks)[q]
    {
      assert Table[q].0 in Names();
    }
  }

  /** The overall score from an accumulated weighted sum and total weight. */
  lemma OverallFromSums(scores: seq<real>, weightedSum: real, totalWeight: int)
    requires |scores| == |Table|
    requires weightedSum == WeightedSum(scores, WeightList())
    requires totalWeight == Sum(WeightList())
    ensures OverallScore(scores) ==
      if totalWeight != 0 then Round2(weightedSum / totalWeight as real * 100.0) else 0.0
  {
  }

  /** The report assembled from the collected lists and the weighed scores. */
  lemma AggregatedFrom(chunks: seq<Chunk>, scores: seq<real>, overall: real,
                       allRedFlags: seq<string>, allNotes: seq<string>)
    requires scores == CategoryScores(chunks)
    requires overall == OverallScore(scores)
    requires allRedFlags == AllRedFlags(chunks) && allNotes == AllNotes(chunks)
    ensures Aggregated(chunks) ==
      Report(overall, Confidence(chunks), CategoryDetails(chunks),
             Labelled(scores, StrengthPositions(scores)), Labelled(scores, RiskPositions(scores)),
             SortedSet(allRedFlags), allNotes[..Min(MaxRecommendations, |allNotes|)])
  {
  }

  /** Whatever the chunks hold, the overall score lies in [0, 100], the confidence in
      [0, 1], there are three strengths and three risks, at most ten recommendations, and
      the red flags are sorted without repeats. */
  lemma AggregatedBounds(chunks: seq<Chunk>)
    ensures 0.0 <= Aggregated(chunks).overallScore <= 100.0
    ensures 0.0 <= Aggregated(chunks).confidence <= 1.0
    ensures |Aggregated(chunks).topStrengths| == TopCount && |Aggregated(chunks).topRisks| == TopCount
    ensures |Aggregated(chunks).recommendations| <= MaxRecommendations
    ensures StrictlySorted(Aggregated(chunks).redFlags)
  {
    OverallScoreBounds(CategoryScores(chunks));
  }

  /** aggregate_chunk_results: collects, then walks the weight table once, accumulating
      the weighted sum, and finally ranks and trims. The result is the report Aggregated
      describes, so AggregatedBounds holds of it. */
  method Aggregate(chunks: seq<Chunk>) returns (report: Report)
    ensures report == Aggregated(chunks)
  {
    RequiredKeysCount();
    var perCat, rationales, allRedFlags, allNotes := CollectAll(chunks, Names());
    CollectedByName(chunks, perCat, rationales);

    var categoryScores, scores, weightedSum, totalWeight :=
      WeighCategories(Table, WeightList(), perCat, rationales);
    WeighedTable(chunks, categoryScores, scores);

    var overall := if totalWeight != 0 then Round2(weightedSum / totalWeight as real * 100.0) else 0.0;
    OverallFromSums(scores, weightedSum, totalWeight);
    var covered := CountCovered(perCat, Names());
    var confidence := Round2(covered as real / |RequiredKeys()| as real);
    var strengths := Labelled(scores, StrengthPositions(scores));
    var risks := Labelled(scores, RiskPositions(scores));
    var recommendations := allNotes[..Min(MaxRecommendations, |allNotes|)];
    report := Report(overall, confidence, categoryScores, strengths, risks,
                     SortedSet(allRedFlags), recommendations);
    AggregatedFrom(chunks, scores, overall, allRedFlags, allNotes);
  }
}
