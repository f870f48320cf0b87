/** Properties of the aggregated report that relate several inputs or pin down the
    cases the scoring tests single out: chunk order does not matter, confidence is the
    covered share of the categories, and two uniform chunks average as expected. */
module ReportProperties {

  import opened Json
  import opened Seqs
  import opened Rounding
  import opened Weights
  import opened LexOrder
  import opened Ranking
  import opened Scoring

  // ---------------------------------------------------------------------------
  // Chunk order

  lemma {:induction false} ValidScoresConcat(a: seq<Chunk>, b: seq<Chunk>, cat: string)
    ensures ValidScores(a + b, cat) == ValidScores(a, cat) + ValidScores(b, cat)
  {
    if b != [] {
      var n := |b| - 1;
      ValidScoresConcat(a, b[..n], cat);
      assert (a + b)[..|a + b| - 1] == a + b[..n];
      assert (a + b)[|a + b| - 1] == b[n];
    } else {
      assert a + b == a;
    }
  }

  /** Taking out the chunk at position j takes its score out of the valid scores. */
  lemma ValidScoresRemove(ys: seq<Chunk>, j: nat, cat: string)
    requires j < |ys|
    ensures multiset(ValidScores(ys, cat)) ==
      multiset(ValidScores(ys[..j] + ys[j + 1..], cat)) + multiset(ChunkScore(ys[j], cat))
  {
    assert ys == ys[..j] + [ys[j]] + ys[j + 1..];
    ValidScoresConcat(ys[..j] + [ys[j]], ys[j + 1..], cat);
    ValidScoresConcat(ys[..j], [ys[j]], cat);
    ValidScoresConcat(ys[..j], ys[j + 1..], cat);
    assert ValidScores([ys[j]], cat) == ChunkScore(ys[j], cat) by {
      assert [ys[j]][..0] == [];
    }
  }

  lemma MultisetRemove<T>(ys: seq<T>, j: nat)
    requires j < |ys|
    ensures multiset(ys[..j] + ys[j + 1..]) == multiset(ys) - multiset{ys[j]}
  {
    assert ys == ys[..j] + [ys[j]] + ys[j + 1..];
  }

  /** Reordering the chunks reorders the valid scores of a category and nothing more. */
  lemma {:induction false} ValidScoresPermutation(xs: seq<Chunk>, ys: seq<Chunk>, cat: string)
    requires multiset(xs) == multiset(ys)
    ensures multiset(ValidScores(xs, cat)) == multiset(ValidScores(ys, cat))
  {
    if xs != [] {
      var n := |xs| - 1;
      var x := xs[n];
      assert x in multiset(ys) by {
        assert x in multiset(xs);
      }
      var j :| 0 <= j < |ys| && ys[j] == x;
      MultisetRemove(xs, n);
      MultisetRemove(ys, j);
      assert xs[..n] + xs[n + 1..] == xs[..n];
      ValidScoresPermutation(xs[..n], ys[..j] + ys[j + 1..], cat);
      ValidScoresRemove(ys, j, cat);
    } else {
      assert |ys| == |multiset(ys)| == 0;
    }
  }

  /** A category's score does not depend on the order of the chunks. */
  lemma CategoryScoreOrderFree(xs: seq<Chunk>, ys: seq<Chunk>, cat: string)
    requires multiset(xs) == multiset(ys)
    ensures CategoryScore(xs, cat) == CategoryScore(ys, cat)
  {
    var vx, vy := ValidScores(xs, cat), ValidScores(ys, cat);
    ValidScoresPermutation(xs, ys, cat);
    SumPermutation(vx, vy);
    assert |vx| == |multiset(vx)| == |multiset(vy)| == |vy|;
  }

  /** Neither the category scores nor the overall score depend on the order of the chunks. */
  lemma ScoresOrderFree(xs: seq<Chunk>, ys: seq<Chunk>)
    requires multiset(xs) == multiset(ys)
    ensures CategoryScores(xs) == CategoryScores(ys)
    ensures Aggregated(xs).overallScore == Aggregated(ys).overallScore
  {
    forall i | 0 <= i < |Table|
      ensures CategoryScores(xs)[i] == CategoryScores(ys)[i]
    {
      CategoryScoreOrderFree(xs, ys, Table[i].0);
    }
  }

  /** Some chunk holds s in a list-typed red_flags field. */
  predicate FlaggedBy(chunks: seq<Chunk>, s: string)
  {
    exists i | 0 <= i < |chunks| :: chunks[i].redFlags.ListVal? && StrVal(s) in chunks[i].redFlags.items
  }

  lemma FlaggedBySameChunks(xs: seq<Chunk>, ys: seq<Chunk>, s: string)
    requires multiset(xs) == multiset(ys)
    requires FlaggedBy(xs, s)
    ensures FlaggedBy(ys, s)
  {
    var i :| 0 <= i < |xs| && xs[i].redFlags.ListVal? && StrVal(s) in xs[i].redFlags.items;
    assert xs[i] in multiset(ys);
    var j :| 0 <= j < |ys| && ys[j] == xs[i];
  }

  /** The red flags do not depend on the order of the chunks. */
  lemma RedFlagsOrderFree(xs: seq<Chunk>, ys: seq<Chunk>)
    requires multiset(xs) == multiset(ys)
    ensures RedFlags(xs) == RedFlags(ys)
  {
    forall s ensures s in RedFlags(xs) <==> s in RedFlags(ys) {
      if FlaggedBy(xs, s) {
        FlaggedBySameChunks(xs, ys, s);
      }
      if FlaggedBy(ys, s) {
        FlaggedBySameChunks(ys, xs, s);
      }
    }
    StrictlySortedUnique(RedFlags(xs), RedFlags(ys));
  }

  /** Notes are gathered chunk after chunk: those of a concatenation are those of the
      first part followed by those of the second. */
  lemma {:induction false} NotesConcat(a: seq<Chunk>, b: seq<Chunk>)
    ensures AllNotes(a + b) == AllNotes(a) + AllNotes(b)
  {
    if b != [] {
      var n := |b| - 1;
      NotesConcat(a, b[..n]);
      assert (a + b)[..|a + b| - 1] == a + b[..n];
      assert (a + b)[|a + b| - 1] == b[n];
    } else {
      assert a + b == a;
    }
  }

  // ---------------------------------------------------------------------------
  // Coverage and confidence

  /** The categories among names whose list of valid scores is not empty. */
  function CoveredSet(perCat: map<string, seq<int>>, names: seq<string>): set<string>
    requires forall k | k in names :: k in perCat
  {
    set k | k in names && perCat[k] != []
  }

  /** CountCovered counts the covered categories, each once. */
  lemma {:induction false} CountCoveredIsCard(perCat: map<string, seq<int>>, names: seq<string>)
    requires Distinct(names)
    requires forall k | k in names :: k in perCat
    ensures CountCovered(perCat, names) == |CoveredSet(perCat, names)|
  {
    if names != [] {
      var init := names[..|names| - 1];
      var last := names[|names| - 1];
      assert names == init + [last];
      assert Distinct(init);
      CountCoveredIsCard(perCat, init);
      assert last !in init;
      if perCat[last] != [] {
        assert CoveredSet(perCat, names) == CoveredSet(perCat, init) + {last};
      } else {
        assert CoveredSet(perCat, names) == CoveredSet(perCat, init);
      }
    }
  }

  /** The categories that some chunk gives a valid score. */
  function CoveredCategories(chunks: seq<Chunk>): set<string>
  {
    set k | k in RequiredKeys() && ValidScores(chunks, k) != []
  }

  /** confidence is the share of categories with at least one valid score, rounded to
      two places. */
  lemma ConfidenceIsCoverage(chunks: seq<Chunk>)
    ensures Confidence(chunks) == Round2(|CoveredCategories(chunks)| as real / 10.0)
  {
    CoveredCount(chunks);
    RequiredKeysCount();
  }

  /** The coverage sum counts the covered categories. */
  lemma CoveredCount(chunks: seq<Chunk>)
    ensures forall k | k in Names() :: k in PerCategory(chunks)
    ensures CountCovered(PerCategory(chunks), Names()) == |CoveredCategories(chunks)|
  {
    RequiredKeysCount();
    PerCategoryCoversNames(chunks);
    CountCoveredIsCard(PerCategory(chunks), Names());
    CoveredSetIsCategories(chunks);
  }

  lemma CoveredSetIsCategories(chunks: seq<Chunk>)
    requires forall k | k in Names() :: k in PerCategory(chunks)
    ensures CoveredSet(PerCategory(chunks), Names()) == CoveredCategories(chunks)
  {
    PerCategoryCoversNames(chunks);
  }

  /** When every category but one is covered, confidence is 0.9. */
  lemma OneUncoveredConfidence(chunks: seq<Chunk>, missing: string)
    requires missing in RequiredKeys()
    requires CoveredCategories(chunks) == RequiredKeys() - {missing}
    ensures Confidence(chunks) == 0.9
  {
    RequiredKeysCount();
    ConfidenceIsCoverage(chunks);
    Round2Exact(90);
  }

  // ---------------------------------------------------------------------------
  // Two uniform chunks

  /** The valid scores of two chunks that score a category 6 and 8. */
  lemma TwoChunkScores(c1: Chunk, c2: Chunk, cat: string)
    requires Get(c1.scores, cat) == IntVal(6) && Get(c2.scores, cat) == IntVal(8)
    ensures ValidScores([c1, c2], cat) == [6, 8]
  {
    assert [c1, c2][..1] == [c1];
    assert [c1][..0] == [];
    assert ValidScores([c1], cat) == [6];
    assert ChunkScore(c2, cat) == [8];
  }

  /** A category that two chunks score 6 and 8 scores 7.0. */
  lemma SixAndEightCategory(c1: Chunk, c2: Chunk, cat: string)
    requires Get(c1.scores, cat) == IntVal(6) && Get(c2.scores, cat) == IntVal(8)
    ensures CategoryScore([c1, c2], cat) == 7.0
  {
    TwoChunkScores(c1, c2, cat);
    assert Sum([6, 8]) == 14 by {
      assert [6, 8][..1] == [6];
      assert [6][..0] == [];
    }
    assert Mean([6, 8]) == 7.0;
    Round2Exact(700);
  }

  /** Two chunks scoring every category 6 and 8 give 7.0 per category. */
  lemma SixAndEightAverageToSeven(c1: Chunk, c2: Chunk)
    requires forall k | k in RequiredKeys() :: Get(c1.scores, k) == IntVal(6) && Get(c2.scores, k) == IntVal(8)
    ensures forall i | 0 <= i < |Table| :: CategoryScores([c1, c2])[i] == 7.0
  {
    forall i | 0 <= i < |Table|
      ensures CategoryScores([c1, c2])[i] == 7.0
    {
      assert Table[i].0 in Names();
      SixAndEightCategory(c1, c2, Table[i].0);
    }
  }

  /** ... and an overall score of 70.0, the weighted formula at 7. */
  lemma SixAndEightOverall(c1: Chunk, c2: Chunk)
    requires forall k | k in RequiredKeys() :: Get(c1.scores, k) == IntVal(6) && Get(c2.scores, k) == IntVal(8)
    ensures Aggregated([c1, c2]).overallScore == 70.0
  {
    SixAndEightAverageToSeven(c1, c2);
    UniformOverall(CategoryScores([c1, c2]), 7.0);
    Round2Exact(7000);
  }

  /** When every category is covered, confidence is 1.0. */
  lemma FullCoverageConfidence(chunks: seq<Chunk>)
    requires forall k | k in RequiredKeys() :: ValidScores(chunks, k) != []
    ensures Confidence(chunks) == 1.0
  {
    ConfidenceIsCoverage(chunks);
    assert CoveredCategories(chunks) == RequiredKeys();
    RequiredKeysCount();
    assert |CoveredCategories(chunks)| as real / 10.0 == 100 as real / 100.0;
    Round2Exact(100);
  }

  /** ... and full confidence, every category being covered. */
  lemma SixAndEightConfidence(c1: Chunk, c2: Chunk)
    requires forall k | k in RequiredKeys() :: Get(c1.scores, k) == IntVal(6) && Get(c2.scores, k) == IntVal(8)
    ensures Aggregated([c1, c2]).confidence == 1.0
  {
    forall k | k in RequiredKeys() ensures ValidScores([c1, c2], k) != [] {
      TwoChunkScores(c1, c2, k);
    }
    FullCoverageConfidence([c1, c2]);
  }

  // ---------------------------------------------------------------------------
  // The ranked lists

  /** The pairs for the positions top: the category at each position and its score. */
  lemma LabelledAt(scores: seq<real>, top: seq<nat>)
    requires |scores| == |Table| && InRange(top, |scores|)
    ensures |Labelled(scores, top)| == |top|
    ensures forall i | 0 <= i < |top| :: Labelled(scores, top)[i] == (Table[top[i]].0, scores[top[i]])
  {
  }

  lemma ReportRankings(chunks: seq<Chunk>)
    ensures Aggregated(chunks).topStrengths
      == Labelled(CategoryScores(chunks), StrengthPositions(CategoryScores(chunks)))
    ensures Aggregated(chunks).topRisks
      == Labelled(CategoryScores(chunks), RiskPositions(CategoryScores(chunks)))
  {
  }

  /** The positions a ranking picked, labelled, name their categories with their scores;
      a category whose name is not among the labels was not picked. */
  lemma LabelsOfPositions(chunks: seq<Chunk>, top: seq<nat>)
    requires InRange(top, |Table|)
    ensures var r := Labelled(CategoryScores(chunks), top);
      && |r| == |top|
      && (forall i | 0 <= i < |r| :: r[i].0 in Names() && r[i].1 == CategoryScore(chunks, r[i].0))
      && (forall i | 0 <= i < |r| :: r[i].1 == CategoryScores(chunks)[top[i]])
      && (forall p | 0 <= p < |Table| && (forall i | 0 <= i < |r| :: r[i].0 != Table[p].0) :: p !in top)
  {
    var scores := CategoryScores(chunks);
    LabelledAt(scores, top);
    forall i | 0 <= i < |top|
      ensures Names()[top[i]] == Table[top[i]].0
    {
    }
  }

  /** Every pair names a category and carries that category's own score. */
  predicate LabelsScored(chunks: seq<Chunk>, r: seq<(string, real)>)
  {
    forall i | 0 <= i < |r| :: r[i].0 in Names() && r[i].1 == CategoryScore(chunks, r[i].0)
  }

  predicate NonIncreasing(r: seq<(string, real)>)
  {
    forall i, j | 0 <= i < j < |r| :: r[i].1 >= r[j].1
  }

  predicate NonDecreasing(r: seq<(string, real)>)
  {
    forall i, j | 0 <= i < j < |r| :: r[i].1 <= r[j].1
  }

  /** No category missing from r scores more than a category in r. */
  predicate NoneLeftOutHigher(chunks: seq<Chunk>, r: seq<(string, real)>)
  {
    forall p | 0 <= p < |Table| && (forall i | 0 <= i < |r| :: r[i].0 != Table[p].0) ::
      forall i | 0 <= i < |r| :: CategoryScore(chunks, Table[p].0) <= r[i].1
  }

  /** No category missing from r scores less than a category in r. */
  predicate NoneLeftOutLower(chunks: seq<Chunk>, r: seq<(string, real)>)
  {
    forall p | 0 <= p < |Table| && (forall i | 0 <= i < |r| :: r[i].0 != Table[p].0) ::
      forall i | 0 <= i < |r| :: CategoryScore(chunks, Table[p].0) >= r[i].1
  }

  lemma StrengthsRanked(chunks: seq<Chunk>)
    ensures var r := Labelled(CategoryScores(chunks), StrengthPositions(CategoryScores(chunks)));
      |r| == TopCount && LabelsScored(chunks, r) && NonIncreasing(r)
  {
    var scores := CategoryScores(chunks);
    var top := StrengthPositions(scores);
    var r := Labelled(scores, top);
    LabelsOfPositions(chunks, top);
    forall i, j | 0 <= i < j < |r|
      ensures r[i].1 >= r[j].1
    {
    }
  }

  lemma StrengthsLeftOut(chunks: seq<Chunk>)
    ensures NoneLeftOutHigher(chunks, Labelled(CategoryScores(chunks), StrengthPositions(CategoryScores(chunks))))
  {
    var scores := CategoryScores(chunks);
    var top := StrengthPositions(scores);
    var r := Labelled(scores, top);
    LabelsOfPositions(chunks, top);
    forall p | 0 <= p < |Table| && (forall i | 0 <= i < |r| :: r[i].0 != Table[p].0)
      ensures forall i | 0 <= i < |r| :: CategoryScore(chunks, Table[p].0) <= r[i].1
    {
      assert p !in top;
      assert scores[p] == CategoryScore(chunks, Table[p].0);
      forall i | 0 <= i < |r|
        ensures scores[p] <= r[i].1
      {
        assert top[i] in top;
      }
    }
  }

  lemma RisksRanked(chunks: seq<Chunk>)
    ensures var r := Labelled(CategoryScores(chunks), RiskPositions(CategoryScores(chunks)));
      |r| == TopCount && LabelsScored(chunks, r) && NonDecreasing(r)
  {
    var scores := CategoryScores(chunks);
    var top := RiskPositions(scores);
    var r := Labelled(scores, top);
    LabelsOfPositions(chunks, top);
    forall i, j | 0 <= i < j < |r|
      ensures r[i].1 <= r[j].1
    {
    }
  }

  lemma RisksLeftOut(chunks: seq<Chunk>)
    ensures NoneLeftOutLower(chunks, Labelled(CategoryScores(chunks), RiskPositions(CategoryScores(chunks))))
  {
    var scores := CategoryScores(chunks);
    var top := RiskPositions(scores);
    var r := Labelled(scores, top);
    LabelsOfPositions(chunks, top);
    forall p | 0 <= p < |Table| && (forall i | 0 <= i < |r| :: r[i].0 != Table[p].0)
      ensures forall i | 0 <= i < |r| :: CategoryScore(chunks, Table[p].0) >= r[i].1
    {
      assert p !in top;
      assert scores[p] == CategoryScore(chunks, Table[p].0);
      forall i | 0 <= i < |r|
        ensures scores[p] >= r[i].1
      {
        assert top[i] in top;
      }
    }
  }

  /** top_strengths: three categories, each paired with its own score, from the highest
      score down, and no category left out of the list scores higher than any in it. */
  lemma StrengthsOfReport(chunks: seq<Chunk>)
    ensures var r := Aggregated(chunks).topStrengths;
      |r| == TopCount && LabelsScored(chunks, r) && NonIncreasing(r) && NoneLeftOutHigher(chunks, r)
  {
    ReportRankings(chunks);
    StrengthsRanked(chunks);
    StrengthsLeftOut(chunks);
  }

  /** top_risks: three categories, each paired with its own score, from the lowest score
      up, and no category left out of the list scores lower than any in it. */
  lemma RisksOfReport(chunks: seq<Chunk>)
    ensures var r := Aggregated(chunks).topRisks;
      |r| == TopCount && LabelsScored(chunks, r) && NonDecreasing(r) && NoneLeftOutLower(chunks, r)
  {
    ReportRankings(chunks);
    RisksRanked(chunks);
    RisksLeftOut(chunks);
  }

  // ---------------------------------------------------------------------------
  // Red flags and recommendations

  /** A JSON list holding exactly the strings ns, in order. */
  function StrList(ns: seq<string>): Value
  {
    ListVal(seq(|ns|, i requires 0 <= i < |ns| => StrVal(ns[i])))
  }

  /** A chunk whose notes are the strings ns contributes all of them, in order and with
      repeats. */
  lemma ChunkNotes(c: Chunk, ns: seq<string>)
    requires c.notes == StrList(ns)
    ensures AllNotes([c]) == ns
  {
    assert [c][..0] == [];
    StringsOfStrings(c.notes.items);
  }

  /** Two chunks' notes are recommended in chunk order, the first ten at most. */
  lemma TwoChunkRecommendations(c1: Chunk, c2: Chunk, n1: seq<string>, n2: seq<string>)
    requires c1.notes == StrList(n1) && c2.notes == StrList(n2)
    ensures Recommendations([c1, c2]) == (n1 + n2)[..Min(MaxRecommendations, |n1| + |n2|)]
  {
    ChunkNotes(c1, n1);
    ChunkNotes(c2, n2);
    NotesConcat([c1], [c2]);
    assert [c1] + [c2] == [c1, c2];
  }

  /** One chunk with twelve notes is recommended exactly its first ten. */
  lemma TwelveNotesGiveFirstTen(c: Chunk, ns: seq<string>)
    requires |ns| == 12 && c.notes == StrList(ns)
    ensures |Recommendations([c])| == 10 && Recommendations([c]) == ns[..10]
  {
    ChunkNotes(c, ns);
  }

  /** A red flag listed twice is reported once: ["a", "a", "b"] gives ["a", "b"]. */
  lemma RepeatedFlagReportedOnce(c: Chunk)
    requires c.redFlags == StrList(["a", "a", "b"])
    ensures RedFlags([c]) == ["a", "b"]
  {
    var items := c.redFlags.items;
    assert items == [StrVal("a"), StrVal("a"), StrVal("b")];
    forall y
      ensures y in RedFlags([c]) <==> y in ["a", "b"]
    {
      assert StrVal(y) in items <==> y == "a" || y == "b";
    }
    assert LexLess("a", "b");
    StrictlySortedUnique(RedFlags([c]), ["a", "b"]);
  }
}
