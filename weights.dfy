/** The fixed table of scoring categories and their integer weights (SCORING_WEIGHTS). */
module Weights {

  import opened Seqs

  /** The categories in the table's own order; that order is the tie-break order of the rankings. */
  const Table: seq<(string, int)> := [
    ("lawful_basis_and_purpose", 12),
    ("collection_and_minimization", 10),
    ("secondary_use_and_limits", 8),
    ("retention_and_deletion", 8),
    ("third_parties_and_processors", 12),
    ("cross_border_transfers", 8),
    ("user_rights_and_redress", 14),
    ("security_and_breach", 12),
    ("transparency_and_notice", 8),
    ("sensitive_children_ads_profiling", 8)
  ]

  /** The category names, in table order. */
  function Names(): (ns: seq<string>)
    ensures |ns| == |Table|
    ensures forall i | 0 <= i < |Table| :: ns[i] == Table[i].0
  {
    seq(|Table|, i requires 0 <= i < |Table| => Table[i].0)
  }

  /** The weights, in table order. */
  function WeightList(): (ws: seq<int>)
    ensures |ws| == |Table|
    ensures forall i | 0 <= i < |Table| :: ws[i] == Table[i].1
  {
    seq(|Table|, i requires 0 <= i < |Table| => Table[i].1)
  }

  /** _REQUIRED_KEYS: the set of category names. */
  function RequiredKeys(): set<string>
  {
    set k | k in Names()
  }

  /** No category name occurs twice, so _REQUIRED_KEYS has ten members. */
  lemma RequiredKeysCount()
    ensures Distinct(Names())
    ensures |RequiredKeys()| == |Names()| == 10
  {
    assert Names() == [Table[0].0, Table[1].0, Table[2].0, Table[3].0, Table[4].0,
                       Table[5].0, Table[6].0, Table[7].0, Table[8].0, Table[9].0];
    DistinctCard(Names());
    assert RequiredKeys() == set x | x in Names();
  }

  lemma WeightsPositive()
    ensures forall i | 0 <= i < |Table| :: WeightList()[i] > 0
  {
  }

  /** The weights sum to 100. */
  lemma WeightsSumTo100()
    ensures Sum(WeightList()) == 100
  {
    var ws := WeightList();
    assert ws == [12, 10, 8, 8, 12, 8, 14, 12, 8, 8];
    for k := 1 to 11
      invariant Sum(ws[..k - 1]) == [0, 12, 22, 30, 38, 50, 58, 72, 84, 92, 100][k - 1]
    {
      SumStep(ws, k);
    }
    assert ws[..10] == ws;
  }

  /** The table has ten distinct categories, every weight is positive, and the weights sum to 100. */
  lemma TableShape()
    ensures |Table| == 10
    ensures Distinct(Names())
    ensures forall i | 0 <= i < |Table| :: Table[i].1 > 0
    ensures Sum(WeightList()) == 100
    ensures |RequiredKeys()| == 10
  {
    RequiredKeysCount();
    WeightsPositive();
    WeightsSumTo100();
  }
}
