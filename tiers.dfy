/** Risk tiering: per-terminal incident values bucketed into "1x", "2-3x" and
    ">3x", counted per bucket. Two variants: `calculate_risk_tiers`, which
    picks the quantity sum only when it exceeds the row count, and
    `safe_risk_calc`, which picks it for the "Complain" category. */
module Tiers {
  import opened Incidents

  /** The three rows of the tiering table. */
  datatype Tier = Single | Recurring | Chronic

  /** Counts per tier, in table order. */
  datatype TierCounts = TierCounts(single: nat, recurring: nat, chronic: nat)

  /** The "TOTAL UNIT" row: `sum(tiers)`. */
  function TotalUnits(t: TierCounts): nat
  {
    t.single + t.recurring + t.chronic
  }

  /** The tier of one terminal's value: `== 1`, `>= 2 & <= 3`, `> 3`.
      Values below 1 fall in no tier. */
  predicate InTier(v: int, t: Tier)
  {
    match t
    case Single => v == 1
    case Recurring => 2 <= v <= 3
    case Chronic => v > 3
  }

  /** The terminals whose value falls in tier `t`. */
  function TierMembers(counts: map<string, int>, t: Tier): set<string>
  {
    set k | k in counts && InTier(counts[k], t)
  }

  /** The terminals whose value is at least 1. */
  function Positive(counts: map<string, int>): set<string>
  {
    set k | k in counts && counts[k] >= 1
  }

  /** `((counts == 1).sum(), ((counts >= 2) & (counts <= 3)).sum(), (counts > 3).sum())`. */
  function Classify(counts: map<string, int>): TierCounts
  {
    TierCounts(|TierMembers(counts, Single)|, |TierMembers(counts, Recurring)|,
               |TierMembers(counts, Chronic)|)
  }

  /** The tiers are disjoint and together hold exactly the terminals whose
      value is at least 1, so the "TOTAL UNIT" row counts those terminals. */
  lemma ClassifyPartition(counts: map<string, int>)
    ensures TotalUnits(Classify(counts)) == |Positive(counts)|
  {
    var a := TierMembers(counts, Single);
    var b := TierMembers(counts, Recurring);
    var c := TierMembers(counts, Chronic);
    assert a * b == {} && (a + b) * c == {};
    assert a + b + c == Positive(counts);
  }

  /** A terminal lands in at most one tier. */
  lemma TiersDisjoint(v: int, t1: Tier, t2: Tier)
    requires InTier(v, t1) && InTier(v, t2)
    ensures t1 == t2
  {
  }

  /** `calculate_risk_tiers`: an empty slice gives (0, 0, 0); otherwise the
      per-TID values are quantity sums when the frame has JUMLAH_COMPLAIN and
      its total exceeds the row count, and row counts otherwise. */
  function CalculateRiskTiers(f: Frame): (r: TierCounts)
    ensures f.rows == [] ==> r == TierCounts(0, 0, 0)
  {
    if f.rows == [] then TierCounts(0, 0, 0)
    else Classify(GroupTotals(f.rows, TidOf, TieringMode(f)))
  }

  /** The measure `calculate_risk_tiers` groups by. */
  function TieringMode(f: Frame): MetricMode
  {
    if f.hasQty && SumQty(f.rows) > |f.rows| then SumQuantity else CountRows
  }

  /** `safe_risk_calc`: like `CalculateRiskTiers`, but the per-TID values are
      quantity sums exactly when the category is "Complain" and the frame has
      the quantity column. */
  function SafeRiskCalc(f: Frame, cat: string): (r: TierCounts)
    ensures f.rows == [] ==> r == TierCounts(0, 0, 0)
  {
    if f.rows == [] then TierCounts(0, 0, 0)
    else Classify(GroupTotals(f.rows, TidOf, CategoryMode(f, cat)))
  }

  /** The measure the standard layout uses for a category. */
  function CategoryMode(f: Frame, cat: string): MetricMode
  {
    if cat == "Complain" && f.hasQty then SumQuantity else CountRows
  }

  /** Counting rows, every terminal present counts at least once, so the
      tiers add up to the number of distinct TIDs. */
  lemma CountModeCoversAllTids(rows: seq<Row>)
    ensures TotalUnits(Classify(GroupTotals(rows, TidOf, CountRows))) == |Tids(rows)|
  {
    var counts := GroupTotals(rows, TidOf, CountRows);
    forall k | k in counts ensures counts[k] >= 1 {
      GroupCountPositive(rows, TidOf, k);
    }
    assert Positive(counts) == counts.Keys;
    ClassifyPartition(counts);
  }

  /** The "TOTAL UNIT" row of the standard layout equals the distinct TIDs
      whenever the category is counted by rows. */
  lemma SafeTotalUnitsCountMode(f: Frame, cat: string)
    requires !(cat == "Complain" && f.hasQty)
    ensures TotalUnits(SafeRiskCalc(f, cat)) == |Tids(f.rows)|
  {
    if f.rows != [] {
      CountModeCoversAllTids(f.rows);
    }
  }

  /** The same for `calculate_risk_tiers` whenever it counts rows. */
  lemma CalculateTotalUnitsCountMode(f: Frame)
    requires TieringMode(f) == CountRows
    ensures TotalUnits(CalculateRiskTiers(f)) == |Tids(f.rows)|
  {
    if f.rows != [] {
      CountModeCoversAllTids(f.rows);
    }
  }

  /** Every row of the slice is a different terminal. */
  predicate DistinctTids(rows: seq<Row>)
  {
    forall i, j :: 0 <= i < |rows| && 0 <= j < |rows| && i != j ==> rows[i].tid != rows[j].tid
  }

  /** A slice of distinct terminals has as many TIDs as rows. */
  lemma {:induction false} DistinctTidsCard(rows: seq<Row>)
    requires DistinctTids(rows)
    ensures |Tids(rows)| == |rows|
  {
    if rows != [] {
      DistinctTidsCard(rows[1..]);
      ImageCons(rows, TidOf);
    }
  }

  /** Each terminal of a slice of distinct terminals is measured by its own row. */
  lemma TotalsOfDistinct(rows: seq<Row>, mode: MetricMode, k: string)
    requires DistinctTids(rows)
    requires k in GroupTotals(rows, TidOf, mode)
    ensures exists i :: 0 <= i < |rows| && rows[i].tid == k
                        && GroupTotals(rows, TidOf, mode)[k] == Measure([rows[i]], mode)
  {
    var r :| r in rows && TidOf(r) == k;
    var i :| 0 <= i < |rows| && rows[i] == r;
    TotalOfUniqueTid(rows, i, mode);
  }

  /** When every terminal counts once, all of them are "1x". */
  lemma ClassifyAllOnes(counts: map<string, int>)
    requires forall k :: k in counts ==> counts[k] == 1
    ensures Classify(counts) == TierCounts(|counts.Keys|, 0, 0)
  {
    assert TierMembers(counts, Single) == counts.Keys;
    assert TierMembers(counts, Recurring) == {};
    assert TierMembers(counts, Chronic) == {};
  }

  /** A tier holding the only positive terminal `a`, or nothing. */
  lemma TierOfOnePositive(counts: map<string, int>, a: string, t: Tier)
    requires a in counts
    requires forall k :: k in counts && k != a ==> counts[k] < 1
    ensures |TierMembers(counts, t)| == if InTier(counts[a], t) then 1 else 0
  {
    if InTier(counts[a], t) {
      assert TierMembers(counts, t) == {a};
    } else {
      assert TierMembers(counts, t) == {};
    }
  }

  /** When a single terminal has a positive value, the table holds only it. */
  lemma ClassifyOnePositive(counts: map<string, int>, a: string)
    requires a in counts
    requires forall k :: k in counts && k != a ==> counts[k] < 1
    ensures Classify(counts).single == if counts[a] == 1 then 1 else 0
    ensures Classify(counts).recurring == if 2 <= counts[a] <= 3 then 1 else 0
    ensures Classify(counts).chronic == if counts[a] > 3 then 1 else 0
  {
    TierOfOnePositive(counts, a, Single);
    TierOfOnePositive(counts, a, Recurring);
    TierOfOnePositive(counts, a, Chronic);
  }

  /** A TID held by one row alone is measured by that row. */
  lemma TotalOfUniqueTid(rows: seq<Row>, i: nat, mode: MetricMode)
    requires i < |rows|
    requires forall j :: 0 <= j < |rows| && j != i ==> rows[j].tid != rows[i].tid
    ensures rows[i].tid in GroupTotals(rows, TidOf, mode)
    ensures GroupTotals(rows, TidOf, mode)[rows[i].tid] == Measure([rows[i]], mode)
  {
    assert rows[i] in rows;
    WhereOnlyAt(rows, i, KeyIs(TidOf, rows[i].tid));
  }

  lemma MeasureOne(r: Row, mode: MetricMode)
    ensures Measure([r], mode) == if mode == CountRows then 1 else r.qty
  {
    SumQtyCons(r, []);
    assert [r] + [] == [r];
  }

  /** Counting rows over distinct terminals, every terminal is "1x". */
  lemma DistinctTidsAllSingle(rows: seq<Row>)
    requires DistinctTids(rows)
    ensures Classify(GroupTotals(rows, TidOf, CountRows)) == TierCounts(|rows|, 0, 0)
  {
    var c := GroupTotals(rows, TidOf, CountRows);
    forall k | k in c ensures c[k] == 1 {
      TotalsOfDistinct(rows, CountRows, k);
      var i :| 0 <= i < |rows| && rows[i].tid == k && c[k] == Measure([rows[i]], CountRows);
    }
    ClassifyAllOnes(c);
    DistinctTidsCard(rows);
  }

  /** Summing quantities over distinct terminals of which only row `i` has a
      positive quantity, the table holds that terminal alone, in the tier of
      its quantity. */
  lemma DistinctTidsOnePositive(rows: seq<Row>, i: nat)
    requires DistinctTids(rows)
    requires i < |rows|
    requires forall j :: 0 <= j < |rows| && j != i ==> rows[j].qty < 1
    ensures var q := rows[i].qty;
            Classify(GroupTotals(rows, TidOf, SumQuantity))
              == TierCounts(if q == 1 then 1 else 0, if 2 <= q <= 3 then 1 else 0, if q > 3 then 1 else 0)
  {
    var s := GroupTotals(rows, TidOf, SumQuantity);
    TotalOfUniqueTid(rows, i, SumQuantity);
    MeasureOne(rows[i], SumQuantity);
    forall k | k in s && k != rows[i].tid ensures s[k] < 1 {
      TotalsOfDistinct(rows, SumQuantity, k);
      var j :| 0 <= j < |rows| && rows[j].tid == k && s[k] == Measure([rows[j]], SumQuantity);
      MeasureOne(rows[j], SumQuantity);
    }
    ClassifyOnePositive(s, rows[i].tid);
  }

  /** A non-empty "Complain" slice with quantities is tiered by their sums. */
  lemma SafeRiskCalcComplain(f: Frame)
    requires f.rows != [] && f.hasQty
    ensures SafeRiskCalc(f, "Complain") == Classify(GroupTotals(f.rows, TidOf, SumQuantity))
  {
  }

  /** A non-empty slice is tiered in `TieringMode`. */
  lemma CalculateRiskTiersIn(f: Frame)
    requires f.rows != []
    ensures CalculateRiskTiers(f) == Classify(GroupTotals(f.rows, TidOf, TieringMode(f)))
  {
  }

  /** One row of the tiering table. */
  function TierCount(t: TierCounts, tier: Tier): nat
  {
    match tier
    case Single => t.single
    case Recurring => t.recurring
    case Chronic => t.chronic
  }

  /** The terminals of a slice whose own rows measure, in `mode`, a value in
      the band of `tier`. */
  function TidsInTier(rows: seq<Row>, mode: MetricMode, tier: Tier): set<string>
  {
    set k | k in Tids(rows) && InTier(Measure(Where(rows, KeyIs(TidOf, k)), mode), tier)
  }

  /** Each tier of the grouped totals counts exactly the terminals whose own
      rows measure a value in its band. */
  lemma ClassifyGroupTotals(rows: seq<Row>, mode: MetricMode, tier: Tier)
    ensures TierCount(Classify(GroupTotals(rows, TidOf, mode)), tier) == |TidsInTier(rows, mode, tier)|
  {
    var g := GroupTotals(rows, TidOf, mode);
    forall k | k in Tids(rows)
      ensures g[k] == Measure(Where(rows, KeyIs(TidOf, k)), mode)
    {
      GroupTotalsAt(rows, TidOf, mode, k);
    }
    assert TierMembers(g, tier) == TidsInTier(rows, mode, tier);
  }

  /** `safe_risk_calc` on a non-empty "Complain" slice with quantities: a
      terminal is "1x", "2-3x" or ">3x" exactly when the quantities of its
      own tickets add up to 1, to 2 or 3, or to more than 3. */
  lemma SafeComplainTiers(f: Frame, tier: Tier)
    requires f.rows != [] && f.hasQty
    ensures TierCount(SafeRiskCalc(f, "Complain"), tier) == |TidsInTier(f.rows, SumQuantity, tier)|
  {
    SafeRiskCalcComplain(f);
    ClassifyGroupTotals(f.rows, SumQuantity, tier);
  }

  /** `safe_risk_calc` on any other category, or without the quantity
      column: a terminal's tier is the band of its number of tickets. */
  lemma SafeCountTiers(f: Frame, cat: string, tier: Tier)
    requires f.rows != [] && !(cat == "Complain" && f.hasQty)
    ensures TierCount(SafeRiskCalc(f, cat), tier) == |TidsInTier(f.rows, CountRows, tier)|
  {
    ClassifyGroupTotals(f.rows, CountRows, tier);
  }

  /** `calculate_risk_tiers` on a non-empty slice: a terminal's tier is the
      band of its own rows' measure in the mode the whole slice selects. */
  lemma CalculateTiers(f: Frame, tier: Tier)
    requires f.rows != []
    ensures TierCount(CalculateRiskTiers(f), tier) == |TidsInTier(f.rows, TieringMode(f), tier)|
  {
    CalculateRiskTiersIn(f);
    ClassifyGroupTotals(f.rows, TieringMode(f), tier);
  }

  /** Summing quantities, a terminal whose tickets total 0 is in no tier:
      a terminal with 5 tickets beside one with none gives a single unit,
      although the slice holds two distinct TIDs. */
  lemma ZeroTotalTerminalInNoTier(r1: Row, r2: Row)
    requires r1.tid != r2.tid && r1.qty == 5 && r2.qty == 0
    ensures |Tids([r1, r2])| == 2
    ensures SafeRiskCalc(Frame([r1, r2], true), "Complain") == TierCounts(0, 0, 1)
    ensures CalculateRiskTiers(Frame([r1, r2], true)) == TierCounts(0, 0, 1)
  {
    DistinctTidsCard([r1, r2]);
    SumsOfUnbalancedPair(r1, r2);
    SafeRiskCalcComplain(Frame([r1, r2], true));
    CalculateRiskTiersIn(Frame([r1, r2], true));
  }

  /** Both rules sum quantities on the slice of `ZeroTotalTerminalInNoTier`,
      and its table holds the 5-ticket terminal alone as ">3x". */
  lemma SumsOfUnbalancedPair(r1: Row, r2: Row)
    requires r1.tid != r2.tid && r1.qty == 5 && r2.qty == 0
    ensures TieringMode(Frame([r1, r2], true)) == SumQuantity
    ensures Classify(GroupTotals([r1, r2], TidOf, SumQuantity)) == TierCounts(0, 0, 1)
  {
    SumQtyCons(r1, [r2]);
    MeasureOne(r2, SumQuantity);
    assert [r1] + [r2] == [r1, r2];
    DistinctTidsOnePositive([r1, r2], 0);
  }

  /** `calculate_risk_tiers` on the slice of `TieringRulesDisagree`. */
  lemma CalculateOnBalancedSlice(r1: Row, r2: Row, r3: Row)
    requires r1.tid != r2.tid && r1.tid != r3.tid && r2.tid != r3.tid
    requires r1.qty == 3 && r2.qty == 0 && r3.qty == 0
    ensures CalculateRiskTiers(Frame([r1, r2, r3], true)) == TierCounts(3, 0, 0)
  {
    var rows := [r1, r2, r3];
    SumQtyCons(r1, [r2, r3]);
    SumQtyCons(r2, [r3]);
    MeasureOne(r3, SumQuantity);
    assert [r1] + [r2, r3] == rows && [r2] + [r3] == [r2, r3];
    assert TieringMode(Frame(rows, true)) == CountRows;
    DistinctTidsAllSingle(rows);
  }

  /** `safe_risk_calc` on the slice of `TieringRulesDisagree`. */
  lemma SafeOnBalancedSlice(r1: Row, r2: Row, r3: Row)
    requires r1.tid != r2.tid && r1.tid != r3.tid && r2.tid != r3.tid
    requires r1.qty == 3 && r2.qty == 0 && r3.qty == 0
    ensures SafeRiskCalc(Frame([r1, r2, r3], true), "Complain") == TierCounts(0, 1, 0)
  {
    DistinctTidsOnePositive([r1, r2, r3], 0);
  }

  /** The two tiering rules disagree on a "Complain" slice whose quantities
      total the row count: a TID with 3 tickets beside two with none is
      three "1x" terminals for `calculate_risk_tiers` and one "2-3x" terminal
      for `safe_risk_calc`. */
  lemma TieringRulesDisagree(r1: Row, r2: Row, r3: Row)
    requires r1.tid != r2.tid && r1.tid != r3.tid && r2.tid != r3.tid
    requires r1.qty == 3 && r2.qty == 0 && r3.qty == 0
    ensures CalculateRiskTiers(Frame([r1, r2, r3], true)) != SafeRiskCalc(Frame([r1, r2, r3], true), "Complain")
    ensures TotalUnits(CalculateRiskTiers(Frame([r1, r2, r3], true))) == 3
    ensures TotalUnits(SafeRiskCalc(Frame([r1, r2, r3], true), "Complain")) == 1
  {
    CalculateOnBalancedSlice(r1, r2, r3);
    SafeOnBalancedSlice(r1, r2, r3);
  }
}
