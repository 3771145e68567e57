/** The per-terminal pivot tables both dashboards rank: a `pivot_table` over
    (TID, LOKASI, CABANG) by week, the loop that adds week columns the data
    lacks, the previous-month column merged by TID, the Σ of W1..W4, the
    descending sort by a selectable key and the `head(n)` cut. */
module Pivots {
  import opened Text
  import opened Incidents
  import opened Periods
  import opened Tiers
  import opened ClientView
  import opened Trends
  import opened Sorting

  /** The pivot index `['TID', 'LOKASI', 'CABANG']`. */
  datatype Unit = Unit(tid: string, location: string, branch: string)

  function UnitOf(r: Row): Unit
  {
    Unit(r.tid, r.location, r.branch)
  }

  /** The index of the pivot: every unit of the slice once. */
  function Units(rows: seq<Row>): (us: seq<Unit>)
    ensures forall u :: u in us <==> exists r :: r in rows && UnitOf(r) == u
    ensures forall i, j :: 0 <= i < j < |us| ==> us[i] != us[j]
  {
    var us := Distinct(Column(rows, UnitOf));
    assert forall u :: u in Column(rows, UnitOf) <==> exists r :: r in rows && UnitOf(r) == u by {
      forall u | u in Column(rows, UnitOf) ensures exists r :: r in rows && UnitOf(r) == u {
        var i :| 0 <= i < |rows| && Column(rows, UnitOf)[i] == u;
        assert rows[i] in rows;
      }
      forall u | exists r :: r in rows && UnitOf(r) == u ensures u in Column(rows, UnitOf) {
        var r :| r in rows && UnitOf(r) == u;
        var i :| 0 <= i < |rows| && rows[i] == r;
        assert Column(rows, UnitOf)[i] == u;
      }
    }
    us
  }

  /** The mask "this unit, this week". */
  function UnitWeek(u: Unit, w: string): (p: Row -> bool)
    ensures forall r :: p(r) <==> UnitOf(r) == u && r.week == w
  {
    r => UnitOf(r) == u && r.week == w
  }

  /** The mask "this unit, one of these weeks". */
  function UnitInWeeks(u: Unit, ws: seq<string>): (p: Row -> bool)
    ensures forall r :: p(r) <==> UnitOf(r) == u && r.week in ws
  {
    r => UnitOf(r) == u && r.week in ws
  }

  /** One pivot cell: the measure of the unit's rows in that week
      (`fill_value=0` where there are none). */
  function Cell(rows: seq<Row>, mode: MetricMode, u: Unit, w: string): int
  {
    Measure(Where(rows, UnitWeek(u, w)), mode)
  }

  /** A week no row carries has only zero cells. */
  lemma CellOfAbsentWeek(rows: seq<Row>, mode: MetricMode, u: Unit, w: string)
    requires w !in Image(rows, WeekOf)
    ensures Cell(rows, mode, u, w) == 0
  {
    WhereNone(rows, UnitWeek(u, w));
  }

  /** The columns `pivot_table(columns='WEEK')` produces: one per week label
      present in the slice, one entry per index unit. */
  function PivotColumns(rows: seq<Row>, mode: MetricMode, index: seq<Unit>): (cols: map<string, seq<int>>)
    ensures cols.Keys == Image(rows, WeekOf)
  {
    map w | w in Image(rows, WeekOf) :: seq(|index|, i requires 0 <= i < |index| => Cell(rows, mode, index[i], w))
  }

  /** A column of `n` zeros. */
  function Zeros(n: nat): (z: seq<int>)
    ensures |z| == n
    ensures forall i :: 0 <= i < n ==> z[i] == 0
  {
    seq(n, i => 0)
  }

  /** The columns after the first `k` rounds of
      `for w in weeks: if w not in piv.columns: piv[w] = 0`. */
  function FillUpTo(cols: map<string, seq<int>>, n: nat, weeks: seq<string>, k: nat): map<string, seq<int>>
    requires k <= |weeks|
  {
    if k == 0 then cols
    else
      var m := FillUpTo(cols, n, weeks, k - 1);
      if weeks[k - 1] in m then m else m[weeks[k - 1] := Zeros(n)]
  }

  /** Filling adds exactly the missing weeks, as zero columns, and leaves
      every existing column as it was. */
  lemma {:induction false} FillUpToSpec(cols: map<string, seq<int>>, n: nat, weeks: seq<string>, k: nat)
    requires k <= |weeks|
    ensures forall c :: c in FillUpTo(cols, n, weeks, k) <==> c in cols || exists j :: 0 <= j < k && weeks[j] == c
    ensures forall c :: c in cols ==> FillUpTo(cols, n, weeks, k)[c] == cols[c]
    ensures forall c :: c in FillUpTo(cols, n, weeks, k) && c !in cols ==> FillUpTo(cols, n, weeks, k)[c] == Zeros(n)
  {
    if k > 0 {
      FillUpToSpec(cols, n, weeks, k - 1);
    }
  }

  /** After filling, every listed week has a column, and each of its cells is
      the measure of that unit's rows in that week, whether the column came
      from the data or was added as zeros. */
  lemma FilledCells(rows: seq<Row>, mode: MetricMode, index: seq<Unit>, weeks: seq<string>)
    ensures forall w :: w in weeks ==>
              w in FillUpTo(PivotColumns(rows, mode, index), |index|, weeks, |weeks|)
              && |FillUpTo(PivotColumns(rows, mode, index), |index|, weeks, |weeks|)[w]| == |index|
    ensures forall w, i :: w in weeks && 0 <= i < |index| ==>
              FillUpTo(PivotColumns(rows, mode, index), |index|, weeks, |weeks|)[w][i] == Cell(rows, mode, index[i], w)
  {
    var pc := PivotColumns(rows, mode, index);
    var cols := FillUpTo(pc, |index|, weeks, |weeks|);
    FillUpToSpec(pc, |index|, weeks, |weeks|);
    forall w | w in weeks
      ensures w in cols && |cols[w]| == |index|
      ensures forall i :: 0 <= i < |index| ==> cols[w][i] == Cell(rows, mode, index[i], w)
    {
      var j :| 0 <= j < |weeks| && weeks[j] == w;
      if w !in pc {
        forall i | 0 <= i < |index| ensures cols[w][i] == Cell(rows, mode, index[i], w) {
          CellOfAbsentWeek(rows, mode, index[i], w);
        }
      }
    }
  }

  /** A pivot table under construction: its index and its named columns. */
  class PivotTable {
    var index: seq<Unit>
    var columns: map<string, seq<int>>

    /** `df.pivot_table(index=['TID', 'LOKASI', 'CABANG'], columns='WEEK', ...)`. */
    constructor (rows: seq<Row>, mode: MetricMode)
      ensures index == Units(rows)
      ensures columns == PivotColumns(rows, mode, index)
    {
      index := Units(rows);
      columns := PivotColumns(rows, mode, Units(rows));
    }

    /** `for w in weeks: if w not in piv.columns: piv[w] = 0`. */
    method AddMissingWeeks(weeks: seq<string>)
      modifies this
      ensures index == old(index)
      ensures columns == FillUpTo(old(columns), |index|, weeks, |weeks|)
    {
      var i := 0;
      while i < |weeks|
        invariant 0 <= i <= |weeks|
        invariant index == old(index)
        invariant columns == FillUpTo(old(columns), |index|, weeks, i)
      {
        if weeks[i] !in columns {
          columns := columns[weeks[i] := Zeros(|index|)];
        }
        i := i + 1;
      }
    }
  }

  /** One ranked line: the unit, its W1..W4 cells, its previous-month value
      and its Σ. */
  datatype Line = Line(unit: Unit, weekValues: seq<int>, prev: int, total: int)

  /** The reference line of a unit, defined from the rows alone: the four
      week measures, the previous value of its TID (0 for a TID the previous
      month lacks) and the measure of its rows in weeks W1..W4. */
  function TidLine(rows: seq<Row>, mode: MetricMode, u: Unit, prev: map<string, int>): Line
  {
    Line(u, seq(4, j requires 0 <= j < 4 => Cell(rows, mode, u, WeekLabels[j])), Get(prev, u.tid),
         Measure(Where(rows, UnitInWeeks(u, WeekLabels)), mode))
  }

  /** `d_tid[w_labels].sum(axis=1)` on line `i`, over the first `n` labels. */
  function WeekSum(cols: map<string, seq<int>>, i: nat, n: nat): int
    requires n <= |WeekLabels|
    requires forall w :: w in WeekLabels ==> w in cols && i < |cols[w]|
  {
    if n == 0 then 0 else WeekSum(cols, i, n - 1) + cols[WeekLabels[n - 1]][i]
  }

  /** The lines read off the filled pivot: the week columns, the previous
      value merged on TID with `fillna(0)`, and the row sum. */
  function LinesOf(index: seq<Unit>, cols: map<string, seq<int>>, prev: map<string, int>): (ls: seq<Line>)
    requires forall w :: w in WeekLabels ==> w in cols && |cols[w]| == |index|
    ensures |ls| == |index|
  {
    seq(|index|, i requires 0 <= i < |index| =>
      Line(index[i], seq(4, j requires 0 <= j < 4 => cols[WeekLabels[j]][i]), Get(prev, index[i].tid), WeekSum(cols, i, 4)))
  }

  /** The week labels are distinct. */
  lemma WeekLabelsUnique()
    ensures Unique(WeekLabels)
  {
  }

  /** Summing the cells of the first `n` distinct weeks measures the unit's
      rows in those weeks. */
  lemma {:induction false} WeekSumMeasures(rows: seq<Row>, mode: MetricMode, u: Unit, cols: map<string, seq<int>>, i: nat, n: nat)
    requires n <= |WeekLabels|
    requires forall w :: w in WeekLabels ==> w in cols && i < |cols[w]| && cols[w][i] == Cell(rows, mode, u, w)
    ensures WeekSum(cols, i, n) == Measure(Where(rows, UnitInWeeks(u, WeekLabels[..n])), mode)
  {
    if n == 0 {
      WhereNone(rows, UnitInWeeks(u, WeekLabels[..0]));
    } else {
      WeekSumMeasures(rows, mode, u, cols, i, n - 1);
      UnitWeekStep(rows, mode, u, n - 1);
    }
  }

  /** One more distinct week adds that week's cell to the unit's measure. */
  lemma UnitWeekStep(rows: seq<Row>, mode: MetricMode, u: Unit, k: nat)
    requires k < |WeekLabels|
    ensures Measure(Where(rows, UnitInWeeks(u, WeekLabels[..k + 1])), mode)
         == Measure(Where(rows, UnitInWeeks(u, WeekLabels[..k])), mode) + Cell(rows, mode, u, WeekLabels[k])
  {
    assert WeekLabels[..k + 1] == WeekLabels[..k] + [WeekLabels[k]];
    WeekLabelsUnique();
    assert WeekLabels[k] !in WeekLabels[..k];
    MeasureDisjointUnion(rows, mode, UnitInWeeks(u, WeekLabels[..k]), UnitWeek(u, WeekLabels[k]),
                         UnitInWeeks(u, WeekLabels[..k + 1]));
  }

  /** The filled pivot's lines are the reference lines of its units. */
  lemma PivotLinesAgree(rows: seq<Row>, mode: MetricMode, prev: map<string, int>)
    ensures forall w :: w in WeekLabels ==>
              w in FillUpTo(PivotColumns(rows, mode, Units(rows)), |Units(rows)|, WeekLabels, 4)
              && |FillUpTo(PivotColumns(rows, mode, Units(rows)), |Units(rows)|, WeekLabels, 4)[w]| == |Units(rows)|
    ensures LinesOf(Units(rows), FillUpTo(PivotColumns(rows, mode, Units(rows)), |Units(rows)|, WeekLabels, 4), prev)
         == AllLines(rows, mode, prev)
  {
    var us := Units(rows);
    var cols := FillUpTo(PivotColumns(rows, mode, us), |us|, WeekLabels, 4);
    FilledCells(rows, mode, us, WeekLabels);
    var ls := LinesOf(us, cols, prev);
    forall i | 0 <= i < |us| ensures ls[i] == TidLine(rows, mode, us[i], prev) {
      LineAgrees(rows, mode, prev, us, cols, i);
    }
  }

  /** One line of the filled pivot is the reference line of its unit. */
  lemma LineAgrees(rows: seq<Row>, mode: MetricMode, prev: map<string, int>, us: seq<Unit>,
                   cols: map<string, seq<int>>, i: nat)
    requires i < |us|
    requires forall w :: w in WeekLabels ==> w in cols && |cols[w]| == |us|
    requires forall w, k :: w in WeekLabels && 0 <= k < |us| ==> cols[w][k] == Cell(rows, mode, us[k], w)
    ensures LinesOf(us, cols, prev)[i] == TidLine(rows, mode, us[i], prev)
  {
    WeekSumMeasures(rows, mode, us[i], cols, i, 4);
    assert WeekLabels[..4] == WeekLabels;
    var l := LinesOf(us, cols, prev)[i];
    assert l.weekValues == TidLine(rows, mode, us[i], prev).weekValues;
  }

  /** The sort column: the previous month, one week, or Σ. */
  datatype SortBy = ByPrev | ByWeek(j: nat) | ByTotal

  function Key(l: Line, order: SortBy): int
  {
    match order
    case ByPrev => l.prev
    case ByWeek(j) => if j < |l.weekValues| then l.weekValues[j] else 0
    case ByTotal => l.total
  }

  /** The key of a sort column as a function on lines. */
  function KeyOf(order: SortBy): (key: Line -> int)
    ensures forall l :: key(l) == Key(l, order)
  {
    l => Key(l, order)
  }

  /** `sort_values(key, ascending=False)` leaves the keys non-increasing. */
  predicate SortedDesc(s: seq<Line>, order: SortBy)
  {
    SortedBy(s, KeyOf(order))
  }

  /** `head(n)`, or everything when there is no cut. */
  function Take(s: seq<Line>, limit: Option<nat>): (r: seq<Line>)
    ensures |r| == Limit(limit, |s|)
    ensures r == s[..|r|]
  {
    match limit
    case None => s
    case Some(n) => if n < |s| then s[..n] else s
  }

  /** The number of lines `head(limit)` keeps out of `total`. */
  function Limit(limit: Option<nat>, total: nat): (n: nat)
    ensures n <= total
  {
    match limit
    case None => total
    case Some(k) => if k < total then k else total
  }

  /** What a ranking of the slice promises: as many lines as the cut allows,
      each the reference line of a distinct unit of the slice, in descending
      key order, and no unit left out ranks above a unit kept. */
  predicate RankingSpec(rows: seq<Row>, mode: MetricMode, prev: map<string, int>, order: SortBy,
                        limit: Option<nat>, lines: seq<Line>)
  {
    && |lines| == Limit(limit, |Units(rows)|)
    && (forall i :: 0 <= i < |lines| ==> lines[i].unit in Units(rows) && lines[i] == TidLine(rows, mode, lines[i].unit, prev))
    && (forall i, j :: 0 <= i < j < |lines| ==> lines[i].unit != lines[j].unit)
    && SortedDesc(lines, order)
    && (forall u, i :: u in Units(rows) && 0 <= i < |lines| && (forall k :: 0 <= k < |lines| ==> lines[k].unit != u)
          ==> Key(TidLine(rows, mode, u, prev), order) <= Key(lines[i], order))
  }

  /** The reference lines of the slice's units, in index order. */
  function AllLines(rows: seq<Row>, mode: MetricMode, prev: map<string, int>): (ls: seq<Line>)
    ensures |ls| == |Units(rows)|
    ensures forall i :: 0 <= i < |ls| ==> ls[i] == TidLine(rows, mode, Units(rows)[i], prev)
  {
    seq(|Units(rows)|, i requires 0 <= i < |Units(rows)| => TidLine(rows, mode, Units(rows)[i], prev))
  }

  /** A line occurs in a sequence at most once when it occurs at most once
      in a permutation of it: distinct elements stay distinct. */
  lemma {:induction false} DistinctCount(s: seq<Line>, x: Line)
    requires forall i, j :: 0 <= i < j < |s| ==> s[i] != s[j]
    ensures multiset(s)[x] <= 1
  {
    if s != [] {
      DistinctCount(s[1..], x);
      assert s == [s[0]] + s[1..];
      if s[0] == x {
        assert x !in s[1..];
      }
    }
  }

  /** Two equal entries at different places count twice. */
  lemma TwiceCounted(s: seq<Line>, i: nat, j: nat)
    requires i < j < |s| && s[i] == s[j]
    ensures multiset(s)[s[i]] >= 2
  {
    assert s == s[..j] + s[j..];
    assert s[i] in s[..j];
    assert s[j] in s[j..];
  }

  /** The reference lines have distinct units, hence are pairwise distinct. */
  lemma AllLinesDistinct(rows: seq<Row>, mode: MetricMode, prev: map<string, int>)
    ensures forall a, b :: 0 <= a < b < |AllLines(rows, mode, prev)| ==> AllLines(rows, mode, prev)[a] != AllLines(rows, mode, prev)[b]
  {
    var all := AllLines(rows, mode, prev);
    forall a, b | 0 <= a < b < |all| ensures all[a] != all[b] {
      assert all[a].unit == Units(rows)[a] && all[b].unit == Units(rows)[b];
    }
  }

  /** Every line drawn from the reference lines is the reference line of a
      unit of the slice. */
  lemma DrawnLinesAreReference(rows: seq<Row>, mode: MetricMode, prev: map<string, int>, s: seq<Line>)
    requires multiset(s) <= multiset(AllLines(rows, mode, prev))
    ensures forall i :: 0 <= i < |s| ==> s[i].unit in Units(rows) && s[i] == TidLine(rows, mode, s[i].unit, prev)
  {
    var all := AllLines(rows, mode, prev);
    forall i | 0 <= i < |s|
      ensures s[i].unit in Units(rows) && s[i] == TidLine(rows, mode, s[i].unit, prev)
    {
      assert s[i] in multiset(s);
      assert s[i] in multiset(all);
      var k :| 0 <= k < |all| && all[k] == s[i];
    }
  }

  /** No unit occurs twice among lines drawn from the reference lines. */
  lemma DrawnUnitsDistinct(rows: seq<Row>, mode: MetricMode, prev: map<string, int>, s: seq<Line>)
    requires multiset(s) <= multiset(AllLines(rows, mode, prev))
    ensures forall i, j :: 0 <= i < j < |s| ==> s[i].unit != s[j].unit
  {
    DrawnLinesAreReference(rows, mode, prev, s);
    AllLinesDistinct(rows, mode, prev);
    forall i, j | 0 <= i < j < |s| ensures s[i].unit != s[j].unit {
      if s[i].unit == s[j].unit {
        TwiceCounted(s, i, j);
        DistinctCount(AllLines(rows, mode, prev), s[i]);
        assert false;
      }
    }
  }

  /** The position of a line that a sequence holds. */
  lemma PositionOf(s: seq<Line>, x: Line) returns (k: nat)
    requires x in multiset(s)
    ensures k < |s| && s[k] == x
  {
    assert x in s;
    k :| 0 <= k < |s| && s[k] == x;
  }

  /** In a sorted permutation of the reference lines, a unit outside a
      prefix ranks no higher than any line of it. */
  lemma OutsidersRankLower(rows: seq<Row>, mode: MetricMode, prev: map<string, int>, order: SortBy,
                           s: seq<Line>, lines: seq<Line>)
    requires multiset(s) == multiset(AllLines(rows, mode, prev))
    requires SortedDesc(s, order)
    requires |lines| <= |s| && lines == s[..|lines|]
    ensures forall u, i :: u in Units(rows) && 0 <= i < |lines| && (forall k :: 0 <= k < |lines| ==> lines[k].unit != u)
              ==> Key(TidLine(rows, mode, u, prev), order) <= Key(lines[i], order)
  {
    var all := AllLines(rows, mode, prev);
    forall u, i | u in Units(rows) && 0 <= i < |lines| && (forall k :: 0 <= k < |lines| ==> lines[k].unit != u)
      ensures Key(TidLine(rows, mode, u, prev), order) <= Key(lines[i], order)
    {
      var a :| 0 <= a < |Units(rows)| && Units(rows)[a] == u;
      assert all[a] in multiset(all);
      OutsiderRanksLower(s, lines, all[a], i, order);
    }
  }

  /** A line of a sorted sequence that is not in a prefix ranks no higher
      than any line of the prefix. */
  lemma OutsiderRanksLower(s: seq<Line>, lines: seq<Line>, x: Line, i: nat, order: SortBy)
    requires SortedDesc(s, order)
    requires |lines| <= |s| && lines == s[..|lines|]
    requires x in multiset(s) && i < |lines|
    requires forall k :: 0 <= k < |lines| ==> lines[k] != x
    ensures Key(x, order) <= Key(lines[i], order)
  {
    var k := PositionOf(s, x);
    assert lines[i] == s[i];
  }

  /** Sorting the reference lines and cutting meets the ranking promise. */
  lemma RankingOfSorted(rows: seq<Row>, mode: MetricMode, prev: map<string, int>, order: SortBy, limit: Option<nat>)
    ensures RankingSpec(rows, mode, prev, order, limit, Take(SortDesc(AllLines(rows, mode, prev), KeyOf(order)), limit))
  {
    var sorted := SortDesc(AllLines(rows, mode, prev), KeyOf(order));
    var lines := Take(sorted, limit);
    SortDescSorted(AllLines(rows, mode, prev), KeyOf(order));
    PrefixOfSorted(sorted, KeyOf(order), |lines|);
    DrawnLinesAreReference(rows, mode, prev, lines);
    DrawnUnitsDistinct(rows, mode, prev, lines);
    OutsidersRankLower(rows, mode, prev, order, sorted, lines);
  }

  /** The ranking of the pivot: build the table, add missing week columns,
      read off the lines, sort them by the chosen key and keep the first
      `limit` (all of them for `None`). */
  method RankUnits(rows: seq<Row>, mode: MetricMode, prev: map<string, int>, order: SortBy, limit: Option<nat>)
    returns (lines: seq<Line>)
    ensures RankingSpec(rows, mode, prev, order, limit, lines)
  {
    var t := new PivotTable(rows, mode);
    t.AddMissingWeeks(WeekLabels);
    PivotLinesAgree(rows, mode, prev);
    var all := LinesOf(t.index, t.columns, prev);
    assert all == AllLines(rows, mode, prev);
    lines := Take(SortDesc(all, KeyOf(order)), limit);
    RankingOfSorted(rows, mode, prev, order, limit);
  }

  /** A unit's Σ leaves out its rows in weeks past W4: a unit seen only in
      W5 has Σ 0. */
  lemma TotalOmitsFifthWeek(rows: seq<Row>, mode: MetricMode, u: Unit, prev: map<string, int>)
    requires forall r :: r in rows ==> r.week == "W5"
    ensures TidLine(rows, mode, u, prev).total == 0
  {
    WhereNone(rows, UnitInWeeks(u, WeekLabels));
  }

  /** The cells of the unit's first `n` week labels, added up. */
  function CellSum(rows: seq<Row>, mode: MetricMode, u: Unit, n: nat): int
    requires n <= |WeekLabels|
  {
    if n == 0 then 0 else CellSum(rows, mode, u, n - 1) + Cell(rows, mode, u, WeekLabels[n - 1])
  }

  /** Adding the cells of distinct weeks measures the unit's rows in them. */
  lemma {:induction false} CellSumMeasures(rows: seq<Row>, mode: MetricMode, u: Unit, n: nat)
    requires n <= |WeekLabels|
    ensures CellSum(rows, mode, u, n) == Measure(Where(rows, UnitInWeeks(u, WeekLabels[..n])), mode)
  {
    if n == 0 {
      WhereNone(rows, UnitInWeeks(u, WeekLabels[..0]));
    } else {
      CellSumMeasures(rows, mode, u, n - 1);
      CellSumStep(rows, mode, u, n);
    }
  }

  /** One more week cell adds that week's rows of the unit to both sides. */
  lemma CellSumStep(rows: seq<Row>, mode: MetricMode, u: Unit, n: nat)
    requires 0 < n <= |WeekLabels|
    requires CellSum(rows, mode, u, n - 1) == Measure(Where(rows, UnitInWeeks(u, WeekLabels[..n - 1])), mode)
    ensures CellSum(rows, mode, u, n) == Measure(Where(rows, UnitInWeeks(u, WeekLabels[..n])), mode)
  {
    UnitWeekStep(rows, mode, u, n - 1);
  }

  /** The Σ is the sum of the four week cells. */
  lemma TotalIsWeekSum(rows: seq<Row>, mode: MetricMode, u: Unit, prev: map<string, int>)
    ensures var l := TidLine(rows, mode, u, prev);
            l.total == l.weekValues[0] + l.weekValues[1] + l.weekValues[2] + l.weekValues[3]
  {
    var l := TidLine(rows, mode, u, prev);
    CellSumMeasures(rows, mode, u, 4);
    assert WeekLabels[..4] == WeekLabels;
    assert CellSum(rows, mode, u, 4) == l.weekValues[0] + l.weekValues[1] + l.weekValues[2] + l.weekValues[3] by {
      assert CellSum(rows, mode, u, 1) == l.weekValues[0];
      assert CellSum(rows, mode, u, 2) == CellSum(rows, mode, u, 1) + l.weekValues[1];
      assert CellSum(rows, mode, u, 3) == CellSum(rows, mode, u, 2) + l.weekValues[2];
      assert CellSum(rows, mode, u, 4) == CellSum(rows, mode, u, 3) + l.weekValues[3];
    }
  }

  /** The client dashboard's sort choice: "All Week" sorts by Σ, a week
      label by that week's column. */
  function ClientSortBy(sortWeek: string): (order: SortBy)
    ensures sortWeek in WeekLabels ==> order == ByWeek(WeekNumber(sortWeek) - 1)
    ensures sortWeek !in WeekLabels ==> order == ByTotal
  {
    if WeekNumber(sortWeek) > 0 then ByWeek(WeekNumber(sortWeek) - 1) else ByTotal
  }

  /** The previous-month values merged into the client's critical-TID table:
      per TID, summed quantity for "Complain" with a quantity column, the row
      count otherwise (an empty month gives no entries). */
  function ClientPrevTotals(prev: Frame, cat: string): (m: map<string, int>)
    ensures m.Keys == Tids(prev.rows)
  {
    GroupTotals(prev.rows, TidOf, CategoryMode(prev, cat))
  }

  /** The client's "Critical TIDs" table: every terminal of the month, in
      the mode of the category, ranked by the chosen week or by Σ, uncut. */
  method CriticalTids(curr: Frame, prev: Frame, cat: string, sortWeek: string) returns (lines: seq<Line>)
    ensures RankingSpec(curr.rows, CategoryMode(curr, cat), ClientPrevTotals(prev, cat), ClientSortBy(sortWeek), None, lines)
    ensures |lines| == |Units(curr.rows)|
  {
    lines := RankUnits(curr.rows, CategoryMode(curr, cat), ClientPrevTotals(prev, cat), ClientSortBy(sortWeek), None);
  }

  /** The MRI view's complaint table: complaint rows counted per terminal,
      ranked by the chosen week or by the total, first eight kept. */
  method MriTopTids(comp: seq<Row>, sortWeek: string) returns (lines: seq<Line>)
    ensures RankingSpec(comp, CountRows, map[], ClientSortBy(sortWeek), Some(8), lines)
    ensures |lines| <= 8
  {
    lines := RankUnits(comp, CountRows, map[], ClientSortBy(sortWeek), Some(8));
  }
}
