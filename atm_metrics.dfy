/** The ATM dashboard's aggregations: the category measure, the category and
    month slices, the global weekly table, the per-branch breakdown over the
    fixed fleet and the Top-5 unit ranking. */
module AtmMetrics {
  import opened Text
  import opened Incidents
  import opened Periods
  import opened Tiers
  import opened ClientView
  import opened Sorting
  import opened Pivots

  // ---------------------------------------------------------------------
  // The fixed fleet (POPULASI_MANUAL)
  // ---------------------------------------------------------------------

  /** ATMs per branch, as hard-coded; the keys are already upper case. */
  const PopulationMap: map<string, nat> :=
    map["BANDUNG" := 58, "BEKASI" := 78, "DENPASAR" := 86, "JAKARTA" := 147, "JOGJA" := 20,
        "KUPANG" := 15, "MAKASSAR" := 89, "MEDAN" := 47, "PARE-PARE" := 71]

  /** The branch rows of the breakdown, in the dictionary's key order. */
  const Branches: seq<string> :=
    ["BANDUNG", "BEKASI", "DENPASAR", "JAKARTA", "JOGJA", "KUPANG", "MAKASSAR", "MEDAN", "PARE-PARE"]

  /** `TOTAL_ASSET_GLOBAL`. */
  const TotalAssetGlobal: nat := 611

  /** `index.map(POPULASI_MANUAL).fillna(0)`: a branch's population, 0 when
      the branch is not in the table. */
  function Population(b: string): (n: nat)
    ensures b !in PopulationMap ==> n == 0
    ensures b in PopulationMap ==> n == PopulationMap[b]
  {
    if b in PopulationMap then PopulationMap[b] else 0
  }

  /** The populations of a list of branches, added up. */
  function PopulationSum(bs: seq<string>): nat
  {
    if bs == [] then 0 else Population(bs[0]) + PopulationSum(bs[1..])
  }

  /** The branch list is exactly the table's keys, and its entries are
      distinct. */
  lemma BranchesAreTheTable()
    ensures forall b :: b in Branches <==> b in PopulationMap
    ensures forall i, j :: 0 <= i < j < |Branches| ==> Branches[i] != Branches[j]
  {
  }

  /** Every key is already upper case, so `.str.upper()` changes nothing. */
  lemma BranchesAreUpperCase()
    ensures forall i :: 0 <= i < |Branches| ==> Upper(Branches[i]) == Branches[i]
  {
    forall i | 0 <= i < |Branches| ensures Upper(Branches[i]) == Branches[i] {
      var b := Branches[i];
      forall k | 0 <= k < |b| ensures UpperChar(b[k]) == b[k] {
        assert !IsAsciiLower(b[k]);
      }
    }
  }

  /** Every fleet branch has ATMs. */
  lemma PopulationsPositive()
    ensures forall i :: 0 <= i < |Branches| ==> Population(Branches[i]) > 0
  {
  }

  lemma PopulationPositive(i: nat)
    requires i < |Branches|
    ensures Population(Branches[i]) > 0
  {
    PopulationsPositive();
  }

  /** The populations add up to `TOTAL_ASSET_GLOBAL`, the same fleet size of
      611 the client dashboard hard-codes. */
  lemma {:induction false} FleetTotal()
    ensures PopulationSum(Branches) == TotalAssetGlobal == FleetSize
  {
    FleetTail();
    assert PopulationSum(Branches[4..]) == 20 + 15 + 89 + 47 + 71;
    assert PopulationSum(Branches[3..]) == 147 + 20 + 15 + 89 + 47 + 71;
    assert PopulationSum(Branches[2..]) == 86 + 147 + 20 + 15 + 89 + 47 + 71;
    assert PopulationSum(Branches[1..]) == 78 + 86 + 147 + 20 + 15 + 89 + 47 + 71;
  }

  /** The last four branches of the list hold 222 ATMs. */
  lemma {:induction false} FleetTail()
    ensures PopulationSum(Branches[5..]) == 15 + 89 + 47 + 71
  {
    assert PopulationSum(Branches[9..]) == 0;
    assert PopulationSum(Branches[8..]) == 71;
    assert PopulationSum(Branches[7..]) == 47 + 71;
    assert PopulationSum(Branches[6..]) == 89 + 47 + 71;
  }

  // ---------------------------------------------------------------------
  // get_count_or_sum and the slices
  // ---------------------------------------------------------------------

  /** The measure the ATM dashboard uses for a category: the quantity sum
      for any spelling of "complain", a row count otherwise. */
  function AtmMode(cat: string): (mode: MetricMode)
    ensures mode == SumQuantity <==> Upper(cat) == "COMPLAIN"
  {
    if Upper(cat) == "COMPLAIN" then SumQuantity else CountRows
  }

  /** `get_count_or_sum`: 0 for an empty slice, the JUMLAH_COMPLAIN sum for
      the complaint category, the number of rows otherwise. */
  function GetCountOrSum(rows: seq<Row>, cat: string): (v: int)
    ensures rows == [] ==> v == 0
    ensures v == Measure(rows, AtmMode(cat))
  {
    if rows == [] then 0
    else if Upper(cat) == "COMPLAIN" then SumQty(rows)
    else |rows|
  }

  /** The ATM dashboard ignores the case of "complain"; the client
      dashboard's rule does not: on a frame with the quantity column,
      "complain" is summed by the one and counted by the other. */
  lemma ComplainCaseDiffers(f: Frame)
    requires f.hasQty
    ensures AtmMode("complain") == SumQuantity && AtmMode("Complain") == SumQuantity
    ensures CategoryMode(f, "Complain") == SumQuantity
    ensures CategoryMode(f, "complain") == CountRows
  {
    assert Upper("complain") == "COMPLAIN";
    assert Upper("Complain") == "COMPLAIN";
  }

  /** `KATEGORI.str.contains(sel, case=False)`: the selection matches any
      category that holds it, ignoring case. */
  function InCategory(sel: string): (p: Row -> bool)
    ensures forall r :: p(r) <==> Contains(Lower(r.category), Lower(sel))
  {
    (r: Row) => Contains(Lower(r.category), Lower(sel))
  }

  /** `df[MONTH_NUM == m]`. */
  function InMonth(m: int): (p: Row -> bool)
    ensures forall r :: p(r) <==> r.monthNum == m
  {
    (r: Row) => r.monthNum == m
  }

  /** Both masks at once: the rows of the category in month `m`. */
  function InCategoryAndMonth(sel: string, m: int): (p: Row -> bool)
    ensures forall r :: p(r) <==> InCategory(sel)(r) && InMonth(m)(r)
  {
    (r: Row) => Contains(Lower(r.category), Lower(sel)) && r.monthNum == m
  }

  /** `label[:3].upper()`: the short column label of a month name. */
  function ShortLabel(name: string): (r: string)
  {
    Upper(if |name| <= 3 then name else name[..3])
  }

  /** The two slices and the two labels the page is built from. */
  datatype Selection = Selection(current: seq<Row>, previous: seq<Row>,
                                 labelCurrent: string, labelPrevious: string)

  /** The category slice split into the selected month and the month number
      before it, with their short labels; a month absent from the data (and
      January always) is labelled "N/A". */
  function Select(rows: seq<Row>, sel: string, present: set<MonthNum>, month: MonthNum): (s: Selection)
    ensures forall x :: x in s.current <==> x in rows && Contains(Lower(x.category), Lower(sel)) && x.monthNum == month
    ensures forall x :: x in s.previous <==> x in rows && Contains(Lower(x.category), Lower(sel)) && x.monthNum == month - 1
    ensures s.current == Where(rows, InCategoryAndMonth(sel, month))
    ensures s.previous == Where(rows, InCategoryAndMonth(sel, month - 1))
    ensures s.labelCurrent == ShortLabel(MonthName(month))
    ensures s.labelPrevious == ShortLabel(PreviousMonthLabel(present, month))
  {
    var cat := Where(rows, InCategory(sel));
    WhereWhere(rows, InCategory(sel), InMonth(month), InCategoryAndMonth(sel, month));
    WhereWhere(rows, InCategory(sel), InMonth(month - 1), InCategoryAndMonth(sel, month - 1));
    Selection(Where(cat, InMonth(month)), Where(cat, InMonth(month - 1)),
              ShortLabel(MonthName(month)), ShortLabel(PreviousMonthLabel(present, month)))
  }

  /** With no previous month the label stays "N/A". */
  lemma NoPreviousMonthLabel(rows: seq<Row>, sel: string, present: set<MonthNum>)
    ensures Select(rows, sel, present, 1).labelPrevious == "N/A"
  {
    assert PreviousMonthLabel(present, 1) == "N/A";
    assert Upper("N/A") == "N/A";
  }

  /** The category filter treats selections that differ only in case alike. */
  lemma {:induction false} CategoryFilterIgnoresCase(rows: seq<Row>, a: string, b: string)
    requires Lower(a) == Lower(b)
    ensures Where(rows, InCategory(a)) == Where(rows, InCategory(b))
  {
    if rows != [] {
      CategoryFilterIgnoresCase(rows[1..], a, b);
      WhereCons(rows[0], rows[1..], InCategory(a));
      WhereCons(rows[0], rows[1..], InCategory(b));
      assert rows == [rows[0]] + rows[1..];
    }
  }

  /** A row whose category is the selection, in any case, passes the filter;
      so do rows whose category merely contains it. */
  lemma CategoryFilterKeepsExact(r: Row, sel: string)
    requires Lower(r.category) == Lower(sel)
    ensures InCategory(sel)(r)
  {
    assert OccursAt(Lower(r.category), Lower(sel), 0);
  }

  // ---------------------------------------------------------------------
  // The global table
  // ---------------------------------------------------------------------

  /** The two figures of a slice: its measure and its distinct TIDs. */
  datatype Figures = Figures(freq: int, tid: nat)

  function FiguresOf(rows: seq<Row>, cat: string): Figures
  {
    Figures(GetCountOrSum(rows, cat), |Tids(rows)|)
  }

  /** `df[WEEK == w]`. */
  function WeekRows(rows: seq<Row>, w: string): seq<Row>
  {
    Where(rows, KeyIs(WeekOf, w))
  }

  /** `for w in labels: table[w] = f(w)`. */
  method TabulateByLabel<V>(labels: seq<string>, f: string -> V) returns (table: map<string, V>)
    ensures forall w :: w in table <==> w in labels
    ensures forall w :: w in labels ==> table[w] == f(w)
  {
    table := map[];
    var i := 0;
    while i < |labels|
      invariant 0 <= i <= |labels|
      invariant table == TabulatedUpTo(labels, f, i)
    {
      table := table[labels[i] := f(labels[i])];
      i := i + 1;
    }
    TabulatedUpToSpec(labels, f, |labels|);
    assert labels[..|labels|] == labels;
  }

  /** The figures of the rows of one week. */
  function WeekFigures(rows: seq<Row>, cat: string): (f: string -> Figures)
    ensures forall w :: f(w) == FiguresOf(WeekRows(rows, w), cat)
  {
    w => FiguresOf(WeekRows(rows, w), cat)
  }

  /** `weeks_passed`: the distinct week labels of the current slice, at
      least 1 so that the averages are defined. */
  function WeeksPassed(rows: seq<Row>): (n: nat)
    ensures n >= 1
    ensures rows != [] ==> n == |Image(rows, WeekOf)|
  {
    var weeks := Image(rows, WeekOf);
    assert rows != [] ==> WeekOf(rows[0]) in weeks;
    if |weeks| == 0 then 1 else |weeks|
  }

  /** A non-empty slice spans at most one week per row, and the empty slice
      counts as one week. */
  lemma WeeksPassedBound(rows: seq<Row>)
    ensures WeeksPassed(rows) <= if rows == [] then 1 else |rows|
  {
    ImageBound(rows, WeekOf);
  }

  /** A figure averaged over the weeks passed (before rounding). */
  function PerWeek(x: int, weeks: nat): (r: real)
    requires weeks >= 1
    ensures r * weeks as real == x as real
  {
    x as real / weeks as real
  }

  /** A figure as a percentage of an ATM population (before rounding). */
  function Percent(x: int, population: nat): (r: real)
    requires population > 0
    ensures r * population as real == x as real * 100.0
  {
    x as real / population as real * 100.0
  }

  /** The table: previous month, W1..W4, the month's Σ, the averages per week
      and the probabilities per fleet ATM (in percent). */
  datatype GlobalTable = GlobalTable(prev: Figures, weekly: map<string, Figures>, total: Figures,
                                     weeksPassed: nat, avgFreq: real, avgTid: real,
                                     probFreq: real, probTid: real)

  /** The global table of a selection. The weekly figures are filled by a
      loop over W1..W4; Σ covers every week of the month, W5 included. */
  method GlobalOverview(current: seq<Row>, previous: seq<Row>, cat: string) returns (g: GlobalTable)
    ensures g.prev == Figures(Measure(previous, AtmMode(cat)), |Tids(previous)|)
    ensures g.total == Figures(Measure(current, AtmMode(cat)), |Tids(current)|)
    ensures forall w :: w in g.weekly <==> w in WeekLabels
    ensures forall w :: w in WeekLabels ==> g.weekly[w] == FiguresOf(WeekRows(current, w), cat)
    ensures g.weeksPassed == WeeksPassed(current) && g.weeksPassed >= 1
    ensures g.avgFreq == PerWeek(g.total.freq, g.weeksPassed) && g.avgTid == PerWeek(g.total.tid, g.weeksPassed)
    ensures g.probFreq == Percent(g.total.freq, TotalAssetGlobal) && g.probTid == Percent(g.total.tid, TotalAssetGlobal)
  {
    var weeksPassed := WeeksPassed(current);
    var freqDec := GetCountOrSum(current, cat);
    var freqNov := GetCountOrSum(previous, cat);
    var tidDec := |Tids(current)|;
    var tidNov := |Tids(previous)|;
    var weekly := TabulateByLabel(WeekLabels, WeekFigures(current, cat));
    g := GlobalTable(Figures(freqNov, tidNov), weekly, Figures(freqDec, tidDec), weeksPassed,
                     PerWeek(freqDec, weeksPassed), PerWeek(tidDec, weeksPassed),
                     Percent(freqDec, TotalAssetGlobal), Percent(tidDec, TotalAssetGlobal));
  }

  /** Counting rows, a slice never has more distinct TIDs than tickets. */
  lemma TidsAtMostTickets(rows: seq<Row>, cat: string)
    requires AtmMode(cat) == CountRows
    ensures FiguresOf(rows, cat).tid <= FiguresOf(rows, cat).freq
  {
    ImageBound(rows, TidOf);
  }

  /** The month's Σ is the four week columns plus the rows of later weeks:
      the global table's weeks do not add up to Σ when W5 has tickets. */
  lemma {:induction false} GlobalTotalSplitsByWeek(rows: seq<Row>, cat: string)
    ensures GetCountOrSum(rows, cat)
         == SumOver(rows, WeekOf, WeekLabels, AtmMode(cat))
          + Measure(Where(rows, WeekOutside(WeekLabels)), AtmMode(cat))
  {
    var mode := AtmMode(cat);
    WeekLabelsDistinct();
    SumOverKeys(rows, WeekOf, WeekLabels, mode);
    MeasureSplit(rows, mode, KeyIn(WeekOf, WeekLabels), WeekOutside(WeekLabels));
  }

  /** The four week labels are distinct. */
  lemma WeekLabelsDistinct()
    ensures forall i, j :: 0 <= i < j < |WeekLabels| ==> WeekLabels[i] != WeekLabels[j]
  {
    forall i, j | 0 <= i < j < |WeekLabels| ensures WeekLabels[i] != WeekLabels[j] {
      WeekNumberOfLabel(i);
      WeekNumberOfLabel(j);
    }
  }

  // ---------------------------------------------------------------------
  // The per-branch breakdown
  // ---------------------------------------------------------------------

  /** One row of the breakdown: population, previous month, W1..W4, Σ,
      average per week and probability (absent for a branch without ATMs). */
  datatype BranchLine = BranchLine(branch: string, population: nat, prev: int, weekValues: seq<int>,
                                   total: int, avg: real, prob: Option<real>)

  /** The pivot cells of a slice for the given week columns. */
  function WeekCells(rows: seq<Row>, mode: MetricMode, ws: seq<string>): (cells: seq<int>)
    ensures |cells| == |ws|
    ensures forall j :: 0 <= j < |ws| ==> cells[j] == Measure(WeekRows(rows, ws[j]), mode)
  {
    if ws == [] then [] else [Measure(WeekRows(rows, ws[0]), mode)] + WeekCells(rows, mode, ws[1..])
  }

  /** `df[CABANG == b]`. */
  function BranchRows(rows: seq<Row>, b: string): seq<Row>
  {
    Where(rows, KeyIs(BranchOf, b))
  }

  /** The line of one branch: the pivot row (zeros for a branch without
      tickets), the previous month's group value (0 when absent), Σ across
      every week column of the pivot, and the rates. */
  function BranchLineOf(current: seq<Row>, previous: seq<Row>, mode: MetricMode, weeksPassed: nat, b: string): BranchLine
    requires weeksPassed >= 1
  {
    var total := Measure(BranchRows(current, b), mode);
    BranchLine(b, Population(b), Measure(BranchRows(previous, b), mode),
               WeekCells(BranchRows(current, b), mode, WeekLabels),
               total, PerWeek(total, weeksPassed),
               if Population(b) > 0 then Some(Percent(total, Population(b))) else None)
  }

  /** The lines of a list of branches, in its order. */
  function LinesFor(current: seq<Row>, previous: seq<Row>, mode: MetricMode, weeksPassed: nat, bs: seq<string>)
    : (lines: seq<BranchLine>)
    requires weeksPassed >= 1
    ensures |lines| == |bs|
    ensures forall i :: 0 <= i < |bs| ==> lines[i].branch == bs[i] && |lines[i].weekValues| == |WeekLabels|
  {
    if bs == [] then []
    else [BranchLineOf(current, previous, mode, weeksPassed, bs[0])] + LinesFor(current, previous, mode, weeksPassed, bs[1..])
  }

  /** The `i`-th line is the line of the `i`-th branch. */
  lemma {:induction false} LinesForAt(current: seq<Row>, previous: seq<Row>, mode: MetricMode, weeksPassed: nat,
                                      bs: seq<string>, i: nat)
    requires weeksPassed >= 1 && i < |bs|
    ensures LinesFor(current, previous, mode, weeksPassed, bs)[i] == BranchLineOf(current, previous, mode, weeksPassed, bs[i])
  {
    if i > 0 {
      LinesForAt(current, previous, mode, weeksPassed, bs[1..], i - 1);
    }
  }

  /** The breakdown before display sorting: one line per fleet branch, in
      the fleet's order; rows of any other branch are dropped by `reindex`. */
  function BranchBreakdown(current: seq<Row>, previous: seq<Row>, cat: string): (lines: seq<BranchLine>)
    ensures |lines| == |Branches|
    ensures forall i :: 0 <= i < |lines| ==> lines[i].branch == Branches[i] && |lines[i].weekValues| == |WeekLabels|
  {
    LinesFor(current, previous, AtmMode(cat), WeeksPassed(current), Branches)
  }

  /** The `i`-th line of the breakdown is the line of the `i`-th fleet branch. */
  lemma BreakdownAt(current: seq<Row>, previous: seq<Row>, cat: string, i: nat)
    requires i < |Branches|
    ensures BranchBreakdown(current, previous, cat)[i]
         == BranchLineOf(current, previous, AtmMode(cat), WeeksPassed(current), Branches[i])
  {
    LinesForAt(current, previous, AtmMode(cat), WeeksPassed(current), Branches, i);
  }

  /** Every fleet branch has ATMs, so every line carries its probability:
      Σ as a percentage of the branch's population. */
  lemma BreakdownProbability(current: seq<Row>, previous: seq<Row>, cat: string, i: nat)
    requires i < |Branches|
    ensures var l := BranchBreakdown(current, previous, cat)[i];
            l.population == Population(Branches[i]) && l.population > 0
            && l.prob == Some(Percent(l.total, l.population))
  {
    PopulationPositive(i);
    BreakdownAt(current, previous, cat, i);
    LineRates(current, previous, AtmMode(cat), WeeksPassed(current), Branches[i]);
  }

  /** Every line's average is its Σ per week passed of the whole month. */
  lemma BreakdownAverage(current: seq<Row>, previous: seq<Row>, cat: string, i: nat)
    requires i < |Branches|
    ensures BranchBreakdown(current, previous, cat)[i].avg
         == PerWeek(BranchBreakdown(current, previous, cat)[i].total, WeeksPassed(current))
  {
    BreakdownAt(current, previous, cat, i);
  }

  /** A branch with ATMs gets its Σ as a percentage of them. */
  lemma LineRates(current: seq<Row>, previous: seq<Row>, mode: MetricMode, weeksPassed: nat, b: string)
    requires weeksPassed >= 1 && Population(b) > 0
    ensures var l := BranchLineOf(current, previous, mode, weeksPassed, b);
            l.prob == Some(Percent(l.total, Population(b)))
  {
  }

  /** A branch line's Σ adds up its four week cells and its rows of later
      weeks. */
  lemma LineTotalCountsLateWeeks(current: seq<Row>, previous: seq<Row>, mode: MetricMode, weeksPassed: nat, b: string)
    requires weeksPassed >= 1
    ensures var l := BranchLineOf(current, previous, mode, weeksPassed, b);
            l.total == l.weekValues[0] + l.weekValues[1] + l.weekValues[2] + l.weekValues[3]
                     + Measure(Where(BranchRows(current, b), WeekOutside(WeekLabels)), mode)
  {
    var mine := BranchRows(current, b);
    var cells := WeekCells(mine, mode, WeekLabels);
    WeekLabelsDistinct();
    SumOverKeys(mine, WeekOf, WeekLabels, mode);
    MeasureSplit(mine, mode, KeyIn(WeekOf, WeekLabels), WeekOutside(WeekLabels));
    SumOverWeekLabels(mine, mode, cells);
  }

  /** The four week groups of a slice, added up, are its four pivot cells. */
  lemma SumOverWeekLabels(rows: seq<Row>, mode: MetricMode, cells: seq<int>)
    requires cells == WeekCells(rows, mode, WeekLabels)
    ensures SumOver(rows, WeekOf, WeekLabels, mode) == cells[0] + cells[1] + cells[2] + cells[3]
  {
    assert WeekLabels[..3] == ["W1", "W2", "W3"] && WeekLabels[..3][..2] == ["W1", "W2"];
    assert ["W1", "W2"][..1] == ["W1"] && ["W1"][..0] == [];
    assert cells[0] == Measure(WeekRows(rows, "W1"), mode) && cells[1] == Measure(WeekRows(rows, "W2"), mode);
    assert cells[2] == Measure(WeekRows(rows, "W3"), mode) && cells[3] == Measure(WeekRows(rows, "W4"), mode);
    assert SumOver(rows, WeekOf, ["W1"], mode) == cells[0];
    assert SumOver(rows, WeekOf, ["W1", "W2"], mode) == cells[0] + cells[1];
    assert SumOver(rows, WeekOf, ["W1", "W2", "W3"], mode) == cells[0] + cells[1] + cells[2];
  }

  /** A branch's Σ in the breakdown adds up its four week cells and its rows
      of later weeks: unlike the Top-5 table's Σ, it counts W5. */
  lemma BranchTotalCountsLateWeeks(current: seq<Row>, previous: seq<Row>, cat: string, i: nat)
    requires i < |Branches|
    ensures var l := BranchBreakdown(current, previous, cat)[i];
            l.total == l.weekValues[0] + l.weekValues[1] + l.weekValues[2] + l.weekValues[3]
                     + Measure(Where(BranchRows(current, Branches[i]), WeekOutside(WeekLabels)), AtmMode(cat))
  {
    BreakdownAt(current, previous, cat, i);
    LineTotalCountsLateWeeks(current, previous, AtmMode(cat), WeeksPassed(current), Branches[i]);
  }

  /** A unit seen only in W5 weighs on its branch's Σ but has Σ 0 in the
      Top-5 table. */
  lemma FifthWeekSplitsTheTables(current: seq<Row>, previous: seq<Row>, cat: string, i: nat, prev: map<string, int>)
    requires i < |Branches|
    requires forall r :: r in current ==> r.week == "W5" && r.branch == Branches[i]
    ensures BranchBreakdown(current, previous, cat)[i].total == Measure(current, AtmMode(cat))
    ensures forall u :: TidLine(current, AtmMode(cat), u, prev).total == 0
  {
    BreakdownAt(current, previous, cat, i);
    WhereAll(current, KeyIs(BranchOf, Branches[i]));
    forall u ensures TidLine(current, AtmMode(cat), u, prev).total == 0 {
      TotalOmitsFifthWeek(current, AtmMode(cat), u, prev);
    }
  }

  /** The Σ column sums to the measure of the rows of fleet branches. */
  function TotalsOf(lines: seq<BranchLine>): int
  {
    if lines == [] then 0 else TotalsOf(lines[..|lines| - 1]) + lines[|lines| - 1].total
  }

  /** The breakdown loses no ticket of a fleet branch and counts none twice:
      its Σ column adds up to the measure of the rows whose branch is in the
      fleet. */
  lemma BreakdownCoversFleet(current: seq<Row>, previous: seq<Row>, cat: string)
    ensures TotalsOf(BranchBreakdown(current, previous, cat))
         == Measure(Where(current, KeyIn(BranchOf, Branches)), AtmMode(cat))
  {
    BranchesAreTheTable();
    LinesCoverBranches(current, previous, AtmMode(cat), WeeksPassed(current), Branches);
  }

  /** For any list of distinct branches, the lines' Σ column adds up to the
      measure of the rows of those branches. */
  lemma LinesCoverBranches(current: seq<Row>, previous: seq<Row>, mode: MetricMode, weeksPassed: nat, bs: seq<string>)
    requires weeksPassed >= 1
    requires forall i, j :: 0 <= i < j < |bs| ==> bs[i] != bs[j]
    ensures TotalsOf(LinesFor(current, previous, mode, weeksPassed, bs)) == Measure(Where(current, KeyIn(BranchOf, bs)), mode)
  {
    var lines := LinesFor(current, previous, mode, weeksPassed, bs);
    LinesMeasureBranches(current, previous, mode, weeksPassed, bs);
    SumOverKeys(current, BranchOf, bs, mode);
    TotalsPrefix(current, mode, bs, lines, |bs|);
    assert lines[..|bs|] == lines;
    assert bs[..|bs|] == bs;
  }

  /** Each line's Σ is the measure of its branch's rows. */
  lemma LinesMeasureBranches(current: seq<Row>, previous: seq<Row>, mode: MetricMode, weeksPassed: nat, bs: seq<string>)
    requires weeksPassed >= 1
    ensures var lines := LinesFor(current, previous, mode, weeksPassed, bs);
            forall i :: 0 <= i < |bs| ==> lines[i].total == Measure(BranchRows(current, bs[i]), mode)
  {
    var lines := LinesFor(current, previous, mode, weeksPassed, bs);
    forall i | 0 <= i < |bs| ensures lines[i].total == Measure(BranchRows(current, bs[i]), mode) {
      LinesForAt(current, previous, mode, weeksPassed, bs, i);
    }
  }

  /** When each line's Σ measures its branch's rows, the first `n` lines add
      up to the first `n` branch groups. */
  lemma {:induction false} TotalsPrefix(current: seq<Row>, mode: MetricMode, bs: seq<string>, lines: seq<BranchLine>, n: nat)
    requires |lines| == |bs| && n <= |bs|
    requires forall i :: 0 <= i < |bs| ==> lines[i].total == Measure(BranchRows(current, bs[i]), mode)
    ensures TotalsOf(lines[..n]) == SumOver(current, BranchOf, bs[..n], mode)
  {
    if n > 0 {
      TotalsPrefix(current, mode, bs, lines, n - 1);
      assert lines[..n][..n - 1] == lines[..n - 1];
      assert bs[..n][..n - 1] == bs[..n - 1];
    }
  }

  /** Rows of branches outside the fleet leave every line at zero. */
  lemma OtherBranchesDropped(current: seq<Row>, previous: seq<Row>, cat: string, i: nat)
    requires i < |Branches|
    requires forall r :: r in current ==> r.branch !in Branches
    ensures BranchBreakdown(current, previous, cat)[i].total == 0
  {
    BreakdownAt(current, previous, cat, i);
    WhereNone(current, KeyIs(BranchOf, Branches[i]));
  }

  function LineTotal(l: BranchLine): int { l.total }
  function ShownTotal(l: BranchLine): bool { l.total != 0 }
  function BlankTotal(l: BranchLine): bool { l.total == 0 }

  /** The display order: zeros are blanked before sorting, so the lines with
      Σ ≠ 0 come first in descending Σ and the blank ones last
      (`na_position='last'`). */
  function DisplayOrder(lines: seq<BranchLine>): (r: seq<BranchLine>)
  {
    SortDesc(Where(lines, ShownTotal), LineTotal) + Where(lines, BlankTotal)
  }

  /** Sorting for display only reorders the lines. */
  lemma DisplayOrderIsPermutation(lines: seq<BranchLine>)
    ensures multiset(DisplayOrder(lines)) == multiset(lines)
  {
    WherePartition(lines, ShownTotal, BlankTotal);
  }

  /** In the display order a line with Σ ≠ 0 is preceded only by lines with
      Σ ≠ 0 and at least its Σ. */
  lemma DisplayOrderRanks(lines: seq<BranchLine>)
    ensures var r := DisplayOrder(lines);
            forall i, j :: 0 <= i < j < |r| && r[j].total != 0 ==> r[i].total != 0 && r[i].total >= r[j].total
  {
    var shown := SortDesc(Where(lines, ShownTotal), LineTotal);
    var blank := Where(lines, BlankTotal);
    SortDescSorted(Where(lines, ShownTotal), LineTotal);
    var r := DisplayOrder(lines);
    forall i, j | 0 <= i < j < |r| && r[j].total != 0
      ensures r[i].total != 0 && r[i].total >= r[j].total
    {
      if j < |shown| {
        assert r[i] == shown[i] && r[j] == shown[j];
        assert shown[i] in multiset(Where(lines, ShownTotal));
      }
    }
  }

  // ---------------------------------------------------------------------
  // Top 5 units
  // ---------------------------------------------------------------------

  /** `s.replace(pat, '')`: every non-overlapping occurrence of `pat`,
      scanned from the left, removed. */
  function RemoveAll(s: string, pat: string): (r: string)
    requires pat != []
    ensures |r| <= |s|
    decreases |s|
  {
    if |s| >= |pat| && s[..|pat|] == pat then RemoveAll(s[|pat|..], pat)
    else if s == [] then []
    else [s[0]] + RemoveAll(s[1..], pat)
  }

  /** A string without an opening parenthesis loses only the appended
      "(prev)" marker. */
  lemma {:induction false} RemovePrevMarker(s: string)
    requires '(' !in s
    ensures RemoveAll(s + "(prev)", "(prev)") == s
  {
    if s == [] {
      assert ([] + "(prev)")[6..] == [];
    } else {
      var t := s + "(prev)";
      assert t[0] == s[0] && s[0] != '(';
      assert t[..6][0] == s[0];
      assert t[1..] == s[1..] + "(prev)";
      assert RemoveAll(t, "(prev)") == [s[0]] + RemoveAll(t[1..], "(prev)");
      RemovePrevMarker(s[1..]);
      assert s == [s[0]] + s[1..];
    }
  }

  /** A string without an opening parenthesis is left as it is. */
  lemma {:induction false} RemoveNoMarker(s: string)
    requires '(' !in s
    ensures RemoveAll(s, "(prev)") == s
  {
    if s != [] {
      assert s[0] != '(';
      assert |s| >= 6 ==> s[..6][0] == s[0];
      RemoveNoMarker(s[1..]);
    }
  }

  /** The sort key the selected option names: the previous month's column,
      a week column, or Σ for anything else. */
  function AtmSortBy(choice: string, labelPrevious: string): (order: SortBy)
  {
    var name := RemoveAll(choice, "(prev)");
    if name == labelPrevious then ByPrev
    else if WeekNumber(name) > 0 then ByWeek(WeekNumber(name) - 1)
    else ByTotal
  }

  /** Each option sorts by the column it names. */
  lemma AtmSortByOptions(labelCurrent: string, labelPrevious: string, j: nat)
    requires '(' !in labelCurrent && '(' !in labelPrevious
    requires labelPrevious !in WeekLabels && (labelPrevious == [] || labelPrevious[0] != 'Σ')
    requires j < |WeekLabels|
    ensures AtmSortBy(labelPrevious + "(prev)", labelPrevious) == ByPrev
    ensures AtmSortBy(WeekLabels[j], labelPrevious) == ByWeek(j)
    ensures AtmSortBy("Σ " + labelCurrent, labelPrevious) == ByTotal
  {
    SortByPrevOption(labelPrevious);
    SortByWeekOption(labelPrevious, j);
    SortByTotalOption(labelCurrent, labelPrevious);
  }

  lemma SortByPrevOption(labelPrevious: string)
    requires '(' !in labelPrevious
    ensures AtmSortBy(labelPrevious + "(prev)", labelPrevious) == ByPrev
  {
    RemovePrevMarker(labelPrevious);
  }

  lemma SortByWeekOption(labelPrevious: string, j: nat)
    requires labelPrevious !in WeekLabels
    requires j < |WeekLabels|
    ensures AtmSortBy(WeekLabels[j], labelPrevious) == ByWeek(j)
  {
    RemoveNoMarker(WeekLabels[j]);
    WeekNumberOfLabel(j);
  }

  lemma SortByTotalOption(labelCurrent: string, labelPrevious: string)
    requires '(' !in labelCurrent
    requires labelPrevious == [] || labelPrevious[0] != 'Σ'
    ensures AtmSortBy("Σ " + labelCurrent, labelPrevious) == ByTotal
  {
    var t := "Σ " + labelCurrent;
    assert '(' !in t by {
      assert forall k :: 2 <= k < |t| ==> t[k] == labelCurrent[k - 2];
    }
    RemoveNoMarker(t);
    assert t[0] == 'Σ';
    assert t !in WeekLabels;
  }

  function StartsWithSigma(s: string): bool { |s| > 0 && s[0] == 'Σ' }
  function EndsWithPrev(s: string): bool { |s| >= 6 && s[|s| - 6..] == "(prev)" }

  /** The options before filtering. */
  function AllSortOptions(labelCurrent: string, labelPrevious: string): seq<string>
  {
    ["Σ " + labelCurrent, "W1", "W2", "W3", "W4", labelPrevious + "(prev)"]
  }

  /** The filter on the options: a week present in the current month, or Σ,
      or the previous month. */
  function OptionKept(current: seq<Row>): (p: string -> bool)
    ensures forall opt :: p(opt) <==> opt in Image(current, WeekOf) || StartsWithSigma(opt) || EndsWithPrev(opt)
  {
    opt => opt in Image(current, WeekOf) || StartsWithSigma(opt) || EndsWithPrev(opt)
  }

  /** `sort_options_clean`: Σ, the week columns present in the current
      month, and the previous month. */
  function SortOptions(labelCurrent: string, labelPrevious: string, current: seq<Row>): (opts: seq<string>)
  {
    Where(AllSortOptions(labelCurrent, labelPrevious), OptionKept(current))
  }

  /** Σ and the previous month are always offered. */
  lemma SortOptionsAlwaysOffered(labelCurrent: string, labelPrevious: string, current: seq<Row>)
    ensures "Σ " + labelCurrent in SortOptions(labelCurrent, labelPrevious, current)
    ensures labelPrevious + "(prev)" in SortOptions(labelCurrent, labelPrevious, current)
  {
    var all := AllSortOptions(labelCurrent, labelPrevious);
    var t := "Σ " + labelCurrent;
    assert all[0] == t && StartsWithSigma(t);
    var p := labelPrevious + "(prev)";
    assert p[|p| - 6..] == "(prev)";
    assert all[5] == p && EndsWithPrev(p);
  }

  /** A week is offered exactly when the current month has a ticket in it. */
  lemma WeekOffered(labelCurrent: string, labelPrevious: string, current: seq<Row>, j: nat)
    requires j < |WeekLabels|
    ensures WeekLabels[j] in SortOptions(labelCurrent, labelPrevious, current)
        <==> exists r :: r in current && r.week == WeekLabels[j]
  {
    var all := AllSortOptions(labelCurrent, labelPrevious);
    var w := WeekLabels[j];
    assert all[j + 1] == w;
    assert !StartsWithSigma(w) && !EndsWithPrev(w);
    if exists r :: r in current && r.week == w {
      var r :| r in current && r.week == w;
      assert WeekOf(r) in Image(current, WeekOf);
    }
  }

  /** The Top-5 panel: nothing for an empty month; otherwise the five units
      ranked highest by the chosen key, measured in the category's mode, with
      the previous month's value per TID. */
  method AtmTopUnits(current: seq<Row>, previous: seq<Row>, cat: string, choice: string, labelPrevious: string)
    returns (lines: seq<Line>)
    ensures current == [] ==> lines == []
    ensures RankingSpec(current, AtmMode(cat), GroupTotals(previous, TidOf, AtmMode(cat)),
                        AtmSortBy(choice, labelPrevious), Some(5), lines)
    ensures |lines| <= 5
  {
    var mode := AtmMode(cat);
    var prev := GroupTotals(previous, TidOf, mode);
    if current == [] {
      lines := [];
      assert Units(current) == [];
    } else {
      lines := RankUnits(current, mode, prev, AtmSortBy(choice, labelPrevious), Some(5));
    }
  }
}
