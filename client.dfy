/** The client dashboard's slice values: the per-category total of a slice,
    the header totals, the overview week rollup and the week-cutoff filter
    applied to the current month before any of them is computed. */
module ClientView {
  import opened Text
  import opened Incidents
  import opened Periods
  import opened Tiers

  /** The category with no incident table behind it. */
  const SparePart := "SparePart & Kaset"

  /** The fleet size shown beside the overview: `val_total_atm = 611`. */
  const FleetSize := 611

  /** `get_val_safe` / `get_val_std`: 0 for an empty slice, the quantity sum
      for "Complain" with a JUMLAH_COMPLAIN column, the row count otherwise.
      The emptiness test is redundant: either measure of no rows is 0. */
  function SliceValue(f: Frame, cat: string): (v: int)
    ensures v == Measure(f.rows, CategoryMode(f, cat))
  {
    if f.rows == [] then 0
    else if cat == "Complain" && f.hasQty then SumQty(f.rows)
    else |f.rows|
  }

  /** A slice's value is the sum of the values of any split of it. */
  lemma SliceValueSplit(f: Frame, cat: string, p: Row -> bool, q: Row -> bool)
    requires forall r :: q(r) <==> !p(r)
    ensures SliceValue(f, cat)
         == SliceValue(Frame(Where(f.rows, p), f.hasQty), cat) + SliceValue(Frame(Where(f.rows, q), f.hasQty), cat)
  {
    MeasureSplit(f.rows, CategoryMode(f, cat), p, q);
  }

  /** `total_ticket`: the header total, computed without the emptiness test;
      it always agrees with `get_val_safe`. */
  function HeaderTotal(f: Frame, cat: string): (v: int)
    ensures v == SliceValue(f, cat)
  {
    if cat == "Complain" && f.hasQty then SumQty(f.rows) else |f.rows|
  }

  /** `avg_ticket`: a quarter of the header total, and 0 for spare parts. */
  function HeaderAverage(f: Frame, cat: string): (a: real)
    ensures cat != SparePart ==> a * 4.0 == SliceValue(f, cat) as real
    ensures cat == SparePart ==> a == 0.0
  {
    if cat != SparePart then HeaderTotal(f, cat) as real / 4.0 else 0.0
  }

  /** The micro-metric total: "Complain" sums the quantity column when the
      frame has one and is 0 otherwise (also for the column-less
      `pd.DataFrame()`, written `None`); other categories count rows. */
  function MicroTotal(f: Option<Frame>, cat: string): (v: int)
    ensures f.None? ==> v == 0
  {
    match f
    case None => 0
    case Some(g) =>
      if cat == "Complain" then (if g.hasQty then SumQty(g.rows) else 0)
      else |g.rows|
  }

  /** The micro total agrees with `get_val_safe` except on a "Complain" slice
      without a quantity column, where it reports 0 instead of the row count. */
  lemma MicroTotalAgrees(f: Frame, cat: string)
    ensures MicroTotal(Some(f), cat) == SliceValue(f, cat) <==> cat != "Complain" || f.hasQty || f.rows == []
    ensures cat == "Complain" && !f.hasQty ==> MicroTotal(Some(f), cat) == 0
  {
  }

  /** The rows of one week: `df[df['WEEK'] == w]`. */
  function WeekSlice(f: Frame, w: string): (g: Frame)
    ensures g.hasQty == f.hasQty
    ensures g.rows == Where(f.rows, KeyIs(WeekOf, w))
    ensures forall x :: x in g.rows <==> x in f.rows && x.week == w
  {
    Frame(Where(f.rows, KeyIs(WeekOf, w)), f.hasQty)
  }

  /** The three layouts of the main content: the spare-part tables, the MRI
      tables, and the standard layout with the overview rollup. */
  datatype Layout = SparePartLayout | MriLayout | StandardLayout

  /** The navigation menu's categories, in menu order. */
  const MenuItems: seq<string> := ["MRI Project", "Elastic", "Complain", "DF Repeat", "OUT Flm", SparePart]

  /** The name the spare-part layout test compares the category with. */
  const SparePartTest := "Sparepart&kaset"

  /** The layout dispatch as written: the spare-part layout is chosen for
      "Sparepart&kaset", a name no menu item carries. */
  function LayoutAsWritten(cat: string): (l: Layout)
    ensures l == SparePartLayout <==> cat == SparePartTest
    ensures l == MriLayout <==> cat == "MRI Project"
  {
    if cat == SparePartTest then SparePartLayout
    else if cat == "MRI Project" then MriLayout
    else StandardLayout
  }

  /** The dispatch as intended: the spare-part menu item gets the spare-part
      layout, and every other category the layout it gets as written. */
  function LayoutFor(cat: string): (l: Layout)
    ensures l == SparePartLayout <==> cat == SparePart
    ensures l == MriLayout <==> cat == "MRI Project"
  {
    if cat == SparePart then SparePartLayout
    else if cat == "MRI Project" then MriLayout
    else StandardLayout
  }

  /** `df_curr` once the category branch has run: spare parts leave it as
      initialised, the column-less `pd.DataFrame()` (`None`); every other
      category replaces it by its own selection, which is a parameter here. */
  function CurrentFrame(cat: string, selected: Frame): (c: Option<Frame>)
    ensures c.None? <==> cat == SparePart
    ensures c.Some? ==> c.value == selected
  {
    if cat == SparePart then None else Some(selected)
  }

  /** As written, no menu item reaches the spare-part layout, and the
      spare-part item reaches the standard layout with the column-less frame,
      on which `OverviewRollup` fails. */
  lemma SparePartFallsThrough(selected: Frame)
    ensures forall c :: c in MenuItems ==> LayoutAsWritten(c) != SparePartLayout
    ensures SparePart in MenuItems && LayoutAsWritten(SparePart) == StandardLayout
    ensures CurrentFrame(SparePart, selected).None?
  {
  }

  /** With the intended dispatch each menu item gets its own layout, the
      others keep the layout they get as written, and the standard layout is
      only ever reached with a frame that has columns, so the rollup succeeds. */
  lemma LayoutForMenu(selected: Frame)
    ensures forall c :: c in MenuItems ==> (LayoutFor(c) == SparePartLayout <==> c == SparePart)
    ensures forall c :: c in MenuItems && c != SparePart ==> LayoutFor(c) == LayoutAsWritten(c)
    ensures forall c :: LayoutFor(c) == StandardLayout ==> CurrentFrame(c, selected).Some?
  {
  }

  /** The overview table's figures: the value of each week column and their sum. */
  datatype Overview = Overview(weekValues: map<string, int>, total: int)

  /** The overview rollup of the standard layout: the value of each of W1..W4
      and their sum. Rows with any other week label (W5, or none) are in no
      column and not in the sum. On the column-less frame the first
      `df_curr['WEEK']` raises a KeyError that nothing catches: no overview. */
  method OverviewRollup(curr: Option<Frame>, cat: string) returns (r: Option<Overview>)
    ensures r.None? <==> curr.None?
    ensures r.Some? ==> forall w :: w in r.value.weekValues <==> w in WeekLabels
    ensures r.Some? ==> forall w :: w in WeekLabels ==> r.value.weekValues[w] == SliceValue(WeekSlice(curr.value, w), cat)
    ensures r.Some? ==> r.value.total == SliceValue(Frame(Where(curr.value.rows, WeekIn(WeekLabels)), curr.value.hasQty), cat)
  {
    match curr
    case None =>
      r := None;
    case Some(f) =>
      var weekValues, total := RollupWeeks(f, cat, WeekLabels);
      r := Some(Overview(weekValues, total));
  }

  /** No label occurs twice. */
  predicate Unique(labels: seq<string>)
  {
    forall j, k :: 0 <= j < k < |labels| ==> labels[j] != labels[k]
  }

  /** The rollup over a list of distinct week labels: each label gets the
      value of its week, and the running total is the value of the rows
      whose week is one of the labels. */
  method RollupWeeks(curr: Frame, cat: string, labels: seq<string>) returns (weekValues: map<string, int>, total: int)
    requires Unique(labels)
    ensures forall w :: w in weekValues <==> w in labels
    ensures forall w :: w in labels ==> weekValues[w] == SliceValue(WeekSlice(curr, w), cat)
    ensures total == SliceValue(Frame(Where(curr.rows, WeekIn(labels)), curr.hasQty), cat)
  {
    weekValues, total := RollupByLabel(labels, WeekValue(curr, cat));
    TotalAll(curr, cat, labels);
  }

  /** `for w in labels: val = f(w); w_vals[w] = val; curr_total += val`:
      the map holds exactly the labels, each with its value, and the total
      is the running sum over all of them. */
  method RollupByLabel(labels: seq<string>, f: string -> int) returns (table: map<string, int>, total: int)
    ensures forall w :: w in table <==> w in labels
    ensures forall w :: w in labels ==> table[w] == f(w)
    ensures total == SumUpTo(labels, f, |labels|)
  {
    table := map[];
    total := 0;
    var i := 0;
    while i < |labels|
      invariant 0 <= i <= |labels|
      invariant table == TabulatedUpTo(labels, f, i)
      invariant total == SumUpTo(labels, f, i)
    {
      var val := f(labels[i]);
      table := table[labels[i] := val];
      total := total + val;
      i := i + 1;
    }
    TabulatedUpToSpec(labels, f, |labels|);
    assert labels[..|labels|] == labels;
  }

  /** The value of one week's slice, as a function of the week label. */
  function WeekValue(curr: Frame, cat: string): (f: string -> int)
    ensures forall w :: f(w) == SliceValue(WeekSlice(curr, w), cat)
  {
    w => SliceValue(WeekSlice(curr, w), cat)
  }

  /** The running sum after the first `n` labels. */
  function SumUpTo(labels: seq<string>, f: string -> int, n: nat): int
    requires n <= |labels|
  {
    if n == 0 then 0 else SumUpTo(labels, f, n - 1) + f(labels[n - 1])
  }

  /** The table after the first `n` labels of a loop that stores `f(w)`
      under each label `w`. */
  function TabulatedUpTo<V>(labels: seq<string>, f: string -> V, n: nat): map<string, V>
    requires n <= |labels|
  {
    if n == 0 then map[] else TabulatedUpTo(labels, f, n - 1)[labels[n - 1] := f(labels[n - 1])]
  }

  /** After `n` steps the table holds exactly the first `n` labels, each
      with its value. */
  lemma {:induction false} TabulatedUpToSpec<V>(labels: seq<string>, f: string -> V, n: nat)
    requires n <= |labels|
    ensures forall w :: w in TabulatedUpTo(labels, f, n) <==> w in labels[..n]
    ensures forall w :: w in labels[..n] ==> TabulatedUpTo(labels, f, n)[w] == f(w)
  {
    if n > 0 {
      TabulatedUpToSpec(labels, f, n - 1);
      assert labels[..n] == labels[..n - 1] + [labels[n - 1]];
    }
  }

  /** The running sum over the first `n` distinct labels is the value of the
      rows whose week is one of them. */
  lemma {:induction false} TotalUpToSpec(curr: Frame, cat: string, labels: seq<string>, n: nat)
    requires n <= |labels|
    requires Unique(labels)
    ensures SumUpTo(labels, WeekValue(curr, cat), n) == Measure(Where(curr.rows, WeekIn(labels[..n])), CategoryMode(curr, cat))
  {
    if n == 0 {
      WhereNone(curr.rows, WeekIn(labels[..0]));
    } else {
      TotalUpToSpec(curr, cat, labels, n - 1);
      TotalStep(curr, cat, labels, n);
    }
  }

  /** One iteration adds the next label's value to both sides. */
  lemma TotalStep(curr: Frame, cat: string, labels: seq<string>, n: nat)
    requires 0 < n <= |labels|
    requires Unique(labels)
    requires SumUpTo(labels, WeekValue(curr, cat), n - 1) == Measure(Where(curr.rows, WeekIn(labels[..n - 1])), CategoryMode(curr, cat))
    ensures SumUpTo(labels, WeekValue(curr, cat), n) == Measure(Where(curr.rows, WeekIn(labels[..n])), CategoryMode(curr, cat))
  {
    RollupStep(curr, cat, labels, n - 1);
  }

  /** One more distinct label adds that week's value to the running total. */
  lemma RollupStep(curr: Frame, cat: string, labels: seq<string>, i: nat)
    requires i < |labels|
    requires Unique(labels)
    ensures Measure(Where(curr.rows, WeekIn(labels[..i + 1])), CategoryMode(curr, cat))
         == Measure(Where(curr.rows, WeekIn(labels[..i])), CategoryMode(curr, cat))
          + SliceValue(WeekSlice(curr, labels[i]), cat)
  {
    assert labels[..i + 1] == labels[..i] + [labels[i]];
    assert labels[i] !in labels[..i];
    MeasureDisjointUnion(curr.rows, CategoryMode(curr, cat), WeekIn(labels[..i]),
                         KeyIs(WeekOf, labels[i]), WeekIn(labels[..i + 1]));
  }

  /** The loop's sum once every label is done. */
  lemma TotalAll(curr: Frame, cat: string, labels: seq<string>)
    requires Unique(labels)
    ensures SumUpTo(labels, WeekValue(curr, cat), |labels|) == SliceValue(Frame(Where(curr.rows, WeekIn(labels)), curr.hasQty), cat)
  {
    TotalUpToSpec(curr, cat, labels, |labels|);
    assert labels[..|labels|] == labels;
  }

  /** `avg_val = curr_total / 4` and `prob_val = curr_total / 611 * 100`. */
  function OverviewRates(total: int): (r: (real, real))
    ensures r.0 * 4.0 == total as real
    ensures r.1 * FleetSize as real == total as real * 100.0
  {
    (total as real / 4.0, total as real / FleetSize as real * 100.0)
  }

  /** The overview total misses exactly the rows outside W1..W4: adding their
      value back gives the value of the whole month. */
  lemma OverviewMissesLateWeeks(curr: Frame, cat: string)
    ensures SliceValue(Frame(Where(curr.rows, WeekIn(WeekLabels)), curr.hasQty), cat)
          + SliceValue(Frame(Where(curr.rows, WeekOutside(WeekLabels)), curr.hasQty), cat)
         == SliceValue(curr, cat)
  {
    SliceValueSplit(curr, cat, WeekIn(WeekLabels), WeekOutside(WeekLabels));
  }

  /** The mask `~df['WEEK'].isin(ws)`. */
  function WeekOutside(ws: seq<string>): (p: Row -> bool)
    ensures forall r :: p(r) <==> r.week !in ws
  {
    (r: Row) => r.week !in ws
  }

  /** The mask `TEMP_W_NUM <= limit`, with TEMP_W_NUM the week map of the row. */
  function WeekWithin(limit: int): (p: Row -> bool)
    ensures forall r :: p(r) <==> WeekNumber(r.week) <= limit
  {
    (r: Row) => WeekNumber(r.week) <= limit
  }

  /** The week cutoff on the current month: unless the category is spare
      parts or the selection is "All Week", keep the rows whose mapped week
      number is at most the selected week's (an unknown selection keeps up to
      W4, and a label outside W1..W4 maps to 0). */
  function WeekCutoff(rows: seq<Row>, cat: string, sortWeek: string): (r: seq<Row>)
    ensures cat == SparePart || sortWeek == "All Week" ==> r == rows
    ensures forall x :: x in r <==> x in rows && (cat == SparePart || sortWeek == "All Week"
                                                  || WeekNumber(x.week) <= CutoffLimit(sortWeek))
    ensures forall x :: x in rows && x.week !in WeekLabels ==> x in r
    ensures multiset(r) <= multiset(rows)
    ensures cat != SparePart && sortWeek != "All Week" ==> r == Where(rows, WeekWithin(CutoffLimit(sortWeek)))
  {
    if cat != SparePart && sortWeek != "All Week" then
      WhereSubMultiset(rows, WeekWithin(CutoffLimit(sortWeek)));
      Where(rows, WeekWithin(CutoffLimit(sortWeek)))
    else rows
  }

  /** Cutting off twice at the same week is cutting off once. */
  lemma WeekCutoffIdempotent(rows: seq<Row>, cat: string, sortWeek: string)
    ensures WeekCutoff(WeekCutoff(rows, cat, sortWeek), cat, sortWeek) == WeekCutoff(rows, cat, sortWeek)
  {
    if cat != SparePart && sortWeek != "All Week" {
      var kept := WeekCutoff(rows, cat, sortWeek);
      WhereAll(kept, WeekWithin(CutoffLimit(sortWeek)));
    }
  }

  /** Selecting a later week keeps everything an earlier one keeps. */
  lemma WeekCutoffMonotone(rows: seq<Row>, cat: string, j: nat, k: nat)
    requires j <= k < |WeekLabels|
    ensures forall x :: x in WeekCutoff(rows, cat, WeekLabels[j]) ==> x in WeekCutoff(rows, cat, WeekLabels[k])
  {
    WeekNumberOfLabel(j);
    WeekNumberOfLabel(k);
  }

  /** `df['WEEK'].map(week_map).fillna(0)`: the TEMP_W_NUM column. */
  function WeekNumbers(rows: seq<Row>): (nums: seq<int>)
    ensures |nums| == |rows|
    ensures forall i :: 0 <= i < |rows| ==> nums[i] == WeekNumber(rows[i].week)
  {
    seq(|rows|, i requires 0 <= i < |rows| => WeekNumber(rows[i].week))
  }

  /** `df[df['TEMP_W_NUM'] <= limit]`: rows kept by a parallel numeric column. */
  function KeepAtMost(rows: seq<Row>, nums: seq<int>, limit: int): (r: seq<Row>)
    requires |nums| == |rows|
  {
    if rows == [] then []
    else (if nums[0] <= limit then [rows[0]] else []) + KeepAtMost(rows[1..], nums[1..], limit)
  }

  /** Filtering on the temporary column is filtering on the week map. */
  lemma {:induction false} KeepAtMostWeekNumbers(rows: seq<Row>, limit: int)
    ensures KeepAtMost(rows, WeekNumbers(rows), limit) == Where(rows, WeekWithin(limit))
  {
    if rows != [] {
      assert WeekNumbers(rows)[1..] == WeekNumbers(rows[1..]);
      KeepAtMostWeekNumbers(rows[1..], limit);
    }
  }

  /** `df_curr` while the cutoff runs: its rows, whether it carries the
      quantity column, and the temporary TEMP_W_NUM column, which exists only
      between the statements that add and drop it. */
  class CurrentSlice {
    var rows: seq<Row>
    var hasQty: bool
    var tempWeekNum: seq<int>

    constructor (f: Frame)
      ensures rows == f.rows && hasQty == f.hasQty && tempWeekNum == []
    {
      rows := f.rows;
      hasQty := f.hasQty;
      tempWeekNum := [];
    }

    /** The slice as a frame. */
    function AsFrame(): (f: Frame)
      reads this
      ensures f.rows == rows && f.hasQty == hasQty
    {
      Frame(rows, hasQty)
    }

    /** The week cutoff, in place: add TEMP_W_NUM, keep the rows within the
        limit, drop the column again. */
    method ApplyWeekCutoff(cat: string, sortWeek: string)
      modifies this
      ensures rows == WeekCutoff(old(rows), cat, sortWeek)
      ensures hasQty == old(hasQty)
      ensures tempWeekNum == old(tempWeekNum)
    {
      if cat != SparePart && sortWeek != "All Week" {
        var limit := CutoffLimit(sortWeek);
        if rows != [] {
          var saved := tempWeekNum;
          tempWeekNum := WeekNumbers(rows);
          KeepAtMostWeekNumbers(rows, limit);
          rows := KeepAtMost(rows, tempWeekNum, limit);
          tempWeekNum := saved;
        }
      }
    }
  }
}
