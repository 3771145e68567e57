/** The client dashboard's header ticker: month-over-month and
    period-over-period deltas with the percent-change zero guard, the
    recurring terminals of two consecutive weeks, and the branch and terminal
    trend tables from which the largest rise and the largest drop are picked. */
module Trends {
  import opened Text
  import opened Incidents
  import opened Periods
  import opened Tiers
  import opened ClientView

  /** `(d / v0 * 100) if v0 > 0 else 100.0 if v1 > 0 else 0.0`: the percent
      change from `prev` to `curr`, never dividing by zero. */
  function PctChange(curr: int, prev: int): real
  {
    if prev > 0 then (curr - prev) as real / prev as real * 100.0
    else if curr > 0 then 100.0
    else 0.0
  }

  /** The three cases of the guard: the change relative to a positive
      previous value, 100% from nothing to something, 0% otherwise. */
  lemma PctChangeCases(curr: int, prev: int)
    ensures prev > 0 ==> PctChange(curr, prev) * prev as real == (curr - prev) as real * 100.0
    ensures prev <= 0 && curr > 0 ==> PctChange(curr, prev) == 100.0
    ensures prev <= 0 && curr <= 0 ==> PctChange(curr, prev) == 0.0
  {
  }

  /** With a non-negative previous value the change is positive exactly
      when the value rose, and negative exactly when it fell. */
  lemma PctChangeSign(curr: int, prev: int)
    requires prev >= 0
    ensures PctChange(curr, prev) > 0.0 <==> curr > prev
    ensures PctChange(curr, prev) < 0.0 <==> curr < prev && prev > 0
  {
    if prev > 0 {
      var p := PctChange(curr, prev);
      var d := (curr - prev) as real * 100.0;
      PctChangeCases(curr, prev);
      assert p * prev as real == d;
      if p > 0.0 {
        assert p * prev as real > 0.0;
      } else if p < 0.0 {
        assert p * prev as real < 0.0;
      } else {
        assert p * prev as real == 0.0;
      }
    }
  }

  /** Counts never fall by more than everything: for non-negative values the
      change is at least -100%. */
  lemma PctChangeAtLeastMinus100(curr: int, prev: int)
    requires curr >= 0 && prev >= 0
    ensures PctChange(curr, prev) >= -100.0
  {
    if prev > 0 {
      var p := PctChange(curr, prev);
      PctChangeCases(curr, prev);
      assert (p + 100.0) * prev as real == curr as real * 100.0;
      ProductSign(p + 100.0, prev as real);
    }
  }

  /** A product with a positive factor has the sign of the other factor. */
  lemma ProductSign(x: real, y: real)
    requires y > 0.0 && x * y >= 0.0
    ensures x >= 0.0
  {
  }

  /** One delta line of the ticker: current value, previous value, their
      difference and its percent change. */
  datatype Delta = Delta(curr: int, prev: int, diff: int, pct: real)

  function DeltaOf(curr: int, prev: int): Delta
  {
    Delta(curr, prev, curr - prev, PctChange(curr, prev))
  }

  /** `diff_str` of the summary line: a plus sign before a rise, `str`
      otherwise. The sign tells the direction and the digits read back as
      the size of the change. */
  function DiffLabel(diff: int): (r: string)
    ensures |r| >= 1
    ensures r[0] == '+' <==> diff > 0
    ensures r[0] == '-' <==> diff < 0
    ensures diff == 0 ==> r == "0"
    ensures diff != 0 ==> ParseNat(r[1..]) == Some(if diff > 0 then diff else -diff)
  {
    if diff > 0 then
      assert ("+" + IntToString(diff))[1..] == IntToString(diff);
      "+" + IntToString(diff)
    else IntToString(diff)
  }

  /** `series.get(key, 0)`. */
  function Get(m: map<string, int>, k: string): int
  {
    if k in m then m[k] else 0
  }

  /** `set(curr.index).union(set(prev.index))`. */
  function Union(curr: map<string, int>, prev: map<string, int>): set<string>
  {
    curr.Keys + prev.Keys
  }

  /** One entry of `c_diffs` / `t_diffs`. */
  datatype TrendRow = TrendRow(key: string, diff: int, pct: real, val: int)

  /** The entry the loop appends for key `k`: a side without `k` counts 0. */
  function TrendOf(curr: map<string, int>, prev: map<string, int>, k: string): (t: TrendRow)
    ensures t.key == k
    ensures k !in prev ==> t.diff == t.val
    ensures k !in curr ==> t.val == 0 && t.diff == -Get(prev, k)
  {
    TrendRow(k, Get(curr, k) - Get(prev, k), PctChange(Get(curr, k), Get(prev, k)), Get(curr, k))
  }

  /** A trend table for `curr` against `prev`: one entry per key of either
      side, no key twice, each entry the one `TrendOf` gives. */
  predicate IsTrendTable(curr: map<string, int>, prev: map<string, int>, rows: seq<TrendRow>)
  {
    && (forall i :: 0 <= i < |rows| ==> rows[i].key in Union(curr, prev) && rows[i] == TrendOf(curr, prev, rows[i].key))
    && (forall k :: k in Union(curr, prev) ==> exists i :: 0 <= i < |rows| && rows[i].key == k)
    && (forall i, j :: 0 <= i < j < |rows| ==> rows[i].key != rows[j].key)
  }

  /** The visiting order of `for c in s`: every element once, in an order
      the model leaves open. */
  method Enumerate(s: set<string>) returns (keys: seq<string>)
    ensures forall x :: x in keys <==> x in s
    ensures forall i, j :: 0 <= i < j < |keys| ==> keys[i] != keys[j]
    ensures |keys| == |s|
  {
    var todo := s;
    keys := [];
    while todo != {}
      invariant todo <= s
      invariant forall x :: x in keys <==> x in s && x !in todo
      invariant forall i, j :: 0 <= i < j < |keys| ==> keys[i] != keys[j]
      invariant |keys| + |todo| == |s|
      decreases |todo|
    {
      var k :| k in todo;
      keys := keys + [k];
      todo := todo - {k};
    }
  }

  /** The trend entries of `keys`, in that order. */
  function Table(curr: map<string, int>, prev: map<string, int>, keys: seq<string>): seq<TrendRow>
  {
    if keys == [] then [] else Table(curr, prev, keys[..|keys| - 1]) + [TrendOf(curr, prev, keys[|keys| - 1])]
  }

  /** Entry `j` of the table is the entry of key `j`. */
  lemma {:induction false} TableSpec(curr: map<string, int>, prev: map<string, int>, keys: seq<string>)
    ensures |Table(curr, prev, keys)| == |keys|
    ensures forall j :: 0 <= j < |keys| ==> Table(curr, prev, keys)[j] == TrendOf(curr, prev, keys[j])
  {
    if keys != [] {
      TableSpec(curr, prev, keys[..|keys| - 1]);
    }
  }

  /** Appending `TrendOf` for each key in turn builds `Table`. */
  method AppendTrends(curr: map<string, int>, prev: map<string, int>, keys: seq<string>) returns (rows: seq<TrendRow>)
    ensures rows == Table(curr, prev, keys)
  {
    rows := [];
    var i := 0;
    while i < |keys|
      invariant 0 <= i <= |keys|
      invariant rows == Table(curr, prev, keys[..i])
    {
      assert keys[..i + 1][..i] == keys[..i];
      rows := rows + [TrendOf(curr, prev, keys[i])];
      i := i + 1;
    }
    assert keys[..i] == keys;
  }

  /** The table over an enumeration of the key union is a trend table. */
  lemma TableOfUnion(curr: map<string, int>, prev: map<string, int>, keys: seq<string>)
    requires forall x :: x in keys <==> x in Union(curr, prev)
    requires forall i, j :: 0 <= i < j < |keys| ==> keys[i] != keys[j]
    ensures IsTrendTable(curr, prev, Table(curr, prev, keys))
  {
    var rows := Table(curr, prev, keys);
    TableSpec(curr, prev, keys);
    forall x | x in Union(curr, prev)
      ensures exists j :: 0 <= j < |rows| && rows[j].key == x
    {
      var j :| 0 <= j < |keys| && keys[j] == x;
      assert rows[j].key == x;
    }
  }

  /** The loop `for c in all_cabs: ... c_diffs.append(...)`, over the key
      union in an order the model leaves open. */
  method TrendDiffs(curr: map<string, int>, prev: map<string, int>) returns (rows: seq<TrendRow>)
    ensures IsTrendTable(curr, prev, rows)
    ensures |rows| == |Union(curr, prev)|
  {
    var keys := Enumerate(Union(curr, prev));
    rows := AppendTrends(curr, prev, keys);
    TableSpec(curr, prev, keys);
    TableOfUnion(curr, prev, keys);
  }

  /** `Get(curr, k) - Get(prev, k)`: the DIFF of key `k`. */
  function Diff(curr: map<string, int>, prev: map<string, int>, k: string): int
  {
    Get(curr, k) - Get(prev, k)
  }

  /** The reported rise: present exactly when some key rose, and then the
      entry of a key whose rise is the largest. */
  predicate RiseSpec(curr: map<string, int>, prev: map<string, int>, r: Option<TrendRow>)
  {
    && (r.Some? <==> exists k :: k in Union(curr, prev) && Diff(curr, prev, k) > 0)
    && (r.Some? ==> r.value.key in Union(curr, prev) && r.value == TrendOf(curr, prev, r.value.key)
                    && forall k :: k in Union(curr, prev) ==> Diff(curr, prev, k) <= r.value.diff)
  }

  /** The reported drop: present exactly when some key fell, and then the
      entry of a key whose fall is the largest. */
  predicate DropSpec(curr: map<string, int>, prev: map<string, int>, r: Option<TrendRow>)
  {
    && (r.Some? <==> exists k :: k in Union(curr, prev) && Diff(curr, prev, k) < 0)
    && (r.Some? ==> r.value.key in Union(curr, prev) && r.value == TrendOf(curr, prev, r.value.key)
                    && forall k :: k in Union(curr, prev) ==> Diff(curr, prev, k) >= r.value.diff)
  }

  /** `sort_values('DIFF', ascending=False).iloc[0]`: an index of a largest
      DIFF (which of several equal ones the sort puts first is left open). */
  function MaxDiffIndex(rows: seq<TrendRow>): (i: nat)
    requires rows != []
    ensures i < |rows|
    ensures forall j :: 0 <= j < |rows| ==> rows[j].diff <= rows[i].diff
  {
    if |rows| == 1 then 0
    else
      var m := MaxDiffIndex(rows[1..]) + 1;
      if rows[0].diff >= rows[m].diff then 0 else m
  }

  /** `sort_values('DIFF', ascending=True).iloc[0]`: an index of a smallest
      DIFF. */
  function MinDiffIndex(rows: seq<TrendRow>): (i: nat)
    requires rows != []
    ensures i < |rows|
    ensures forall j :: 0 <= j < |rows| ==> rows[j].diff >= rows[i].diff
  {
    if |rows| == 1 then 0
    else
      var m := MinDiffIndex(rows[1..]) + 1;
      if rows[0].diff <= rows[m].diff then 0 else m
  }

  /** The "largest rise" line: the top of the descending sort, reported only
      when its DIFF is positive. */
  function PickRise(rows: seq<TrendRow>): (r: Option<TrendRow>)
    ensures r.Some? <==> exists i :: 0 <= i < |rows| && rows[i].diff > 0
    ensures r.Some? ==> r.value in rows && forall i :: 0 <= i < |rows| ==> rows[i].diff <= r.value.diff
  {
    if rows == [] then None
    else
      var top := rows[MaxDiffIndex(rows)];
      if top.diff > 0 then Some(top) else None
  }

  /** The "largest drop" line: the top of the ascending sort, reported only
      when its DIFF is negative. */
  function PickDrop(rows: seq<TrendRow>): (r: Option<TrendRow>)
    ensures r.Some? <==> exists i :: 0 <= i < |rows| && rows[i].diff < 0
    ensures r.Some? ==> r.value in rows && forall i :: 0 <= i < |rows| ==> rows[i].diff >= r.value.diff
  {
    if rows == [] then None
    else
      var top := rows[MinDiffIndex(rows)];
      if top.diff < 0 then Some(top) else None
  }

  /** Each entry of a trend table is a key of either side, with that key's
      DIFF. */
  lemma TableEntry(curr: map<string, int>, prev: map<string, int>, rows: seq<TrendRow>, i: nat)
    requires IsTrendTable(curr, prev, rows) && i < |rows|
    ensures rows[i].key in Union(curr, prev) && rows[i] == TrendOf(curr, prev, rows[i].key)
    ensures rows[i].diff == Diff(curr, prev, rows[i].key)
  {
  }

  /** Every key of either side has an entry in a trend table. */
  lemma TableRowOf(curr: map<string, int>, prev: map<string, int>, rows: seq<TrendRow>, k: string) returns (i: nat)
    requires IsTrendTable(curr, prev, rows) && k in Union(curr, prev)
    ensures i < |rows| && rows[i].key == k && rows[i].diff == Diff(curr, prev, k)
  {
    var j :| 0 <= j < |rows| && rows[j].key == k;
    i := j;
    TableEntry(curr, prev, rows, i);
  }

  /** Picking from a trend table reports the largest rise over all keys of
      either side, whatever order the table was built in. */
  lemma PickRiseOnTable(curr: map<string, int>, prev: map<string, int>, rows: seq<TrendRow>)
    requires IsTrendTable(curr, prev, rows)
    ensures RiseSpec(curr, prev, PickRise(rows))
  {
    var r := PickRise(rows);
    if exists k :: k in Union(curr, prev) && Diff(curr, prev, k) > 0 {
      var k :| k in Union(curr, prev) && Diff(curr, prev, k) > 0;
      var i := TableRowOf(curr, prev, rows, k);
    }
    if r.Some? {
      var i :| 0 <= i < |rows| && rows[i] == r.value;
      TableEntry(curr, prev, rows, i);
      forall k | k in Union(curr, prev)
        ensures Diff(curr, prev, k) <= r.value.diff
      {
        var j := TableRowOf(curr, prev, rows, k);
      }
    }
  }

  /** Picking from a trend table reports the largest drop over all keys of
      either side, whatever order the table was built in. */
  lemma PickDropOnTable(curr: map<string, int>, prev: map<string, int>, rows: seq<TrendRow>)
    requires IsTrendTable(curr, prev, rows)
    ensures DropSpec(curr, prev, PickDrop(rows))
  {
    var r := PickDrop(rows);
    if exists k :: k in Union(curr, prev) && Diff(curr, prev, k) < 0 {
      var k :| k in Union(curr, prev) && Diff(curr, prev, k) < 0;
      var i := TableRowOf(curr, prev, rows, k);
    }
    if r.Some? {
      var i :| 0 <= i < |rows| && rows[i] == r.value;
      TableEntry(curr, prev, rows, i);
      forall k | k in Union(curr, prev)
        ensures Diff(curr, prev, k) >= r.value.diff
      {
        var j := TableRowOf(curr, prev, rows, k);
      }
    }
  }

  /** A rise and a drop are never the same line: one has a positive DIFF,
      the other a negative one. */
  lemma RiseAndDropDiffer(rows: seq<TrendRow>)
    requires PickRise(rows).Some? && PickDrop(rows).Some?
    ensures PickRise(rows).value.diff > 0 > PickDrop(rows).value.diff
  {
    var i :| 0 <= i < |rows| && rows[i].diff > 0;
    var j :| 0 <= j < |rows| && rows[j].diff < 0;
  }

  /** `agg_branch` / `agg_tid` on a scope. `None` stands for the column-less
      `pd.DataFrame()`, on which `df_in['CABANG']` raises a KeyError. */
  function Agg(scope: Option<Frame>, cat: string, key: Row -> string): (r: Option<map<string, int>>)
    ensures r.None? <==> scope.None?
    ensures scope.Some? ==> r.value.Keys == Image(scope.value.rows, key)
  {
    match scope
    case None => None
    case Some(f) =>
      if cat == "Complain" && f.hasQty then Some(GroupTotals(f.rows, key, SumQuantity))
      else Some(GroupTotals(f.rows, key, CountRows))
  }

  /** Each aggregated entry is the slice value of that key's rows, so the
      ticker's VAL agrees with the header totals. */
  lemma AggIsSliceValue(f: Frame, cat: string, key: Row -> string, k: string)
    requires k in Image(f.rows, key)
    ensures Agg(Some(f), cat, key).value[k] == SliceValue(Frame(Where(f.rows, KeyIs(key, k)), f.hasQty), cat)
  {
    var mode := CategoryMode(f, cat);
    AggByMode(f, cat, key);
    GroupTotalsAt(f.rows, key, mode, k);
    var g := Frame(Where(f.rows, KeyIs(key, k)), f.hasQty);
    assert CategoryMode(g, cat) == mode;
  }

  /** The aggregation groups with the category's metric mode. */
  lemma AggByMode(f: Frame, cat: string, key: Row -> string)
    ensures Agg(Some(f), cat, key) == Some(GroupTotals(f.rows, key, CategoryMode(f, cat)))
  {
  }

  /** `get_val_safe` on a scope: the column-less frame is empty and gives 0. */
  function ScopeValue(scope: Option<Frame>, cat: string): (v: int)
    ensures scope.None? ==> v == 0
    ensures scope.Some? ==> v == Measure(scope.value.rows, CategoryMode(scope.value, cat))
  {
    match scope
    case None => 0
    case Some(f) => SliceValue(f, cat)
  }

  /** The recurring terminals: in weekly mode, with both weeks non-empty,
      the TIDs present in both; otherwise none. */
  function RecurringTids(weekly: bool, curr: Frame, prev: Option<Frame>): (r: set<string>)
    ensures r <= Tids(curr.rows)
    ensures prev.Some? ==> r <= Tids(prev.value.rows)
  {
    if weekly && curr.rows != [] && prev.Some? && prev.value.rows != [] then Tids(curr.rows) * Tids(prev.value.rows)
    else {}
  }

  /** A terminal recurs exactly when, in weekly mode, it has a ticket in
      this week and one in the week before. */
  lemma RecurringMeansBothWeeks(weekly: bool, curr: Frame, prev: Frame, t: string)
    ensures t in RecurringTids(weekly, curr, Some(prev))
        <==> weekly && (exists r :: r in curr.rows && r.tid == t) && (exists r :: r in prev.rows && r.tid == t)
  {
    if weekly && (exists r :: r in curr.rows && r.tid == t) && (exists r :: r in prev.rows && r.tid == t) {
      var a :| a in curr.rows && a.tid == t;
      var b :| b in prev.rows && b.tid == t;
      assert TidOf(a) == t && TidOf(b) == t;
    }
  }

  /** `get_loc_info`: the location and branch of the first target row with
      that TID, or nothing ("Lokasi N/A"). */
  function LocInfo(target: seq<Row>, tid: string): (r: Option<(string, string)>)
    ensures r.None? <==> forall x :: x in target ==> x.tid != tid
    ensures r.Some? ==> exists i :: 0 <= i < |target| && FirstWithTid(target, tid, i)
                                    && r.value == (target[i].location, target[i].branch)
  {
    if target == [] then None
    else if target[0].tid == tid then Some((target[0].location, target[0].branch))
    else
      FirstWithTidShift(target, tid);
      LocInfo(target[1..], tid)
  }

  /** Past a first row with another TID, the first row with `tid` moves
      one place down. */
  lemma FirstWithTidShift(target: seq<Row>, tid: string)
    requires target != [] && target[0].tid != tid
    ensures forall i :: 0 <= i < |target| - 1 && FirstWithTid(target[1..], tid, i)
                        ==> FirstWithTid(target, tid, i + 1) && target[i + 1] == target[1..][i]
  {
  }

  /** Row `i` is the first row of `target` with that TID (`iloc[0]`). */
  predicate FirstWithTid(target: seq<Row>, tid: string, i: nat)
    requires i < |target|
  {
    target[i].tid == tid && forall j :: 0 <= j < i ==> target[j].tid != tid
  }

  /** The month slice `df_target[df_target['BULAN_EN'] == month]`. */
  function MonthSlice(target: Frame, month: string): (g: Frame)
    ensures g.hasQty == target.hasQty
    ensures g.rows == Where(target.rows, (r: Row) => r.month == month)
    ensures forall x :: x in g.rows <==> x in target.rows && x.month == month
  {
    Frame(Where(target.rows, (r: Row) => r.month == month), target.hasQty)
  }

  /** `h_prev_mon`: the month before, or "" for an unknown name. */
  function PrevMonthOrBlank(month: string): (r: string)
    ensures r == "" <==> month !in Months
    ensures r != "" ==> r in Months
  {
    NoBlankMonth();
    match PrevMonthFullEn(month)
    case None => ""
    case Some(m) => m
  }

  /** The two scopes the summary and the trends compare. In weekly mode the
      current scope is the selected week of this month and the previous
      scope the week before it of the same month, which is the column-less
      frame (`None`) when that label is ""; in monthly mode the two months. */
  function Scopes(target: Frame, month: string, week: string): (s: (Frame, Option<Frame>))
    ensures week != "All Week" && PrevWeekLabel(week) == "" ==> s.1.None?
    ensures week == "All Week" ==> s == (MonthSlice(target, month), Some(MonthSlice(target, PrevMonthOrBlank(month))))
  {
    var currM := MonthSlice(target, month);
    if week != "All Week" then
      var prevW := PrevWeekLabel(week);
      (WeekSlice(currM, week), if prevW != "" then Some(WeekSlice(currM, prevW)) else None)
    else (currM, Some(MonthSlice(target, PrevMonthOrBlank(month))))
  }

  /** The same scopes with "no previous week" read as an empty previous
      week: the frame keeps the columns, so the aggregations see no rows. */
  function ScopesCorrected(target: Frame, month: string, week: string): (s: (Frame, Option<Frame>))
    ensures s.1.Some?
    ensures Scopes(target, month, week).1.Some? ==> s == Scopes(target, month, week)
    ensures s.1.value.hasQty == target.hasQty
  {
    var s := Scopes(target, month, week);
    if s.1.Some? then s else (s.0, Some(Frame([], target.hasQty)))
  }

  /** The previous scope is missing exactly in weekly mode for a week with no
      predecessor: "W1", "W0", or a label whose digits do not parse. */
  lemma ScopesMissingPrevious(target: Frame, month: string, week: string)
    ensures Scopes(target, month, week).1.None? <==> week != "All Week" && PrevWeekLabel(week) == ""
  {
  }

  /** The first week has no predecessor. */
  lemma FirstWeekHasNoPrevious()
    ensures PrevWeekLabel("W1") == ""
  {
    PrevWeekOf(1);
    assert "W" + NatToString(1) == "W1";
  }

  /** What the header ticker shows besides the global fleet line. */
  datatype Ticker =
    | Syncing   // an exception replaced the whole ticker by "System Syncing"
    | Quiet     // empty target: only the GLOBAL ASSETS line
    | Report(monthly: Delta, summary: Delta, recurring: set<string>,
             branchRise: Option<TrendRow>, branchDrop: Option<TrendRow>,
             tidRise: Option<TrendRow>, tidDrop: Option<TrendRow>)

  /** What a report says for the given current and previous scopes. */
  predicate ReportSpec(t: Ticker, target: Frame, month: string, week: string, cat: string,
                       curr: Frame, prev: Frame)
    requires t.Report?
  {
    var bc := Agg(Some(curr), cat, BranchOf).value;
    var bp := Agg(Some(prev), cat, BranchOf).value;
    var tc := Agg(Some(curr), cat, TidOf).value;
    var tp := Agg(Some(prev), cat, TidOf).value;
    && t.monthly == DeltaOf(SliceValue(MonthSlice(target, month), cat),
                            SliceValue(MonthSlice(target, PrevMonthOrBlank(month)), cat))
    && t.summary == DeltaOf(SliceValue(curr, cat), SliceValue(prev, cat))
    && t.recurring == RecurringTids(week != "All Week", curr, Some(prev))
    && RiseSpec(bc, bp, t.branchRise) && DropSpec(bc, bp, t.branchDrop)
    && RiseSpec(tc, tp, t.tidRise) && DropSpec(tc, tp, t.tidDrop)
  }

  /** The ticker once the scopes are known. A missing previous scope makes
      `agg_branch` raise, and the handler replaces everything. */
  method TickerOn(target: Frame, month: string, week: string, cat: string,
                  curr: Frame, prev: Option<Frame>) returns (t: Ticker)
    requires target.rows != []
    ensures t.Syncing? <==> prev.None?
    ensures !t.Quiet?
    ensures t.Report? ==> ReportSpec(t, target, month, week, cat, curr, prev.value)
  {
    if prev.None? {
      return Syncing;
    }
    var p := prev.value;
    var monthly := DeltaOf(SliceValue(MonthSlice(target, month), cat),
                           SliceValue(MonthSlice(target, PrevMonthOrBlank(month)), cat));
    var summary := DeltaOf(SliceValue(curr, cat), ScopeValue(prev, cat));
    var recurring := RecurringTids(week != "All Week", curr, prev);
    var bc := Agg(Some(curr), cat, BranchOf).value;
    var bp := Agg(prev, cat, BranchOf).value;
    var branchRows := TrendDiffs(bc, bp);
    PickRiseOnTable(bc, bp, branchRows);
    PickDropOnTable(bc, bp, branchRows);
    var tc := Agg(Some(curr), cat, TidOf).value;
    var tp := Agg(prev, cat, TidOf).value;
    var tidRows := TrendDiffs(tc, tp);
    PickRiseOnTable(tc, tp, tidRows);
    PickDropOnTable(tc, tp, tidRows);
    t := Report(monthly, summary, recurring, PickRise(branchRows), PickDrop(branchRows),
                PickRise(tidRows), PickDrop(tidRows));
  }

  /** The header ticker as written: nothing beyond the fleet line for an
      empty target, and "System Syncing" in weekly mode whenever the selected
      week has no predecessor, "W1" included. */
  method HeaderTicker(target: Frame, month: string, week: string, cat: string) returns (t: Ticker)
    ensures target.rows == [] <==> t == Quiet
    ensures t.Syncing? <==> target.rows != [] && week != "All Week" && PrevWeekLabel(week) == ""
    ensures t.Report? ==> ReportSpec(t, target, month, week, cat,
                                     Scopes(target, month, week).0, Scopes(target, month, week).1.value)
  {
    if target.rows == [] {
      return Quiet;
    }
    var s := Scopes(target, month, week);
    ScopesMissingPrevious(target, month, week);
    t := TickerOn(target, month, week, cat, s.0, s.1);
  }

  /** The header ticker with the first week compared against an empty
      previous week: it never falls back to "System Syncing", and otherwise
      reports what the code as written reports. */
  method HeaderTickerCorrected(target: Frame, month: string, week: string, cat: string) returns (t: Ticker)
    ensures target.rows == [] <==> t == Quiet
    ensures !t.Syncing?
    ensures t.Report? ==> ReportSpec(t, target, month, week, cat,
                                     ScopesCorrected(target, month, week).0, ScopesCorrected(target, month, week).1.value)
  {
    if target.rows == [] {
      return Quiet;
    }
    var s := ScopesCorrected(target, month, week);
    t := TickerOn(target, month, week, cat, s.0, s.1);
  }

  /** Corrected, the first week of a month reports every one of its rows as
      a rise against nothing: its summary delta is its whole value. */
  lemma CorrectedFirstWeekSummary(target: Frame, month: string, cat: string)
    ensures ScopesCorrected(target, month, "W1").1 == Some(Frame([], target.hasQty))
    ensures ScopeValue(ScopesCorrected(target, month, "W1").1, cat) == 0
  {
    FirstWeekHasNoPrevious();
  }
}
