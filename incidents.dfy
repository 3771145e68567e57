/** The incident table both dashboards aggregate, and the two ways a slice of
    it becomes one number: counting rows, or summing the ticket quantity
    column JUMLAH_COMPLAIN. */
module Incidents {

  /** One row of the AIMS_Master sheet after loading.
      `tid` is TID, `branch` CABANG, `location` LOKASI, `category` KATEGORI,
      `month` the English month name (BULAN_EN / BULAN), `monthNum` MONTH_NUM,
      `week` the week label (WEEK) and `qty` JUMLAH_COMPLAIN. */
  datatype Row = Row(tid: string, branch: string, location: string, category: string,
                     month: string, monthNum: int, week: string, qty: int)

  /** A filtered data frame: its rows, and whether it carries the
      JUMLAH_COMPLAIN column (several rules test `'JUMLAH_COMPLAIN' in df.columns`). */
  datatype Frame = Frame(rows: seq<Row>, hasQty: bool)

  /** How a slice is measured: `len(df)` / `value_counts()` / `aggfunc='size'`,
      or `['JUMLAH_COMPLAIN'].sum()`. */
  datatype MetricMode = CountRows | SumQuantity

  /** Boolean-mask selection `df[mask]`: keeps the rows satisfying `p`, in order. */
  function Where<T(!new)>(s: seq<T>, p: T -> bool): (r: seq<T>)
    ensures |r| <= |s|
    ensures forall x :: x in r <==> x in s && p(x)
    ensures forall i :: 0 <= i < |r| ==> p(r[i])
  {
    if s == [] then []
    else
      assert s == [s[0]] + s[1..];
      (if p(s[0]) then [s[0]] else []) + Where(s[1..], p)
  }

  /** Selection keeps each row at most as often as the slice holds it. */
  lemma {:induction false} WhereSubMultiset<T(!new)>(s: seq<T>, p: T -> bool)
    ensures multiset(Where(s, p)) <= multiset(s)
  {
    if s != [] {
      WhereSubMultiset(s[1..], p);
      assert s == [s[0]] + s[1..];
    }
  }

  /** Selection distributes over concatenation. */
  lemma {:induction false} WhereAppend<T(!new)>(a: seq<T>, b: seq<T>, p: T -> bool)
    ensures Where(a + b, p) == Where(a, p) + Where(b, p)
  {
    if a != [] {
      assert (a + b)[0] == a[0] && (a + b)[1..] == a[1..] + b;
      WhereAppend(a[1..], b, p);
    } else {
      assert a + b == b;
    }
  }

  /** One step of the selection: the head row is kept exactly when it passes. */
  lemma WhereCons<T(!new)>(x: T, s: seq<T>, p: T -> bool)
    ensures Where([x] + s, p) == (if p(x) then [x] else []) + Where(s, p)
  {
    assert ([x] + s)[1..] == s;
  }

  /** A mask no element passes selects nothing. */
  lemma {:induction false} WhereNone<T(!new)>(s: seq<T>, p: T -> bool)
    requires forall j :: 0 <= j < |s| ==> !p(s[j])
    ensures Where(s, p) == []
  {
    if s != [] {
      WhereNone(s[1..], p);
    }
  }

  /** A mask exactly one position passes selects that element alone. */
  lemma {:induction false} WhereOnlyAt<T(!new)>(s: seq<T>, i: nat, p: T -> bool)
    requires i < |s| && p(s[i])
    requires forall j :: 0 <= j < |s| && j != i ==> !p(s[j])
    ensures Where(s, p) == [s[i]]
  {
    if i == 0 {
      WhereNone(s[1..], p);
      assert Where(s, p) == [s[0]] + Where(s[1..], p);
    } else {
      WhereOnlyAt(s[1..], i - 1, p);
      assert Where(s, p) == [] + Where(s[1..], p);
    }
  }

  /** The mask that keeps every row keeps the sequence unchanged. */
  lemma {:induction false} WhereAll<T(!new)>(s: seq<T>, p: T -> bool)
    requires forall x :: x in s ==> p(x)
    ensures Where(s, p) == s
  {
    if s != [] {
      WhereAll(s[1..], p);
    }
  }

  /** Moving one element onto either half of a split of `t` splits `[x] + t`. */
  lemma ConsSplit<T>(x: T, t: seq<T>, a: seq<T>, b: seq<T>, wp: seq<T>, wq: seq<T>)
    requires multiset(a) + multiset(b) == multiset(t)
    requires (wp == [x] + a && wq == b) || (wp == a && wq == [x] + b)
    ensures multiset(wp) + multiset(wq) == multiset([x] + t)
  {
  }

  /** A mask and its negation split a sequence into two parts that together
      hold every element exactly as often as it does. */
  lemma {:induction false} WherePartition<T(!new)>(s: seq<T>, p: T -> bool, q: T -> bool)
    requires forall x :: q(x) <==> !p(x)
    ensures multiset(Where(s, p)) + multiset(Where(s, q)) == multiset(s)
  {
    if s != [] {
      var x, t := s[0], s[1..];
      WherePartition(t, p, q);
      assert s == [x] + t;
      var a, b := Where(t, p), Where(t, q);
      if p(x) {
        assert Where(s, p) == [x] + a;
        assert Where(s, q) == b;
      } else {
        assert Where(s, q) == [x] + b;
        assert Where(s, p) == a;
      }
      ConsSplit(x, t, a, b, Where(s, p), Where(s, q));
    }
  }

  /** Two masks applied one after the other select what their conjunction
      selects, with the same rows in the same order. */
  lemma {:induction false} WhereWhere<T(!new)>(s: seq<T>, p: T -> bool, q: T -> bool, pq: T -> bool)
    requires forall x :: pq(x) <==> p(x) && q(x)
    ensures Where(Where(s, p), q) == Where(s, pq)
  {
    if s != [] {
      var x, rest := s[0], s[1..];
      assert s == [x] + rest;
      WhereWhere(rest, p, q, pq);
      var t := Where(rest, p);
      assert Where(s, pq) == (if pq(x) then [x] else []) + Where(rest, pq);
      if p(x) {
        assert Where(s, p) == [x] + t;
        WhereCons(x, t, q);
      } else {
        assert Where(s, p) == t;
        assert Where(s, pq) == Where(rest, pq);
      }
    }
  }

  /** `df[col].sum()` over JUMLAH_COMPLAIN. */
  function SumQty(rows: seq<Row>): int
  {
    if rows == [] then 0 else rows[0].qty + SumQty(rows[1..])
  }

  lemma {:induction false} SumQtyAppend(a: seq<Row>, b: seq<Row>)
    ensures SumQty(a + b) == SumQty(a) + SumQty(b)
  {
    if a != [] {
      assert (a + b)[0] == a[0] && (a + b)[1..] == a[1..] + b;
      SumQtyAppend(a[1..], b);
    } else {
      assert a + b == b;
    }
  }

  lemma SumQtyCons(x: Row, s: seq<Row>)
    ensures SumQty([x] + s) == x.qty + SumQty(s)
  {
    assert ([x] + s)[1..] == s;
  }

  /** A slice measured in the given mode. */
  function Measure(rows: seq<Row>, mode: MetricMode): int
  {
    match mode
    case CountRows => |rows|
    case SumQuantity => SumQty(rows)
  }

  lemma MeasureAppend(a: seq<Row>, b: seq<Row>, mode: MetricMode)
    ensures Measure(a + b, mode) == Measure(a, mode) + Measure(b, mode)
  {
    SumQtyAppend(a, b);
  }

  /** Splitting a slice by any mask splits its measure: the kept rows and the
      dropped rows together account for all of it. */
  lemma {:induction false} MeasureSplit(rows: seq<Row>, mode: MetricMode, p: Row -> bool, q: Row -> bool)
    requires forall r :: q(r) <==> !p(r)
    ensures Measure(rows, mode) == Measure(Where(rows, p), mode) + Measure(Where(rows, q), mode)
  {
    if rows != [] {
      MeasureSplit(rows[1..], mode, p, q);
      var h := if p(rows[0]) then [rows[0]] else [];
      var g := if q(rows[0]) then [rows[0]] else [];
      MeasureAppend(h, Where(rows[1..], p), mode);
      MeasureAppend(g, Where(rows[1..], q), mode);
      MeasureAppend([rows[0]], rows[1..], mode);
      assert rows == [rows[0]] + rows[1..];
    }
  }

  /** Two masks that no row passes together: the rows passing either one are
      measured by adding the two selections. */
  lemma {:induction false} MeasureDisjointUnion(rows: seq<Row>, mode: MetricMode,
                                                 p: Row -> bool, q: Row -> bool, either: Row -> bool)
    requires forall r :: either(r) <==> p(r) || q(r)
    requires forall r :: !(p(r) && q(r))
    ensures Measure(Where(rows, either), mode) == Measure(Where(rows, p), mode) + Measure(Where(rows, q), mode)
  {
    if rows != [] {
      MeasureDisjointUnion(rows[1..], mode, p, q, either);
      var x := rows[0];
      WhereCons(x, rows[1..], either);
      WhereCons(x, rows[1..], p);
      WhereCons(x, rows[1..], q);
      assert [x] + rows[1..] == rows;
      MeasureAppend(if either(x) then [x] else [], Where(rows[1..], either), mode);
      MeasureAppend(if p(x) then [x] else [], Where(rows[1..], p), mode);
      MeasureAppend(if q(x) then [x] else [], Where(rows[1..], q), mode);
    }
  }

  /** With every quantity equal to 1, summing quantities is counting rows. */
  lemma {:induction false} SumOfOnes(rows: seq<Row>)
    requires forall i :: 0 <= i < |rows| ==> rows[i].qty == 1
    ensures SumQty(rows) == |rows|
  {
    if rows != [] {
      SumOfOnes(rows[1..]);
    }
  }

  /** The mask `df[key] == k`. */
  function KeyIs<K(==)>(key: Row -> K, k: K): (p: Row -> bool)
    ensures forall r :: p(r) <==> key(r) == k
  {
    r => key(r) == k
  }

  /** The mask `df['WEEK'].isin(ws)`. */
  function WeekIn(ws: seq<string>): (p: Row -> bool)
    ensures forall r :: p(r) <==> r.week in ws
  {
    (r: Row) => r.week in ws
  }

  /** The distinct values of a column, as a set (`set(df[col])`). */
  function Image<K(==)>(rows: seq<Row>, key: Row -> K): (ks: set<K>)
    ensures forall r :: r in rows ==> key(r) in ks
    ensures forall k :: k in ks ==> exists r :: r in rows && key(r) == k
  {
    set r | r in rows :: key(r)
  }

  /** The mask `df[key].isin(ks)`. */
  function KeyIn<K(==)>(key: Row -> K, ks: seq<K>): (p: Row -> bool)
    ensures forall r :: p(r) <==> key(r) in ks
  {
    r => key(r) in ks
  }

  /** The measures of the groups `ks`, one per key, added up (a pivot row
      summed across its columns). */
  function SumOver<K(==)>(rows: seq<Row>, key: Row -> K, ks: seq<K>, mode: MetricMode): int
  {
    if ks == [] then 0
    else SumOver(rows, key, ks[..|ks| - 1], mode) + Measure(Where(rows, KeyIs(key, ks[|ks| - 1])), mode)
  }

  /** Adding up the groups of distinct keys measures the rows whose key is
      one of them: no row is counted twice and none is lost. */
  lemma {:induction false} SumOverKeys<K>(rows: seq<Row>, key: Row -> K, ks: seq<K>, mode: MetricMode)
    requires forall i, j :: 0 <= i < j < |ks| ==> ks[i] != ks[j]
    ensures SumOver(rows, key, ks, mode) == Measure(Where(rows, KeyIn(key, ks)), mode)
  {
    if ks == [] {
      WhereNone(rows, KeyIn(key, ks));
    } else {
      var init := ks[..|ks| - 1];
      var last := ks[|ks| - 1];
      SumOverKeys(rows, key, init, mode);
      assert ks == init + [last];
      forall r ensures !(KeyIn(key, init)(r) && KeyIs(key, last)(r)) {
        if key(r) in init {
          var i :| 0 <= i < |init| && init[i] == key(r);
          assert ks[i] == init[i];
        }
      }
      MeasureDisjointUnion(rows, mode, KeyIn(key, init), KeyIs(key, last), KeyIn(key, ks));
    }
  }

  /** Column selectors used as group keys. */
  function TidOf(r: Row): string { r.tid }
  function BranchOf(r: Row): string { r.branch }
  function WeekOf(r: Row): string { r.week }

  /** `df['TID'].nunique()`. */
  function Tids(rows: seq<Row>): set<string>
  {
    Image(rows, TidOf)
  }

  /** The distinct values are those of the first row and of the rest. */
  lemma ImageCons<K>(rows: seq<Row>, key: Row -> K)
    requires rows != []
    ensures Image(rows, key) == {key(rows[0])} + Image(rows[1..], key)
  {
    forall k | k in Image(rows, key) ensures k == key(rows[0]) || k in Image(rows[1..], key) {
      var r :| r in rows && key(r) == k;
      if r != rows[0] {
        assert r in rows[1..];
      }
    }
  }

  /** A column has no more distinct values than the slice has rows. */
  lemma {:induction false} ImageBound<K>(rows: seq<Row>, key: Row -> K)
    ensures |Image(rows, key)| <= |rows|
  {
    if rows != [] {
      ImageBound(rows[1..], key);
      ImageCons(rows, key);
    }
  }

  /** `groupby(key)` followed by the mode's aggregate: one entry per distinct
      key, holding the measure of the rows with that key. */
  function GroupTotals<K(==)>(rows: seq<Row>, key: Row -> K, mode: MetricMode): (m: map<K, int>)
    ensures m.Keys == Image(rows, key)
  {
    map k | k in Image(rows, key) :: Measure(Where(rows, KeyIs(key, k)), mode)
  }

  /** The total of a key present is the measure of that key's rows. */
  lemma GroupTotalsAt<K>(rows: seq<Row>, key: Row -> K, mode: MetricMode, k: K)
    requires k in Image(rows, key)
    ensures GroupTotals(rows, key, mode)[k] == Measure(Where(rows, KeyIs(key, k)), mode)
  {
  }

  /** In row-count mode no group is empty: every key present counts at least 1. */
  lemma GroupCountPositive<K>(rows: seq<Row>, key: Row -> K, k: K)
    requires k in GroupTotals(rows, key, CountRows)
    ensures GroupTotals(rows, key, CountRows)[k] >= 1
  {
    var r :| r in rows && key(r) == k;
    assert r in Where(rows, KeyIs(key, k));
  }

  /** The values of `s` without repeats, listed in order of first
      appearance. A pivot table's index holds the same values, sorted; the
      model keeps this order because nothing it proves depends on it. */
  function Distinct<K(==,!new)>(s: seq<K>): (r: seq<K>)
    ensures forall x :: x in r <==> x in s
    ensures forall i, j :: 0 <= i < j < |r| ==> r[i] != r[j]
  {
    if s == [] then []
    else
      var rest := Distinct(s[..|s| - 1]);
      if s[|s| - 1] in rest then rest else rest + [s[|s| - 1]]
  }

  /** `df[key]` as a sequence, one entry per row. */
  function Column<K>(rows: seq<Row>, key: Row -> K): (r: seq<K>)
    ensures |r| == |rows|
    ensures forall i :: 0 <= i < |rows| ==> r[i] == key(rows[i])
  {
    seq(|rows|, i requires 0 <= i < |rows| => key(rows[i]))
  }
}
