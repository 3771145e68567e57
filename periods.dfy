/** Period rules: the intra-month week bucket, the previous month (two
    variants: by English name with a January wrap, and by month number
    without one) and the previous week label. */
module Periods {
  import opened Text

  /** A day of the month as `Timestamp.day` yields it. */
  type Day = d: int | 1 <= d <= 31 witness 1

  /** A calendar month number as `Timestamp.month` yields it. */
  type MonthNum = m: int | 1 <= m <= 12 witness 1

  /** `'W' + str((day - 1) // 7 + 1)`: the week bucket of a day of the month.
      There is no cap, so days 29 to 31 get their own bucket. */
  function WeekLabel(day: Day): (w: string)
  {
    "W" + NatToString((day - 1) / 7 + 1)
  }

  /** The buckets are bands of seven days, and 29-31 form a fifth one. */
  lemma WeekLabelBands(day: Day)
    ensures WeekLabel(day) == "W1" <==> day <= 7
    ensures WeekLabel(day) == "W2" <==> 8 <= day <= 14
    ensures WeekLabel(day) == "W3" <==> 15 <= day <= 21
    ensures WeekLabel(day) == "W4" <==> 22 <= day <= 28
    ensures WeekLabel(day) == "W5" <==> 29 <= day
  {
    var k := (day - 1) / 7 + 1;
    var w := WeekLabel(day);
    assert |w| == 2 && w[0] == 'W' && w[1] == ('0' as int + k) as char;
    assert "W1"[1] == '1' && "W2"[1] == '2' && "W3"[1] == '3' && "W4"[1] == '4' && "W5"[1] == '5';
    assert (w == "W1" <==> k == 1) && (w == "W2" <==> k == 2) && (w == "W3" <==> k == 3);
    assert (w == "W4" <==> k == 4) && (w == "W5" <==> k == 5);
  }

  /** The week map of the cutoff filter, `{'W1': 1, ..., 'W4': 4}` with
      `fillna(0)`: every other label maps to 0. */
  function WeekNumber(w: string): (n: int)
    ensures 0 <= n <= 4
    ensures n > 0 <==> w in WeekLabels
    ensures n > 0 ==> WeekLabels[n - 1] == w
  {
    if w == "W1" then 1
    else if w == "W2" then 2
    else if w == "W3" then 3
    else if w == "W4" then 4
    else 0
  }

  /** The four pivot columns, in order. */
  const WeekLabels: seq<string> := ["W1", "W2", "W3", "W4"]

  /** The k-th pivot column maps to k. */
  lemma WeekNumberOfLabel(j: nat)
    requires j < |WeekLabels|
    ensures WeekNumber(WeekLabels[j]) == j + 1
  {
  }

  /** Day buckets past the fourth fall outside the week map. */
  lemma WeekNumberOfDay(day: Day)
    ensures WeekNumber(WeekLabel(day)) == if day <= 28 then (day - 1) / 7 + 1 else 0
  {
    WeekLabelBands(day);
  }

  /** `week_map.get(sort_week, 4)`: the cutoff for a selected week. */
  function CutoffLimit(sortWeek: string): (n: int)
    ensures 1 <= n <= 4
    ensures sortWeek in WeekLabels ==> n == WeekNumber(sortWeek)
    ensures sortWeek !in WeekLabels ==> n == 4
  {
    var n := WeekNumber(sortWeek);
    if n == 0 then 4 else n
  }

  /** The English month names `strftime('%B')` produces. */
  const Months: seq<string> := ["January", "February", "March", "April", "May", "June", "July",
                                "August", "September", "October", "November", "December"]

  /** `strftime('%B')` of a month number. */
  function MonthName(m: MonthNum): string
  {
    Months[m - 1]
  }

  /** `list.index`: the first position of `x`, or `None` where Python raises. */
  function IndexOf(s: seq<string>, x: string): (r: Option<nat>)
    ensures r.None? <==> x !in s
    ensures r.Some? ==> r.value < |s| && s[r.value] == x && x !in s[..r.value]
  {
    if s == [] then None
    else if s[0] == x then Some(0)
    else
      match IndexOf(s[1..], x)
      case None => None
      case Some(i) => assert s[..i + 1] == [s[0]] + s[1..][..i]; Some(i + 1)
  }

  lemma MonthsDistinct()
    ensures forall i, j :: 0 <= i < j < 12 ==> Months[i] != Months[j]
  {
  }

  /** No month is named by the empty string. */
  lemma NoBlankMonth()
    ensures "" !in Months
  {
    forall i | 0 <= i < 12 ensures Months[i] != "" {
      assert |Months[i]| > 0;
    }
  }

  /** The position of a month name is its month number less one. */
  lemma IndexOfMonth(i: nat)
    requires i < 12
    ensures IndexOf(Months, Months[i]) == Some(i)
  {
    MonthsDistinct();
    assert Months[i] in Months;
  }

  /** `get_prev_month_full_en`: the preceding month's name, December for
      January, and `None` for a name that is not an English month. */
  function PrevMonthFullEn(name: string): (r: Option<string>)
    ensures r.None? <==> name !in Months
    ensures r.Some? ==> r.value in Months
  {
    match IndexOf(Months, name)
    case None => None
    case Some(i) => Some(if i > 0 then Months[i - 1] else Months[11])
  }

  /** January wraps to December; every other month gives its predecessor. */
  lemma PrevMonthOfEach(i: nat)
    requires i < 12
    ensures PrevMonthFullEn(Months[i]) == Some(if i == 0 then "December" else Months[i - 1])
  {
    IndexOfMonth(i);
  }

  /** No two months share a predecessor. */
  lemma PrevMonthInjective(a: string, b: string)
    requires a in Months && b in Months
    requires PrevMonthFullEn(a) == PrevMonthFullEn(b)
    ensures a == b
  {
    var i :| 0 <= i < 12 && Months[i] == a;
    var j :| 0 <= j < 12 && Months[j] == b;
    var pi := if i == 0 then 11 else i - 1;
    var pj := if j == 0 then 11 else j - 1;
    PrevMonthOfEach(i);
    PrevMonthOfEach(j);
    assert Months[pi] == Months[pj];
    IndexOfMonth(pi);
    IndexOfMonth(pj);
  }

  /** `month_map`: month numbers present in the data, each mapped to its name. */
  function MonthMap(present: set<MonthNum>): (mm: map<int, string>)
    ensures mm.Keys == present
  {
    map m | m in present :: MonthName(m)
  }

  /** `month_map.get(current_month_num - 1, "N/A")`: the previous month is
      looked up among the months present, with no wrap from January. */
  function PreviousMonthLabel(present: set<MonthNum>, current: MonthNum): (r: string)
    ensures r != "N/A" <==> current > 1 && current - 1 in present
    ensures r != "N/A" ==> current > 1 && r == MonthName(current - 1)
  {
    var mm := MonthMap(present);
    if current - 1 in mm then mm[current - 1] else "N/A"
  }

  /** January never has a previous month, whatever the data holds. */
  lemma JanuaryHasNoPrevious(present: set<MonthNum>)
    ensures PreviousMonthLabel(present, 1) == "N/A"
  {
  }

  /** `[k for k, v in month_map.items() if v == selected][0]`: the number of
      the selected month name, `None` where Python would raise. */
  function SelectedMonthNum(present: set<MonthNum>, selected: string): (r: Option<MonthNum>)
    ensures r.Some? ==> r.value in present && MonthName(r.value) == selected
    ensures r.None? ==> forall m: MonthNum :: m in present ==> MonthName(m) != selected
  {
    match IndexOf(Months, selected)
    case None => None
    case Some(i) => if i + 1 in present then Some(i + 1) else (MonthNamesDiffer(i); None)
  }

  lemma MonthNamesDiffer(i: nat)
    requires i < 12
    ensures forall m: MonthNum :: m != i + 1 ==> MonthName(m) != Months[i]
  {
    MonthsDistinct();
  }

  /** Every occurrence of `c` removed (`str.replace(c, '')`): each other
      character is kept as often as `s` holds it. */
  function RemoveChar(s: string, c: char): (r: string)
    ensures c !in r
    ensures multiset(r) == multiset(s)[c := 0]
  {
    if s == [] then []
    else
      assert s == [s[0]] + s[1..];
      (if s[0] == c then [] else [s[0]]) + RemoveChar(s[1..], c)
  }

  /** Removal works piece by piece, so the kept characters stay in their
      order: with the multiset above this pins the result down. */
  lemma {:induction false} RemoveCharAppend(a: string, b: string, c: char)
    ensures RemoveChar(a + b, c) == RemoveChar(a, c) + RemoveChar(b, c)
  {
    if a == [] {
      assert a + b == b;
    } else {
      assert (a + b)[0] == a[0];
      assert (a + b)[1..] == a[1..] + b;
      RemoveCharAppend(a[1..], b, c);
    }
  }

  /** The previous week of the header ticker: `W{n-1}` for `W{n}` with n > 1,
      otherwise the empty label. */
  function PrevWeekLabel(week: string): (r: string)
  {
    match ParseNat(RemoveChar(week, 'W'))
    case None => ""
    case Some(n) => if n > 1 then "W" + NatToString(n - 1) else ""
  }

  /** Digits carry no `W`, so removing it is the identity on them. */
  lemma {:induction false} RemoveCharDigits(s: string)
    requires AllDigits(s)
    ensures RemoveChar(s, 'W') == s
  {
    if s != [] {
      RemoveCharDigits(s[1..]);
    }
  }

  /** Week `W{n}` is preceded by `W{n-1}`, and the first week by nothing. */
  lemma PrevWeekOf(n: nat)
    ensures PrevWeekLabel("W" + NatToString(n)) == if n > 1 then "W" + NatToString(n - 1) else ""
  {
    WeekDigits(n);
    ParseNatToString(n);
  }

  /** Removing `W` from a week label leaves its digits. */
  lemma WeekDigits(n: nat)
    ensures RemoveChar("W" + NatToString(n), 'W') == NatToString(n)
  {
    var s := "W" + NatToString(n);
    assert s[0] == 'W' && s[1..] == NatToString(n);
    RemoveCharDigits(NatToString(n));
  }
}
