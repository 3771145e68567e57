/** Small table utilities of the client dashboard: the two duplicate-header
    de-duplication loops, zero blanking (`clean_zeros`) and the
    week-over-week colouring rule of `style_logic`. */
module Headers {
  import opened Text
  import opened Periods

  /** How often `x` occurs among the first `n` names. */
  function CountUpTo(s: seq<string>, n: nat, x: string): nat
    requires n <= |s|
  {
    if n == 0 then 0
    else CountUpTo(s, n - 1, x) + (if s[n - 1] == x then 1 else 0)
  }

  /** A name occurs among the first `n` exactly when its count is positive. */
  lemma {:induction false} CountUpToPositive(s: seq<string>, n: nat, x: string)
    requires n <= |s|
    ensures CountUpTo(s, n, x) > 0 <==> exists j :: 0 <= j < n && s[j] == x
  {
    if n > 0 {
      CountUpToPositive(s, n - 1, x);
    }
  }

  /** Counting further never counts less. */
  lemma {:induction false} CountUpToMonotone(s: seq<string>, i: nat, j: nat, x: string)
    requires i <= j <= |s|
    ensures CountUpTo(s, i, x) <= CountUpTo(s, j, x)
    decreases j - i
  {
    if i < j {
      CountUpToMonotone(s, i, j - 1, x);
    }
  }

  /** Counting past another occurrence of `s[i]` counts at least one more. */
  lemma CountUpToGrows(s: seq<string>, i: nat, j: nat)
    requires i < j <= |s|
    ensures CountUpTo(s, j, s[i]) >= CountUpTo(s, i, s[i]) + 1
  {
    CountUpToMonotone(s, i + 1, j, s[i]);
  }

  /** The name given to an occurrence that follows `k` earlier ones:
      the name itself the first time, `name_k` after that; a blank name is
      never suffixed. */
  function Label(c: string, k: nat): string
  {
    if c != "" && k > 0 then c + "_" + NatToString(k) else c
  }

  /** The `seen` dictionary after the first `n` names: for each name met,
      how many repeats of it have been met. */
  function SeenUpTo(names: seq<string>, n: nat): map<string, nat>
    requires n <= |names|
  {
    if n == 0 then map[]
    else
      var m := SeenUpTo(names, n - 1);
      var c := names[n - 1];
      m[c := if c in m then m[c] + 1 else 0]
  }

  /** The header list the loop has built after the first `n` names. */
  function DedupUpTo(names: seq<string>, n: nat): seq<string>
    requires n <= |names|
  {
    if n == 0 then []
    else
      var m := SeenUpTo(names, n - 1);
      var c := names[n - 1];
      DedupUpTo(names, n - 1) + [if c in m then Label(c, m[c] + 1) else c]
  }

  /** `seen` holds every name met so far, with one less than its count. */
  lemma {:induction false} SeenCounts(names: seq<string>, n: nat)
    requires n <= |names|
    ensures forall c :: c in SeenUpTo(names, n) <==> exists j :: 0 <= j < n && names[j] == c
    ensures forall c :: c in SeenUpTo(names, n) ==> SeenUpTo(names, n)[c] + 1 == CountUpTo(names, n, c)
  {
    if n > 0 {
      SeenCounts(names, n - 1);
      CountUpToPositive(names, n - 1, names[n - 1]);
    }
  }

  /** One step of the loop: the header given to the n-th name. */
  lemma DedupLast(names: seq<string>, n: nat)
    requires 0 < n <= |names|
    ensures |DedupUpTo(names, n)| == |DedupUpTo(names, n - 1)| + 1
    ensures DedupUpTo(names, n)[|DedupUpTo(names, n)| - 1] == Label(names[n - 1], CountUpTo(names, n - 1, names[n - 1]))
  {
    var c := names[n - 1];
    SeenCounts(names, n - 1);
    CountUpToPositive(names, n - 1, c);
  }

  /** The de-duplicated headers: one per name, the i-th being the i-th name
      labelled with the number of its earlier occurrences. */
  lemma {:induction false} DedupByCount(names: seq<string>, n: nat)
    requires n <= |names|
    ensures |DedupUpTo(names, n)| == n
    ensures forall i :: 0 <= i < n ==> DedupUpTo(names, n)[i] == Label(names[i], CountUpTo(names, i, names[i]))
  {
    if n > 0 {
      DedupByCount(names, n - 1);
      DedupLast(names, n);
      var d := DedupUpTo(names, n);
      assert d[..n - 1] == DedupUpTo(names, n - 1);
      forall i | 0 <= i < n
        ensures d[i] == Label(names[i], CountUpTo(names, i, names[i]))
      {
        if i < n - 1 {
          assert d[i] == d[..n - 1][i];
        }
      }
    }
  }

  /** Two labels of names without '_' are equal only for equal names and
      equal counts. */
  lemma LabelInjective(a: string, k: nat, b: string, m: nat)
    requires a != "" && b != "" && '_' !in a && '_' !in b
    requires Label(a, k) == Label(b, m)
    ensures a == b && k == m
  {
    if k > 0 && m > 0 {
      var x := a + "_" + NatToString(k);
      var y := b + "_" + NatToString(m);
      UnderscoreAt(a, NatToString(k));
      UnderscoreAt(b, NatToString(m));
      assert a == x[..|a|] == y[..|b|] == b;
      assert NatToString(k) == x[|a| + 1..] == y[|b| + 1..] == NatToString(m);
      NatToStringInjective(k, m);
    }
  }

  /** In `a + "_" + d` with no '_' in `a`, the first '_' stands right after `a`. */
  lemma UnderscoreAt(a: string, d: string)
    requires '_' !in a
    ensures (a + "_" + d)[|a|] == '_'
    ensures forall i :: 0 <= i < |a| ==> (a + "_" + d)[i] != '_'
  {
  }

  /** With non-blank names free of '_', the de-duplicated headers are
      pairwise distinct. */
  lemma DedupUnique(names: seq<string>)
    requires forall i :: 0 <= i < |names| ==> names[i] != "" && '_' !in names[i]
    ensures |DedupUpTo(names, |names|)| == |names|
    ensures forall i, j :: 0 <= i < j < |names| ==> DedupUpTo(names, |names|)[i] != DedupUpTo(names, |names|)[j]
  {
    var d := DedupUpTo(names, |names|);
    DedupByCount(names, |names|);
    forall i, j | 0 <= i < j < |names|
      ensures d[i] != d[j]
    {
      if d[i] == d[j] {
        LabelInjective(names[i], CountUpTo(names, i, names[i]), names[j], CountUpTo(names, j, names[j]));
        CountUpToGrows(names, i, j);
        assert false;
      }
    }
  }

  /** A header that already looks like a suffixed repeat collides: `c`,
      `c`, `c_1` becomes `c`, `c_1`, `c_1`. */
  lemma DedupCanCollide(c: string)
    requires c != ""
    ensures DedupUpTo([c, c, c + "_1"], 3) == [c, c + "_1", c + "_1"]
  {
    var names := [c, c, c + "_1"];
    assert NatToString(1) == "1";
    assert |c + "_1"| != |c|;
    assert SeenUpTo(names, 1) == map[c := 0];
    assert SeenUpTo(names, 2) == map[c := 1];
    assert Label(c, 1) == c + "_" + "1" == c + "_1";
    assert DedupUpTo(names, 1) == [c];
    assert DedupUpTo(names, 2) == [c, c + "_1"];
  }

  /** Repeated blank headers all stay blank when blanks are not suffixed. */
  lemma DedupKeepsBlanks(n: nat)
    ensures DedupUpTo(seq(n, i => ""), n) == seq(n, i => "")
  {
    var names: seq<string> := seq(n, i => "");
    DedupByCount(names, n);
  }

  /** The first variant's clean-up of one header: stripped, and "Info" for
      a header that reads "nan", "none" (any case) or is blank. */
  function CustomName(raw: string): (c: string)
    ensures c != ""
    ensures Lower(Strip(raw)) in ["nan", "none", ""] ==> c == "Info"
  {
    var col := Strip(raw);
    if Lower(col) in ["nan", "none", ""] then "Info" else col
  }

  /** The cleaned names of a header row, one per cell. */
  function CustomNames(raw: seq<string>): (names: seq<string>)
    ensures |names| == |raw|
    ensures forall i :: 0 <= i < |raw| ==> names[i] == CustomName(raw[i])
  {
    seq(|raw|, i requires 0 <= i < |raw| => CustomName(raw[i]))
  }

  /** The counting loop both header clean-ups share: `seen` maps each name
      met to its number of repeats so far, and the k-th repeat of a name
      becomes `name_k` (a blank name stays blank). */
  method SuffixRepeats(names: seq<string>) returns (cols: seq<string>)
    ensures cols == DedupUpTo(names, |names|)
  {
    cols := [];
    var seen: map<string, nat> := map[];
    var i := 0;
    while i < |names|
      invariant 0 <= i <= |names|
      invariant seen == SeenUpTo(names, i)
      invariant cols == DedupUpTo(names, i)
    {
      var col := names[i];
      var cnt := if col in seen then seen[col] + 1 else 0;
      seen := seen[col := cnt];
      cols := cols + [if col != "" && cnt > 0 then col + "_" + NatToString(cnt) else col];
      i := i + 1;
    }
  }

  /** The header clean-up of `get_custom_data`: each header cleaned by
      `CustomName`, then repeats suffixed. */
  method CustomHeaders(raw: seq<string>) returns (headers: seq<string>)
    ensures headers == DedupUpTo(CustomNames(raw), |raw|)
    ensures |headers| == |raw|
    ensures forall i :: 0 <= i < |raw| ==>
              headers[i] == Label(CustomName(raw[i]), CountUpTo(CustomNames(raw), i, CustomName(raw[i])))
  {
    var names := CustomNames(raw);
    headers := SuffixRepeats(names);
    DedupByCount(names, |names|);
  }

  /** The stripped names of a header row, one per cell. */
  function StrippedNames(raw: seq<string>): (names: seq<string>)
    ensures |names| == |raw|
    ensures forall i :: 0 <= i < |raw| ==> names[i] == Strip(raw[i])
  {
    seq(|raw|, i requires 0 <= i < |raw| => Strip(raw[i]))
  }

  /** The header clean-up of `get_monitor_slice`: each header stripped,
      then repeats suffixed, blanks left as they are. */
  method MonitorHeaders(raw: seq<string>) returns (cols: seq<string>)
    ensures cols == DedupUpTo(StrippedNames(raw), |raw|)
    ensures |cols| == |raw|
    ensures forall i :: 0 <= i < |raw| ==>
              cols[i] == Label(Strip(raw[i]), CountUpTo(StrippedNames(raw), i, Strip(raw[i])))
  {
    var names := StrippedNames(raw);
    cols := SuffixRepeats(names);
    DedupByCount(names, |names|);
  }

  /** The cell texts `clean_zeros` blanks. */
  const ZeroTokens: seq<string> := ["0", "0.0", "0.00", "nan", "None"]

  /** `clean_zeros` on one cell (already turned into text). */
  function CleanCell(s: string): (r: string)
    ensures r == "" <==> s == "" || s in ZeroTokens
    ensures r != "" ==> r == s
  {
    if s in ZeroTokens then "" else s
  }

  /** `clean_zeros` on a table: every cell cleaned, the shape kept. */
  function CleanZeros(table: seq<seq<string>>): (r: seq<seq<string>>)
    ensures |r| == |table|
    ensures forall i :: 0 <= i < |table| ==> |r[i]| == |table[i]|
    ensures forall i, j :: 0 <= i < |table| && 0 <= j < |table[i]| ==> r[i][j] == CleanCell(table[i][j])
  {
    seq(|table|, i requires 0 <= i < |table| => seq(|table[i]|, j requires 0 <= j < |table[i]| => CleanCell(table[i][j])))
  }

  /** Cleaning twice is cleaning once, and no cleaned cell is a zero token. */
  lemma CleanZerosIdempotent(table: seq<seq<string>>)
    ensures CleanZeros(CleanZeros(table)) == CleanZeros(table)
    ensures forall i, j :: 0 <= i < |table| && 0 <= j < |table[i]| ==> CleanZeros(table)[i][j] !in ZeroTokens
  {
    var once := CleanZeros(table);
    var twice := CleanZeros(once);
    forall i | 0 <= i < |table|
      ensures twice[i] == once[i]
    {
      assert |twice[i]| == |once[i]|;
    }
  }

  /** The position of the first '.' in `s`, if any. */
  function DotIndex(s: string): (r: Option<nat>)
    ensures r.None? <==> '.' !in s
    ensures r.Some? ==> r.value < |s| && s[r.value] == '.' && '.' !in s[..r.value]
  {
    if s == [] then None
    else if s[0] == '.' then Some(0)
    else
      match DotIndex(s[1..])
      case None => None
      case Some(i) => assert s[..i + 1] == [s[0]] + s[1..][..i]; Some(i + 1)
  }

  function Pow10(n: nat): (p: nat)
    ensures p >= 1
  {
    if n == 0 then 1 else 10 * Pow10(n - 1)
  }

  /** `float(s)` on unsigned decimals: digits, optionally a point and more
      digits, at least one digit in all; anything else fails. */
  function ParseDecimal(s: string): (r: Option<real>)
    ensures r.Some? ==> r.value >= 0.0
    ensures s != [] && AllDigits(s) ==> r == Some(DigitsValue(s) as real)
  {
    match DotIndex(s)
    case None => if s != [] && AllDigits(s) then Some(DigitsValue(s) as real) else None
    case Some(d) =>
      var whole := s[..d];
      var frac := s[d + 1..];
      if AllDigits(whole) && AllDigits(frac) && (whole != [] || frac != []) then
        Some(DigitsValue(whole) as real + DigitsValue(frac) as real / Pow10(|frac|) as real)
      else None
  }

  /** `get_val` of `style_logic`: 0 for a blank cell or one that does not
      parse. */
  function GetVal(cell: string): (v: real)
    ensures v >= 0.0
    ensures cell == "" ==> v == 0.0
  {
    if cell == "" then 0.0
    else match ParseDecimal(cell)
      case None => 0.0
      case Some(x) => x
  }

  /** A count written out in decimal reads back as that count, and the
      blanked zero cells read as 0. */
  lemma GetValOfCount(n: nat)
    ensures GetVal(NatToString(n)) == n as real
    ensures GetVal(CleanCell(NatToString(0))) == 0.0
  {
    ParseNatToString(n);
    assert NatToString(0) == "0";
  }

  /** The colour `style_logic` gives a cell compared with the week before. */
  datatype Style = Plain | Worse | Better

  function Compare(curr: real, prev: real): (s: Style)
    ensures s == Worse <==> curr > prev
    ensures s == Better <==> curr < prev
  {
    if curr > prev then Worse else if curr < prev then Better else Plain
  }

  /** The week each week column is compared with. */
  function PrevWeekColumn(c: string): (p: Option<string>)
    ensures p.Some? <==> c in ["W2", "W3", "W4"]
  {
    if c == "W2" then Some("W1")
    else if c == "W3" then Some("W2")
    else if c == "W4" then Some("W3")
    else None
  }

  /** The style of cell `i`: a week column (its first occurrence) whose
      previous week is also a column is coloured by comparing the two; every
      other cell is plain. */
  function ChainStyle(names: seq<string>, cells: seq<string>, i: nat): Style
    requires |cells| == |names| && i < |names|
  {
    match PrevWeekColumn(names[i])
    case None => Plain
    case Some(p) =>
      match IndexOf(names, p)
      case None => Plain
      case Some(pi) =>
        if IndexOf(names, names[i]) == Some(i) then Compare(GetVal(cells[i]), GetVal(cells[pi])) else Plain
  }

  /** The pairs the loop visits. */
  const Chain: seq<(string, string)> := [("W2", "W1"), ("W3", "W2"), ("W4", "W3")]

  /** The styles after the first `k` pairs of the chain. */
  function StylesAfter(names: seq<string>, cells: seq<string>, k: nat): (styles: seq<Style>)
    requires |cells| == |names| && k <= |Chain|
    ensures |styles| == |names|
  {
    if k == 0 then seq(|names|, i => Plain)
    else
      var styles := StylesAfter(names, cells, k - 1);
      var (c, p) := Chain[k - 1];
      match (IndexOf(names, c), IndexOf(names, p))
      case (Some(ci), Some(pi)) =>
        var s := Compare(GetVal(cells[ci]), GetVal(cells[pi]));
        if s == Plain then styles else styles[ci := s]
      case _ => styles
  }

  /** After the whole chain every cell has its `ChainStyle`. */
  lemma StylesAfterChain(names: seq<string>, cells: seq<string>)
    requires |cells| == |names|
    ensures forall i :: 0 <= i < |names| ==> StylesAfter(names, cells, |Chain|)[i] == ChainStyle(names, cells, i)
  {
    forall i | 0 <= i < |names|
      ensures StylesAfter(names, cells, |Chain|)[i] == ChainStyle(names, cells, i)
    {
      StylesAfterAt(names, cells, 3, i);
    }
  }

  /** The week column a chain position writes. */
  function ChainCurr(k: nat): string
    requires k < |Chain|
  {
    Chain[k].0
  }

  /** After `k` pairs, cell `i` is coloured only if it is the first
      occurrence of one of the first `k` week columns. */
  lemma {:induction false} StylesAfterAt(names: seq<string>, cells: seq<string>, k: nat, i: nat)
    requires |cells| == |names| && k <= |Chain| && i < |names|
    ensures StylesAfter(names, cells, k)[i]
         == if names[i] in [ChainCurr(0), ChainCurr(1), ChainCurr(2)][..k] then ChainStyle(names, cells, i) else Plain
  {
    if k > 0 {
      StylesAfterAt(names, cells, k - 1, i);
      var (c, p) := Chain[k - 1];
      assert PrevWeekColumn(c) == Some(p);
      var prefix := [ChainCurr(0), ChainCurr(1), ChainCurr(2)];
      assert prefix[..k] == prefix[..k - 1] + [c];
      match (IndexOf(names, c), IndexOf(names, p))
      case (Some(ci), Some(pi)) =>
        if ci == i {
          assert names[i] == c;
          assert c !in prefix[..k - 1];
        } else if names[i] == c {
          assert IndexOf(names, names[i]) != Some(i);
        }
      case _ =>
    }
  }

  /** One pass of the `style_logic` loop: the pair `Chain[k]` colours its
      week column when both columns are present and the values differ. */
  method ColourPair(names: seq<string>, cells: seq<string>, styles: seq<Style>, k: nat) returns (next: seq<Style>)
    requires |cells| == |names| && k < |Chain|
    requires styles == StylesAfter(names, cells, k)
    ensures next == StylesAfter(names, cells, k + 1)
  {
    next := styles;
    var (c, p) := Chain[k];
    if c in names && p in names {
      var ci := IndexOf(names, c).value;
      var pi := IndexOf(names, p).value;
      var currVal := GetVal(cells[ci]);
      var prevVal := GetVal(cells[pi]);
      if currVal > prevVal {
        next := styles[ci := Worse];
      } else if currVal < prevVal {
        next := styles[ci := Better];
      }
    }
  }

  /** `style_logic` on one row: `styles` starts all blank and each pair of
      the chain colours its week column against the previous one. */
  method StyleRow(names: seq<string>, cells: seq<string>) returns (styles: seq<Style>)
    requires |cells| == |names|
    ensures |styles| == |names|
    ensures forall i :: 0 <= i < |names| ==> styles[i] == ChainStyle(names, cells, i)
  {
    styles := seq(|names|, i => Plain);
    var k := 0;
    while k < |Chain|
      invariant 0 <= k <= |Chain|
      invariant styles == StylesAfter(names, cells, k)
    {
      styles := ColourPair(names, cells, styles, k);
      k := k + 1;
    }
    StylesAfterChain(names, cells);
  }
}
