/** The normalisation the ATM dashboard's loader applies to the AIMS sheet
    after reading it: quantities coerced to numbers, rows without a date or
    TID dropped, the quantity defaulted to 1 when the column is missing or
    sums to 0, and the month, week and branch columns derived. */
module AtmLoad {
  import opened Text
  import opened Incidents
  import opened Periods

  /** A parsed TANGGAL: its month and day of month. */
  datatype Date = Date(month: MonthNum, day: Day)

  /** One sheet row as read. `None` stands for a NaN / NaT cell, such as a
      date or quantity that does not parse under `errors='coerce'`. The sheet
      reader returns an empty cell as the empty string, so an empty TID or
      branch is `Some("")`, which `dropna` keeps. */
  datatype RawRow = RawRow(tid: Option<string>, date: Option<Date>, branch: Option<string>,
                           location: string, category: string, qty: Option<int>)

  /** `pd.to_numeric(errors='coerce').fillna(0)` on one cell. */
  function QtyValue(q: Option<int>): int
  {
    match q
    case None => 0
    case Some(v) => v
  }

  /** The quantity cell after coercion: always a number. */
  function Coerce(r: RawRow): (c: RawRow)
    ensures c.qty == Some(QtyValue(r.qty))
    ensures c.(qty := r.qty) == r
  {
    r.(qty := Some(QtyValue(r.qty)))
  }

  /** The rows `dropna(subset=['TANGGAL', 'TID'])` keeps. */
  predicate Complete(r: RawRow)
  {
    r.tid.Some? && r.date.Some?
  }

  /** `df['JUMLAH_COMPLAIN'].sum()`. */
  function QtySum(rs: seq<RawRow>): int
  {
    if rs == [] then 0 else QtyValue(rs[0].qty) + QtySum(rs[1..])
  }

  /** Whether the loader overwrites the quantity with 1: the column is
      missing, or its values sum to 0. */
  predicate NeedsDefault(rs: seq<RawRow>, hasQty: bool)
  {
    !hasQty || QtySum(rs) == 0
  }

  /** `str(x).upper().strip()` on a branch cell; an empty cell reads "nan". */
  function NormBranch(b: Option<string>): string
  {
    match b
    case None => Strip(Upper("nan"))
    case Some(s) => Strip(Upper(s))
  }

  /** The derived columns of a kept row: MONTH_NUM, BULAN, WEEK, CABANG. */
  function Derive(r: RawRow): (row: Row)
    requires Complete(r)
    ensures row.week == WeekLabel(r.date.value.day)
    ensures row.monthNum == r.date.value.month && row.month == MonthName(r.date.value.month)
    ensures row.tid == r.tid.value && row.qty == QtyValue(r.qty)
  {
    Row(r.tid.value, NormBranch(r.branch), r.location, r.category,
        MonthName(r.date.value.month), r.date.value.month, WeekLabel(r.date.value.day), QtyValue(r.qty))
  }

  /** The quantity column after coercion. */
  function CoerceAll(rs: seq<RawRow>): (cs: seq<RawRow>)
    ensures |cs| == |rs|
    ensures forall i :: 0 <= i < |rs| ==> cs[i] == Coerce(rs[i])
  {
    if rs == [] then [] else [Coerce(rs[0])] + CoerceAll(rs[1..])
  }

  /** `df['JUMLAH_COMPLAIN'] = 1`. */
  function SetQtyOne(rs: seq<RawRow>): (os: seq<RawRow>)
    ensures |os| == |rs|
    ensures forall i :: 0 <= i < |rs| ==> os[i] == rs[i].(qty := Some(1))
  {
    if rs == [] then [] else [rs[0].(qty := Some(1))] + SetQtyOne(rs[1..])
  }

  /** The derived columns of every kept row. */
  function DeriveAll(rs: seq<RawRow>): (rows: seq<Row>)
    requires forall i :: 0 <= i < |rs| ==> Complete(rs[i])
    ensures |rows| == |rs|
    ensures forall i :: 0 <= i < |rs| ==> rows[i] == Derive(rs[i])
  {
    if rs == [] then [] else [Derive(rs[0])] + DeriveAll(rs[1..])
  }

  /** Coercing when the column exists. */
  function CoerceIf(rs: seq<RawRow>, hasQty: bool): seq<RawRow>
  {
    if hasQty then CoerceAll(rs) else rs
  }

  /** Defaulting when the column is missing or sums to 0. */
  function DefaultIf(rs: seq<RawRow>, hasQty: bool): (os: seq<RawRow>)
    ensures |os| == |rs|
    ensures forall i :: 0 <= i < |rs| ==> os[i].tid == rs[i].tid && os[i].date == rs[i].date && os[i].branch == rs[i].branch
  {
    if NeedsDefault(rs, hasQty) then SetQtyOne(rs) else rs
  }

  /** The rows the loader keeps, with their quantities settled. */
  function Settled(raw: seq<RawRow>, hasQty: bool): (rs: seq<RawRow>)
    ensures forall i :: 0 <= i < |rs| ==> Complete(rs[i])
  {
    var kept := Where(CoerceIf(raw, hasQty), Complete);
    DefaultIf(kept, hasQty)
  }

  /** The loaded frame, step by step: coerce (when the column exists), drop
      incomplete rows, default the quantity, derive the columns. The loaded
      frame always carries the quantity column. */
  function Loaded(raw: seq<RawRow>, hasQty: bool): (f: Frame)
    ensures f.hasQty
  {
    Frame(DeriveAll(Settled(raw, hasQty)), true)
  }

  /** Coercion of a concatenation coerces each part. */
  lemma CoerceAllAppend(a: seq<RawRow>, b: seq<RawRow>)
    ensures CoerceAll(a + b) == CoerceAll(a) + CoerceAll(b)
  {
    assert |CoerceAll(a + b)| == |CoerceAll(a) + CoerceAll(b)|;
    forall i | 0 <= i < |a + b| ensures CoerceAll(a + b)[i] == (CoerceAll(a) + CoerceAll(b))[i] {
      if i < |a| {
        assert (a + b)[i] == a[i];
      } else {
        assert (a + b)[i] == b[i - |a|];
      }
    }
  }

  /** Keeping complete rows commutes with coercing every row, since
      coercion changes no TID and no date. */
  lemma {:induction false} CoercedWhere(raw: seq<RawRow>)
    ensures Where(CoerceAll(raw), Complete) == CoerceAll(Where(raw, Complete))
  {
    if raw != [] {
      CoercedWhere(raw[1..]);
      var h := if Complete(raw[0]) then [raw[0]] else [];
      var t := Where(raw[1..], Complete);
      assert Where(raw, Complete) == h + t;
      var c := CoerceAll(raw);
      assert c[1..] == CoerceAll(raw[1..]);
      assert Where(c, Complete) == (if Complete(c[0]) then [c[0]] else []) + Where(c[1..], Complete);
      assert (if Complete(c[0]) then [c[0]] else []) == CoerceAll(h);
      CoerceAllAppend(h, t);
    }
  }

  /** The loader keeps exactly the complete rows: as many as there are. */
  lemma LoadedCount(raw: seq<RawRow>, hasQty: bool)
    ensures |Loaded(raw, hasQty).rows| == |Where(raw, Complete)|
  {
    if hasQty {
      CoercedWhere(raw);
    }
  }

  /** The loader as the script runs it: one data frame changed in place,
      step after step. */
  class AimsSheet {
    var records: seq<RawRow>
    var hasQty: bool
    var rows: seq<Row>

    constructor (raw: seq<RawRow>, withQty: bool)
      ensures records == raw && hasQty == withQty && rows == []
    {
      records := raw;
      hasQty := withQty;
      rows := [];
    }

    /** `df[col] = pd.to_numeric(df[col], errors='coerce').fillna(0)` for
        the quantity column, when present. */
    method CoerceQuantities()
      modifies this
      ensures hasQty == old(hasQty) && rows == old(rows)
      ensures records == CoerceIf(old(records), old(hasQty))
    {
      if hasQty {
        records := CoerceAll(records);
      }
    }

    /** `df.dropna(subset=['TANGGAL', 'TID'], inplace=True)`. */
    method DropIncomplete()
      modifies this
      ensures hasQty == old(hasQty) && rows == old(rows)
      ensures records == Where(old(records), Complete)
    {
      records := Where(records, Complete);
    }

    /** `if 'JUMLAH_COMPLAIN' not in df.columns or df['JUMLAH_COMPLAIN'].sum() == 0:
        df['JUMLAH_COMPLAIN'] = 1`; the column exists afterwards. */
    method DefaultQuantities()
      modifies this
      ensures rows == old(rows) && hasQty
      ensures records == DefaultIf(old(records), old(hasQty))
    {
      if !hasQty || QtySum(records) == 0 {
        records := SetQtyOne(records);
      }
      hasQty := true;
    }

    /** MONTH_NUM, BULAN, WEEK and the normalised CABANG. */
    method DeriveColumns()
      requires forall i :: 0 <= i < |records| ==> Complete(records[i])
      modifies this
      ensures records == old(records) && hasQty == old(hasQty)
      ensures rows == DeriveAll(records)
    {
      rows := DeriveAll(records);
    }

    /** The whole normalisation. */
    method Load()
      modifies this
      ensures Frame(rows, hasQty) == Loaded(old(records), old(hasQty))
      ensures records == Settled(old(records), old(hasQty))
    {
      CoerceQuantities();
      DropIncomplete();
      DefaultQuantities();
      DeriveColumns();
    }
  }

  /** Each settled row keeps the TID, date and branch of the complete sheet
      row at the same place. */
  lemma SettledAgrees(raw: seq<RawRow>, hasQty: bool, i: nat)
    requires i < |Settled(raw, hasQty)|
    ensures i < |Where(raw, Complete)|
    ensures Settled(raw, hasQty)[i].tid == Where(raw, Complete)[i].tid
    ensures Settled(raw, hasQty)[i].date == Where(raw, Complete)[i].date
    ensures Settled(raw, hasQty)[i].branch == Where(raw, Complete)[i].branch
  {
    if hasQty {
      CoercedWhere(raw);
    }
  }

  /** Each loaded row comes from the complete sheet row at the same place:
      its TID, its week bucket, its month and its normalised branch. */
  lemma LoadedRowsAreComplete(raw: seq<RawRow>, hasQty: bool, i: nat)
    requires i < |Loaded(raw, hasQty).rows|
    ensures i < |Where(raw, Complete)|
    ensures var r := Where(raw, Complete)[i];
            Complete(r)
            && Loaded(raw, hasQty).rows[i].tid == r.tid.value
            && Loaded(raw, hasQty).rows[i].week == WeekLabel(r.date.value.day)
            && Loaded(raw, hasQty).rows[i].monthNum == r.date.value.month
            && Loaded(raw, hasQty).rows[i].branch == NormBranch(r.branch)
  {
    SettledAgrees(raw, hasQty, i);
    assert Loaded(raw, hasQty).rows[i] == Derive(Settled(raw, hasQty)[i]);
  }

  /** When the quantity is defaulted, summing quantities is counting rows,
      so both metric modes agree on every slice of the loaded rows. */
  lemma DefaultedSumIsCount(raw: seq<RawRow>, hasQty: bool, p: Row -> bool)
    requires NeedsDefault(Where(CoerceIf(raw, hasQty), Complete), hasQty)
    ensures Measure(Where(Loaded(raw, hasQty).rows, p), SumQuantity) == Measure(Where(Loaded(raw, hasQty).rows, p), CountRows)
  {
    var all := Loaded(raw, hasQty).rows;
    var rows := Where(all, p);
    forall i | 0 <= i < |rows| ensures rows[i].qty == 1 {
      assert rows[i] in all;
    }
    SumOfOnes(rows);
  }

  /** Otherwise each loaded quantity is the coerced cell: a non-numeric
      cell counts 0. */
  lemma KeptQuantities(raw: seq<RawRow>, i: nat)
    requires !NeedsDefault(Where(CoerceAll(raw), Complete), true)
    requires i < |Loaded(raw, true).rows|
    ensures i < |Where(raw, Complete)|
    ensures Loaded(raw, true).rows[i].qty == QtyValue(Where(raw, Complete)[i].qty)
  {
    CoercedWhere(raw);
  }

  /** Upper-casing leaves a string without lower-case letters unchanged. */
  lemma UpperOfNoLower(s: string)
    requires forall i :: 0 <= i < |s| ==> !IsAsciiLower(s[i])
    ensures Upper(s) == s
  {
  }

  /** No letter of a stripped upper-cased string is lower case. */
  lemma StrippedUpperHasNoLower(x: string)
    ensures forall i :: 0 <= i < |Strip(Upper(x))| ==> !IsAsciiLower(Strip(Upper(x))[i])
  {
    var u := Upper(x);
    var t := Strip(u);
    forall i | 0 <= i < |u| ensures !IsAsciiLower(u[i]) {
      UpperCharNotLower(x[i]);
    }
    var k: nat :| OccursAt(u, t, k);
    InfixHasNoLower(u, t, k);
  }

  /** A piece cut out of a string without lower-case letters has none either. */
  lemma InfixHasNoLower(u: string, t: string, k: nat)
    requires forall i :: 0 <= i < |u| ==> !IsAsciiLower(u[i])
    requires OccursAt(u, t, k)
    ensures forall i :: 0 <= i < |t| ==> !IsAsciiLower(t[i])
  {
    forall i | 0 <= i < |t| ensures !IsAsciiLower(t[i]) {
      assert t[i] == u[k + i];
    }
  }

  /** An upper-cased letter is not lower case. */
  lemma UpperCharNotLower(c: char)
    ensures !IsAsciiLower(UpperChar(c))
  {
  }

  /** The branch normalisation is idempotent: a normalised name is upper
      case with nothing to strip. */
  lemma NormBranchIdempotent(b: Option<string>)
    ensures NormBranch(Some(NormBranch(b))) == NormBranch(b)
  {
    var x := match b case None => "nan" case Some(s) => s;
    assert NormBranch(b) == Strip(Upper(x));
    StrippedUpperHasNoLower(x);
    UpperOfNoLower(Strip(Upper(x)));
    StripIdempotent(Upper(x));
  }
}
