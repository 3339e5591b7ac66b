/** The combined anatomical QC: the CAT12 VBM, FreeSurfer and quasi-raw QC tables,
    merged per participant, session and run, give one `qc` verdict per row (0 as soon
    as one of the three QCs is 0); with a transcoding table each row also gets its
    acquisition site, and every site gets a sheet with its passing and total counts.
    The model starts from the merged table: reading the three files and the outer
    merges are not part of it. */
module QcAnat {
  import opened Base
  import opened PyStr
  import opened Sorting
  import opened QcLookup

  // ---------------------------------------------------------------------------
  // rename_dfcol

  /** The columns the three tables are merged on keep their names. */
  const KeyColumns: seq<string> := ["participant_id", "session", "run", "site"]

  /** The name a column gets in `rename_dfcol(df, suffix)`. */
  function Renamed(col: string, suffix: string): string {
    if col in KeyColumns then col else col + suffix
  }

  /** `rename_dfcol`: the loop building the new column names. */
  method RenameColumns(cols: seq<string>, suffix: string) returns (renamed: seq<string>)
    ensures |renamed| == |cols|
    ensures forall i :: 0 <= i < |cols| ==> renamed[i] == Renamed(cols[i], suffix)
  {
    renamed := [];
    for i := 0 to |cols|
      invariant |renamed| == i
      invariant forall k :: 0 <= k < i ==> renamed[k] == Renamed(cols[k], suffix)
    {
      if cols[i] in KeyColumns {
        renamed := renamed + [cols[i]];
      } else {
        renamed := renamed + [cols[i] + suffix];
      }
    }
  }

  /** A key column keeps its name; every other column ends with the suffix and starts
      with its old name, so the old name is recovered by dropping the suffix. */
  lemma RenamedShape(col: string, suffix: string)
    ensures col in KeyColumns ==> Renamed(col, suffix) == col
    ensures col !in KeyColumns ==>
      Renamed(col, suffix)[..|col|] == col && Renamed(col, suffix)[|col|..] == suffix
  {
  }

  /** Distinct columns get distinct names, unless a renamed column lands on a key
      column's name. */
  lemma RenamedDistinct(a: string, b: string, suffix: string)
    requires a != b
    requires a !in KeyColumns ==> a + suffix !in KeyColumns
    requires b !in KeyColumns ==> b + suffix !in KeyColumns
    ensures Renamed(a, suffix) != Renamed(b, suffix)
  {
    SuffixCancels(a, b, suffix);
  }

  lemma SuffixCancels(a: string, b: string, suffix: string)
    ensures a + suffix == b + suffix ==> a == b
  {
    assert (a + suffix)[..|a|] == a;
    assert (b + suffix)[..|b|] == b;
  }

  /** The side condition of RenamedDistinct is needed: a column "participant" renamed
      with the suffix "_id" clashes with the kept participant_id column. */
  lemma RenamedCanClash()
    ensures Renamed("participant", "_id") == Renamed("participant_id", "_id")
  {
    assert "participant_id" in KeyColumns;
    assert "participant" != KeyColumns[0] && "participant" != KeyColumns[1];
  }

  /** The QC column of each table is told apart after the rename. */
  lemma QcColumnsRenamed()
    ensures Renamed("qc", "_cat12") == "qc_cat12"
    ensures Renamed("qc", "_quasiraw") == "qc_quasiraw"
    ensures Renamed("qc", "_fs") == "qc_fs"
  {
    assert "qc" != KeyColumns[0] && "qc" != KeyColumns[1];
    assert "qc" != KeyColumns[2] && "qc" != KeyColumns[3];
  }

  // ---------------------------------------------------------------------------
  // psc2_to_psc1 and add_site

  /** A row of the transcoding table. */
  datatype Transcoding = Transcoding(psc2: int, psc1: int)

  function Psc2Column(t: seq<Transcoding>): (r: seq<int>)
    ensures |r| == |t| && forall k :: 0 <= k < |t| ==> r[k] == t[k].psc2
  {
    seq(|t|, k requires 0 <= k < |t| => t[k].psc2)
  }

  /** `psc2_to_psc1(id, transcoding)`: `int(id)` (ValueError when the id is not an
      integer), then the psc1 of the first row whose psc2 equals it (IndexError when
      none does). */
  function Psc2ToPsc1(id: string, t: seq<Transcoding>): (r: Result<int>)
    ensures ParseInt(id).None? ==> r == Err(NotAnInteger(id))
    ensures ParseInt(id).Some? && r.Err? ==> r == Err(NoMatchingRow)
  {
    match ParseInt(id)
    case None => Err(NotAnInteger(id))
    case Some(v) =>
      match FirstIndex(Psc2Column(t), v)
      case None => Err(NoMatchingRow)
      case Some(k) => Ok(t[k].psc1)
  }

  /** The lookup succeeds exactly when some row carries the id as psc2, and then
      answers with the psc1 of the first such row. */
  lemma Psc2ToPsc1Finds(id: string, t: seq<Transcoding>)
    ensures var r := Psc2ToPsc1(id, t);
      && (r.Ok? <==> ParseInt(id).Some? && exists k :: 0 <= k < |t| && t[k].psc2 == ParseInt(id).value)
      && (r.Ok? ==> exists k :: 0 <= k < |t| && t[k].psc2 == ParseInt(id).value && r.value == t[k].psc1
                                && forall j :: 0 <= j < k ==> t[j].psc2 != ParseInt(id).value)
  {
    if ParseInt(id).Some? {
      var v := ParseInt(id).value;
      var col := Psc2Column(t);
      if FirstIndex(col, v).None? {
        forall k | 0 <= k < |t| ensures t[k].psc2 != v {
          assert col[k] == t[k].psc2;
        }
      } else {
        var k := FirstIndex(col, v).value;
        assert t[k].psc2 == v;
        forall j | 0 <= j < k ensures t[j].psc2 != v {
          assert col[j] == t[j].psc2;
        }
      }
    }
  }

  /** `list_psc1`: the comprehension stops at the first id that cannot be
      transcoded. */
  function Psc1s(ids: seq<string>, t: seq<Transcoding>): (r: Result<seq<int>>)
    ensures r.Ok? <==> forall i :: 0 <= i < |ids| ==> Psc2ToPsc1(ids[i], t).Ok?
    ensures r.Ok? ==> |r.value| == |ids| && forall i :: 0 <= i < |ids| ==> Psc2ToPsc1(ids[i], t) == Ok(r.value[i])
    ensures r.Err? ==> exists k :: 0 <= k < |ids| && Psc2ToPsc1(ids[k], t) == Err(r.error)
                                && forall j :: 0 <= j < k ==> Psc2ToPsc1(ids[j], t).Ok?
    decreases |ids|
  {
    if ids == [] then Ok([])
    else
      var n := |ids| - 1;
      assert forall i :: 0 <= i < n ==> ids[..n][i] == ids[i];
      match Psc1s(ids[..n], t)
      case Err(e) => Err(e)
      case Ok(prefix) =>
        match Psc2ToPsc1(ids[n], t)
        case Err(e) => Err(e)
        case Ok(p) => Ok(prefix + [p])
  }

  /** `str(psc1)[0:-3]`: the site is the psc1 without its last three digits. */
  function SiteOf(psc1: int): string {
    DropLast(IntToStr(psc1), 3)
  }

  /** A psc1 of four digits or more has its thousands as site. */
  lemma SiteOfThousands(psc1: int)
    requires psc1 >= 1000
    ensures SiteOf(psc1) == IntToStr(psc1 / 1000)
  {
    NatToStrDropThree(psc1);
  }

  /** A psc1 below 1000 has the empty text as site, which `int()` later refuses. */
  lemma SiteOfSmall(psc1: int)
    requires 0 <= psc1 < 1000
    ensures SiteOf(psc1) == []
  {
    var n: nat := psc1;
    if n >= 10 {
      var m: nat := n / 10;
      assert m < 100;
      assert |NatToStr(n)| == |NatToStr(m)| + 1;
      if m >= 10 {
        assert m / 10 < 10;
        assert |NatToStr(m)| == |NatToStr(m / 10)| + 1;
      }
    }
  }

  /** `add_site`: the site of every row, or the first lookup error. */
  function AddSite(ids: seq<string>, t: seq<Transcoding>): (r: Result<seq<string>>)
    ensures r.Ok? <==> Psc1s(ids, t).Ok?
    ensures r.Err? ==> r.error == Psc1s(ids, t).error
    ensures r.Ok? ==> |r.value| == |ids| && forall i :: 0 <= i < |ids| ==>
      r.value[i] == SiteOf(Psc2ToPsc1(ids[i], t).value)
  {
    match Psc1s(ids, t)
    case Err(e) => Err(e)
    case Ok(psc1) => Ok(seq(|ids|, i requires 0 <= i < |ids| => SiteOf(psc1[i])))
  }

  // ---------------------------------------------------------------------------
  // The QC verdict

  /** A row of the merged table; None is the NaN an outer merge leaves where a table
      has no row for that participant, session and run. */
  datatype Merged = Merged(participant: string, session: string,
                           qcCat12: Option<int>, qcQuasiraw: Option<int>, qcFs: Option<int>)

  /** A row passes when no QC says 0; NaN compares unequal to 0, so a missing QC
      does not fail it. */
  predicate PassesAll(m: Merged) {
    m.qcCat12 != Some(0) && m.qcFs != Some(0) && m.qcQuasiraw != Some(0)
  }

  /** The loop building the `qc` column. */
  method CombineQc(rows: seq<Merged>) returns (qc: seq<int>)
    ensures |qc| == |rows|
    ensures forall i :: 0 <= i < |rows| ==> (qc[i] == 0 || qc[i] == 1)
    ensures forall i :: 0 <= i < |rows| ==> (qc[i] == 1 <==> PassesAll(rows[i]))
  {
    qc := [];
    for i := 0 to |rows|
      invariant |qc| == i
      invariant forall k :: 0 <= k < i ==> (qc[k] == 0 || qc[k] == 1) && (qc[k] == 1 <==> PassesAll(rows[k]))
    {
      if rows[i].qcCat12 == Some(0) || rows[i].qcFs == Some(0) || rows[i].qcQuasiraw == Some(0) {
        qc := qc + [0];
      } else {
        qc := qc + [1];
      }
    }
  }

  // ---------------------------------------------------------------------------
  // The per-site sheets

  /** A row of the written table, in the column order of the output. */
  datatype QcRow = QcRow(participant: string, session: string, site: Option<string>,
                         qcCat12: Option<int>, qcQuasiraw: Option<int>, qcFs: Option<int>, qc: int)

  /** One sheet per site: its rows, the number of them with qc 1 and their number. */
  datatype SiteSheet = SiteSheet(site: int, rows: seq<QcRow>, passed: nat, total: nat)

  /** `df_all["site"]` when every row has a site. */
  function SiteTexts(rows: seq<QcRow>): (r: seq<string>)
    requires forall i :: 0 <= i < |rows| ==> rows[i].site.Some?
    ensures |r| == |rows| && forall i :: 0 <= i < |rows| ==> r[i] == rows[i].site.value
  {
    seq(|rows|, i requires 0 <= i < |rows| => rows[i].site.value)
  }

  /** `[int(s) for s in unique]`, stopping at the first text that is not an integer. */
  function ParseAll(texts: seq<string>): (r: Result<seq<int>>)
    ensures r.Ok? <==> forall i :: 0 <= i < |texts| ==> ParseInt(texts[i]).Some?
    ensures r.Ok? ==> |r.value| == |texts| && forall i :: 0 <= i < |texts| ==> ParseInt(texts[i]) == Some(r.value[i])
    ensures r.Err? ==> exists k :: 0 <= k < |texts| && r.error == NotAnInteger(texts[k]) && ParseInt(texts[k]).None?
    decreases |texts|
  {
    if texts == [] then Ok([])
    else
      var n := |texts| - 1;
      assert forall i :: 0 <= i < n ==> texts[..n][i] == texts[i];
      match ParseAll(texts[..n])
      case Err(e) => Err(e)
      case Ok(prefix) =>
        match ParseInt(texts[n])
        case None => Err(NotAnInteger(texts[n]))
        case Some(v) => Ok(prefix + [v])
  }

  /** A boolean mask `df[cond]`: the elements that satisfy `keep`, in order. */
  function Filter<T(!new)>(xs: seq<T>, keep: T -> bool): (r: seq<T>)
    ensures |r| <= |xs|
    decreases |xs|
  {
    if xs == [] then []
    else
      var n := |xs| - 1;
      assert xs == xs[..n] + [xs[n]];
      Filter(xs[..n], keep) + (if keep(xs[n]) then [xs[n]] else [])
  }

  /** A mask keeps exactly the elements that satisfy its condition. */
  lemma {:induction false} FilterMembership<T(!new)>(xs: seq<T>, keep: T -> bool)
    ensures forall x :: x in Filter(xs, keep) <==> x in xs && keep(x)
    decreases |xs|
  {
    if xs != [] {
      var n := |xs| - 1;
      FilterMembership(xs[..n], keep);
      assert xs == xs[..n] + [xs[n]];
    }
  }

  /** The positions a mask selects. */
  ghost function Positions<T>(xs: seq<T>, keep: T -> bool): set<int> {
    set i | 0 <= i < |xs| && keep(xs[i])
  }

  /** `r` holds the elements of `xs` that satisfy `keep`, in order and with their
      repeats: element k of `r` is `xs[idx[k]]`, the positions increase strictly, and
      they are all the selected positions. */
  ghost predicate Selects<T>(xs: seq<T>, keep: T -> bool, r: seq<T>, idx: seq<int>) {
    && |idx| == |r|
    && (forall k :: 0 <= k < |idx| ==> 0 <= idx[k] < |xs| && r[k] == xs[idx[k]])
    && (forall k, l :: 0 <= k < l < |idx| ==> idx[k] < idx[l])
    && (forall i :: 0 <= i < |xs| ==> (i in idx <==> keep(xs[i])))
  }

  /** Selecting from a sequence with one more element. */
  lemma SelectsSnoc<T>(xs: seq<T>, keep: T -> bool, rp: seq<T>, prev: seq<int>)
    requires xs != [] && Selects(xs[..|xs| - 1], keep, rp, prev)
    ensures var n := |xs| - 1;
      Selects(xs, keep, rp + (if keep(xs[n]) then [xs[n]] else []), if keep(xs[n]) then prev + [n] else prev)
  {
    var n := |xs| - 1;
    var init := xs[..n];
    var r := rp + (if keep(xs[n]) then [xs[n]] else []);
    var idx := if keep(xs[n]) then prev + [n] else prev;
    forall k | 0 <= k < |idx|
      ensures 0 <= idx[k] < |xs| && r[k] == xs[idx[k]]
    {
      if k < |prev| {
        assert idx[k] == prev[k] && r[k] == rp[k] && init[prev[k]] == xs[prev[k]];
      }
    }
    forall k, l | 0 <= k < l < |idx|
      ensures idx[k] < idx[l]
    {
      if l < |prev| {
        assert idx[k] == prev[k] && idx[l] == prev[l];
      } else {
        assert idx[k] == prev[k] < n;
      }
    }
    forall i | 0 <= i < |xs|
      ensures i in idx <==> keep(xs[i])
    {
      if i < n {
        assert init[i] == xs[i];
        assert i in idx <==> i in prev;
      } else {
        assert n !in prev;
      }
    }
  }

  /** A mask keeps exactly the selected elements, in order and with their repeats. */
  lemma {:induction false} FilterIndices<T(!new)>(xs: seq<T>, keep: T -> bool) returns (idx: seq<int>)
    ensures |idx| == |Filter(xs, keep)|
    ensures forall k :: 0 <= k < |idx| ==> 0 <= idx[k] < |xs| && Filter(xs, keep)[k] == xs[idx[k]]
    ensures forall k, l :: 0 <= k < l < |idx| ==> idx[k] < idx[l]
    ensures forall i :: 0 <= i < |xs| ==> (i in idx <==> keep(xs[i]))
    decreases |xs|
  {
    if xs == [] {
      return [];
    }
    var n := |xs| - 1;
    var prev := FilterIndices(xs[..n], keep);
    var rp := Filter(xs[..n], keep);
    assert Selects(xs[..n], keep, rp, prev);
    SelectsSnoc(xs, keep, rp, prev);
    assert Filter(xs, keep) == rp + (if keep(xs[n]) then [xs[n]] else []);
    idx := if keep(xs[n]) then prev + [n] else prev;
  }

  /** Masking twice is masking once with both conditions. */
  lemma {:induction false} FilterFilter<T(!new)>(xs: seq<T>, p: T -> bool, q: T -> bool, pq: T -> bool)
    requires forall x :: pq(x) == (p(x) && q(x))
    ensures Filter(Filter(xs, p), q) == Filter(xs, pq)
    decreases |xs|
  {
    if xs != [] {
      var n := |xs| - 1;
      FilterFilter(xs[..n], p, q, pq);
      var f := Filter(xs[..n], p);
      assert Filter(xs, p) == f + (if p(xs[n]) then [xs[n]] else []);
      assert Filter(xs, pq) == Filter(xs[..n], pq) + (if pq(xs[n]) then [xs[n]] else []);
      assert pq(xs[n]) == (p(xs[n]) && q(xs[n]));
      if p(xs[n]) {
        FilterSnoc(f, xs[n], q);
        assert Filter(Filter(xs, p), q) == Filter(f, q) + (if q(xs[n]) then [xs[n]] else []);
      } else {
        assert f + [] == f;
        assert Filter(xs[..n], pq) + [] == Filter(xs[..n], pq);
      }
    }
  }

  /** Masking a sequence with one more element masks that element last. */
  lemma FilterSnoc<T(!new)>(ys: seq<T>, y: T, keep: T -> bool)
    ensures Filter(ys + [y], keep) == Filter(ys, keep) + (if keep(y) then [y] else [])
  {
    assert (ys + [y])[..|ys|] == ys;
  }

  /** A mask keeps as many elements as it selects positions. */
  lemma {:induction false} FilterCount<T(!new)>(xs: seq<T>, keep: T -> bool)
    ensures |Filter(xs, keep)| == |Positions(xs, keep)|
    decreases |xs|
  {
    if xs != [] {
      var n := |xs| - 1;
      var init := xs[..n];
      FilterCount(init, keep);
      var before, after := Positions(init, keep), Positions(xs, keep);
      var last: set<int> := if keep(xs[n]) then {n} else {};
      assert forall i :: 0 <= i < n ==> init[i] == xs[i];
      assert after == before + last;
      assert Filter(xs, keep) == Filter(init, keep) + (if keep(xs[n]) then [xs[n]] else []);
      assert n !in before;
    }
  }

  /** The condition `df_all["site"] == text`. */
  function AtSite(text: string): QcRow -> bool {
    (x: QcRow) => x.site == Some(text)
  }

  /** The condition `df_all["qc"] == 1`. */
  function HasQc1(x: QcRow): bool {
    x.qc == 1
  }

  /** `df_all[df_all["site"] == text]`: the rows of one site, in table order. */
  function RowsAt(rows: seq<QcRow>, text: string): (r: seq<QcRow>)
    ensures |r| <= |rows|
    ensures forall x :: x in r <==> x in rows && x.site == Some(text)
    ensures |r| == |SiteIndices(rows, text)|
  {
    FilterMembership(rows, AtSite(text));
    FilterCount(rows, AtSite(text));
    assert Positions(rows, AtSite(text)) == SiteIndices(rows, text);
    Filter(rows, AtSite(text))
  }

  /** The rows with qc 1. */
  function Passing(rows: seq<QcRow>): (r: seq<QcRow>)
    ensures |r| <= |rows|
    ensures forall x :: x in r <==> x in rows && x.qc == 1
  {
    FilterMembership(rows, HasQc1);
    Filter(rows, HasQc1)
  }

  /** The positions of the rows of one site. */
  ghost function SiteIndices(rows: seq<QcRow>, text: string): set<int> {
    set i | 0 <= i < |rows| && rows[i].site == Some(text)
  }

  /** The positions of the rows of one site that have qc 1. */
  ghost function PassingSiteIndices(rows: seq<QcRow>, text: string): set<int> {
    set i | 0 <= i < |rows| && rows[i].site == Some(text) && rows[i].qc == 1
  }

  /** `df_site` keeps exactly the rows of its site, in table order and with their
      repeats: row k is the table row at position idx[k], the positions increase
      strictly, and they are all the positions of that site. */
  lemma RowsAtIndices(rows: seq<QcRow>, text: string) returns (idx: seq<int>)
    ensures |idx| == |RowsAt(rows, text)|
    ensures forall k :: 0 <= k < |idx| ==> 0 <= idx[k] < |rows| && RowsAt(rows, text)[k] == rows[idx[k]]
    ensures forall k, l :: 0 <= k < l < |idx| ==> idx[k] < idx[l]
    ensures forall i :: 0 <= i < |rows| ==> (i in idx <==> rows[i].site == Some(text))
  {
    idx := FilterIndices(rows, AtSite(text));
  }

  /** `tot` and `nbQC` of a site are the numbers of its rows and of its rows with
      qc 1. */
  lemma RowsAtCounts(rows: seq<QcRow>, text: string)
    ensures |RowsAt(rows, text)| == |SiteIndices(rows, text)|
    ensures |Passing(RowsAt(rows, text))| == |PassingSiteIndices(rows, text)|
  {
    var both := (x: QcRow) => x.site == Some(text) && x.qc == 1;
    FilterFilter(rows, AtSite(text), HasQc1, both);
    FilterCount(rows, both);
    assert Positions(rows, both) == PassingSiteIndices(rows, text);
  }

  /** The sheet of one site: `df_site`, `nbQC` and `tot`. */
  function Sheet(rows: seq<QcRow>, site: int): (r: SiteSheet)
    ensures r.site == site && r.total == |r.rows| && r.passed <= r.total
    ensures forall x :: x in r.rows <==> x in rows && x.site == Some(IntToStr(site))
    ensures r.total == |SiteIndices(rows, IntToStr(site))|
    ensures r.passed == |PassingSiteIndices(rows, IntToStr(site))|
  {
    var at := RowsAt(rows, IntToStr(site));
    RowsAtCounts(rows, IntToStr(site));
    SiteSheet(site, at, |Passing(at)|, |at|)
  }


  /** `sorted(ind_site)`: the distinct sites as integers, ascending, or the ValueError
      of a site that is not an integer. */
  function SiteList(rows: seq<QcRow>): (r: Result<seq<int>>)
    requires forall i :: 0 <= i < |rows| ==> rows[i].site.Some?
  {
    match ParseAll(FirstOccurrences(SiteTexts(rows)))
    case Err(e) => Err(e)
    case Ok(sites) => Ok(SortInts(sites))
  }

  /** The sheet of every listed site, in list order. */
  function Sheets(rows: seq<QcRow>): (r: Result<seq<SiteSheet>>)
    requires forall i :: 0 <= i < |rows| ==> rows[i].site.Some?
  {
    match SiteList(rows)
    case Err(e) => Err(e)
    case Ok(sorted) => Ok(seq(|sorted|, k requires 0 <= k < |sorted| => Sheet(rows, sorted[k])))
  }

  /** The loop over `sorted(ind_site)`. */
  method WriteSheets(rows: seq<QcRow>) returns (r: Result<seq<SiteSheet>>)
    requires forall i :: 0 <= i < |rows| ==> rows[i].site.Some?
    ensures r == Sheets(rows)
  {
    var sites := SiteList(rows);
    if sites.Err? {
      return Err(sites.error);
    }
    var sheets := SheetsOf(rows, sites.value);
    return Ok(sheets);
  }

  method SheetsOf(rows: seq<QcRow>, sorted: seq<int>) returns (sheets: seq<SiteSheet>)
    ensures sheets == seq(|sorted|, k requires 0 <= k < |sorted| => Sheet(rows, sorted[k]))
  {
    sheets := [];
    for k := 0 to |sorted|
      invariant |sheets| == k
      invariant forall j :: 0 <= j < k ==> sheets[j] == Sheet(rows, sorted[j])
    {
      sheets := sheets + [Sheet(rows, sorted[k])];
    }
  }

  /** The sites are listed in ascending order. */
  lemma SiteListAscending(rows: seq<QcRow>)
    requires forall i :: 0 <= i < |rows| ==> rows[i].site.Some?
    requires SiteList(rows).Ok?
    ensures Ascending(SiteList(rows).value)
  {
    SortIntsAscending(ParseAll(FirstOccurrences(SiteTexts(rows))).value);
  }

  /** The sheets come in ascending site order, each with at most as many passing rows
      as rows. */
  lemma SheetsAscending(rows: seq<QcRow>)
    requires forall i :: 0 <= i < |rows| ==> rows[i].site.Some?
    requires Sheets(rows).Ok?
    ensures var s := Sheets(rows).value;
      && (forall i, j :: 0 <= i < j < |s| ==> s[i].site <= s[j].site)
      && (forall i :: 0 <= i < |s| ==> s[i].passed <= s[i].total == |s[i].rows|)
  {
    SiteListAscending(rows);
  }

  /** Sites written the way `str()` writes an integer are listed once each. */
  lemma SiteListDistinct(rows: seq<QcRow>)
    requires forall i :: 0 <= i < |rows| ==> exists v :: rows[i].site == Some(IntToStr(v))
    requires SiteList(rows).Ok?
    ensures var sorted := SiteList(rows).value;
      forall i, j :: 0 <= i < j < |sorted| ==> sorted[i] < sorted[j]
  {
    var texts := FirstOccurrences(SiteTexts(rows));
    var sites := ParseAll(texts).value;
    var sorted := SortInts(sites);
    SortIntsAscending(sites);
    forall k | 0 <= k < |texts| ensures texts[k] == IntToStr(sites[k]) {
      assert texts[k] in SiteTexts(rows);
      var i :| 0 <= i < |rows| && SiteTexts(rows)[i] == texts[k];
      var v :| rows[i].site == Some(IntToStr(v));
      IntToStrRoundTrip(v);
    }
    forall i, j | 0 <= i < j < |sorted| ensures sorted[i] < sorted[j] {
      DistinctParsesDistinct(texts, sites, sorted, i, j);
    }
  }

  /** Sites written the way `str()` writes an integer, as `add_site` writes them,
      make every site's sheet appear once. */
  lemma SheetsDistinct(rows: seq<QcRow>)
    requires forall i :: 0 <= i < |rows| ==> exists v :: rows[i].site == Some(IntToStr(v))
    requires Sheets(rows).Ok?
    ensures var s := Sheets(rows).value;
      forall i, j :: 0 <= i < j < |s| ==> s[i].site < s[j].site
  {
    SiteListDistinct(rows);
  }

  /** Every site written as `str()` writes it is listed. */
  lemma SiteListHas(rows: seq<QcRow>, i: nat, v: int)
    requires forall i :: 0 <= i < |rows| ==> rows[i].site.Some?
    requires SiteList(rows).Ok?
    requires i < |rows| && rows[i].site == Some(IntToStr(v))
    ensures v in SiteList(rows).value
  {
    var texts := FirstOccurrences(SiteTexts(rows));
    var sites := ParseAll(texts).value;
    assert SiteTexts(rows)[i] == IntToStr(v);
    assert IntToStr(v) in texts;
    var a :| 0 <= a < |texts| && texts[a] == IntToStr(v);
    IntToStrRoundTrip(v);
    assert sites[a] == v;
    assert v in multiset(SortInts(sites));
  }

  /** Every row whose site is written as `str()` writes it is counted in the sheet of
      that site. */
  lemma SheetsCover(rows: seq<QcRow>, i: nat, v: int)
    requires forall i :: 0 <= i < |rows| ==> rows[i].site.Some?
    requires Sheets(rows).Ok?
    requires i < |rows| && rows[i].site == Some(IntToStr(v))
    ensures exists k :: 0 <= k < |Sheets(rows).value| && Sheets(rows).value[k].site == v
                        && rows[i] in Sheets(rows).value[k].rows
  {
    SiteListHas(rows, i, v);
    var sorted := SiteList(rows).value;
    var k :| 0 <= k < |sorted| && sorted[k] == v;
    assert Sheets(rows).value[k] == Sheet(rows, v);
  }

  /** Two distinct texts, each written as `str()` writes its value, parse to distinct
      integers; so a value is never repeated in the sorted list. */
  lemma DistinctParsesDistinct(texts: seq<string>, sites: seq<int>, sorted: seq<int>, i: nat, j: nat)
    requires |sites| == |texts|
    requires forall a, b :: 0 <= a < b < |texts| ==> texts[a] != texts[b]
    requires forall k :: 0 <= k < |texts| ==> texts[k] == IntToStr(sites[k])
    requires multiset(sorted) == multiset(sites)
    requires i < j < |sorted|
    ensures sorted[i] != sorted[j]
  {
    forall a, b | 0 <= a < b < |sites| ensures sites[a] != sites[b] {
      assert texts[a] == IntToStr(sites[a]) && texts[b] == IntToStr(sites[b]);
    }
    var v := sorted[i];
    DistinctCountsAtMostOne(sites, v);
    assert sorted == sorted[..j] + [sorted[j]] + sorted[j + 1..];
    assert sorted[..j][i] == v;
    assert multiset(sorted[..j])[v] >= 1;
  }

  // ---------------------------------------------------------------------------
  // run

  /** What the script writes: the `qc_anat` sheet, and the per-site sheets when a
      transcoding table is given. */
  datatype Output = Output(table: seq<QcRow>, sheets: seq<SiteSheet>)

  function Ids(rows: seq<Merged>): (r: seq<string>)
    ensures |r| == |rows| && forall i :: 0 <= i < |rows| ==> r[i] == rows[i].participant
  {
    seq(|rows|, i requires 0 <= i < |rows| => rows[i].participant)
  }

  /** One written row: the merged row's keys and QCs, its site and its verdict. */
  predicate RowOf(x: QcRow, m: Merged, site: Option<string>) {
    && x.participant == m.participant && x.session == m.session && x.site == site
    && x.qcCat12 == m.qcCat12 && x.qcQuasiraw == m.qcQuasiraw && x.qcFs == m.qcFs
    && (x.qc == 0 || x.qc == 1) && (x.qc == 1 <==> PassesAll(m))
  }

  /** The `qc_anat` sheet: each merged row with its site and its verdict. */
  function Written(rows: seq<Merged>, sites: seq<Option<string>>): (r: seq<QcRow>)
    requires |sites| == |rows|
    ensures |r| == |rows| && forall i :: 0 <= i < |rows| ==> RowOf(r[i], rows[i], sites[i])
  {
    seq(|rows|, i requires 0 <= i < |rows| =>
      QcRow(rows[i].participant, rows[i].session, sites[i],
            rows[i].qcCat12, rows[i].qcQuasiraw, rows[i].qcFs, if PassesAll(rows[i]) then 1 else 0))
  }

  /** The site column set to None. */
  function NoSites(n: nat): (r: seq<Option<string>>)
    ensures |r| == n && forall i :: 0 <= i < n ==> r[i].None?
  {
    seq(n, i => None)
  }

  /** The site column of `add_site`, every cell present. */
  function Sited(sites: seq<string>): (r: seq<Option<string>>)
    ensures |r| == |sites| && forall i :: 0 <= i < |sites| ==> r[i] == Some(sites[i])
  {
    seq(|sites|, i requires 0 <= i < |sites| => Some(sites[i]))
  }

  /** `run` from the merged table on: sites (when a transcoding table is given), the
      `qc` column, the column selection and the per-site sheets. */
  method Run(rows: seq<Merged>, transcoding: Option<seq<Transcoding>>) returns (r: Result<Output>)
    ensures transcoding.None? ==> r == Ok(Output(Written(rows, NoSites(|rows|)), []))
    ensures transcoding.Some? ==> var sites := AddSite(Ids(rows), transcoding.value);
      && (sites.Err? ==> r == Err(sites.error))
      && (sites.Ok? ==> var table := Written(rows, Sited(sites.value));
            match Sheets(table)
            case Err(e) => r == Err(e)
            case Ok(sheets) => r == Ok(Output(table, sheets)))
  {
    var sites: seq<Option<string>>;
    if transcoding.Some? {
      var added := AddSite(Ids(rows), transcoding.value);
      if added.Err? {
        return Err(added.error);
      }
      sites := Sited(added.value);
    } else {
      sites := NoSites(|rows|);
    }
    var qc := CombineQc(rows);
    var table := seq(|rows|, i requires 0 <= i < |rows| =>
      QcRow(rows[i].participant, rows[i].session, sites[i],
            rows[i].qcCat12, rows[i].qcQuasiraw, rows[i].qcFs, qc[i]));
    assert table == Written(rows, sites) by {
      forall i | 0 <= i < |rows| ensures table[i] == Written(rows, sites)[i] {
        assert qc[i] == if PassesAll(rows[i]) then 1 else 0;
      }
    }
    if transcoding.None? {
      return Ok(Output(table, []));
    }
    var sheets := WriteSheets(table);
    if sheets.Err? {
      return Err(sheets.error);
    }
    return Ok(Output(table, sheets.value));
  }

  /** A psc1 below 1000 leaves its row with the empty site, which stops the per-site
      sheets with a ValueError. */
  lemma ShortPsc1StopsSheets(rows: seq<QcRow>, i: nat)
    requires forall k :: 0 <= k < |rows| ==> rows[k].site.Some?
    requires i < |rows| && rows[i].site == Some([])
    ensures Sheets(rows).Err?
  {
    var texts := FirstOccurrences(SiteTexts(rows));
    assert SiteTexts(rows)[i] == [];
    assert [] in texts;
    var k :| 0 <= k < |texts| && texts[k] == [];
    assert ParseInt(texts[k]).None?;
  }

  /** Sites derived from psc1 codes of four digits or more are written the way `str()`
      writes them, so SheetsDistinct and SheetsCover apply to them. */
  lemma AddedSitesAreIntegers(ids: seq<string>, t: seq<Transcoding>, i: nat)
    requires AddSite(ids, t).Ok? && i < |ids|
    requires Psc2ToPsc1(ids[i], t).value >= 1000
    ensures AddSite(ids, t).value[i] == IntToStr(Psc2ToPsc1(ids[i], t).value / 1000)
  {
    SiteOfThousands(Psc2ToPsc1(ids[i], t).value);
  }
}
