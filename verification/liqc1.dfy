/** The first lithium QC table: the list of images, the PNG name of each image, the
    PNG names a pattern keeps for the review document, and the rewrite of its
    `sub`/`qc` table into qc.csv, one row per reviewed image holding the participant,
    the session label "M03Li", the site, the reconstruction label (pattern "T1wLi"
    only), a visual score 0 and qc 1, sorted by participant. */
module LiQc1 {
  import opened Base
  import opened PyStr
  import opened Manifest
  import opened Sorting
  import opened QcLookup

  // ---------------------------------------------------------------------------
  // get_anat

  /** `get_anat`: the loop removing every newline from each line read. */
  method GetAnat(lines: seq<string>) returns (images: seq<string>)
    ensures |images| == |lines|
    ensures forall i :: 0 <= i < |lines| ==> images[i] == Replace(lines[i], "\n", "")
    ensures forall i :: 0 <= i < |lines| ==> !Contains(images[i], "\n")
  {
    images := lines;
    for i := 0 to |images|
      invariant |images| == |lines|
      invariant forall k :: 0 <= k < i ==> images[k] == Replace(lines[k], "\n", "") && !Contains(images[k], "\n")
      invariant forall k :: i <= k < |lines| ==> images[k] == lines[k]
    {
      ReplaceCharRemovesAll(lines[i], '\n');
      images := images[i := Replace(images[i], "\n", "")];
    }
  }

  /** A line as `readlines` yields it, ending with its newline, gives back the path. */
  lemma LineGivesPath(path: string)
    requires '\n' !in path
    ensures Replace(path + "\n", "\n", "") == path
  {
    assert path + "\n"[..0] == path;
    NewlineInContained(path);
    ReplaceFinal(path, "\n", "");
  }

  lemma {:induction false} NewlineInContained(s: string)
    requires '\n' !in s
    ensures !Contains(s, "\n")
    decreases |s|
  {
    if s != [] {
      NewlineInContained(s[1..]);
      assert s[..1] == [s[0]];
    }
  }

  // ---------------------------------------------------------------------------
  // PNG names and the create_pdf filter

  /** `os.path.basename(image).rstrip(".nii.gz")`: trailing '.', 'n', 'i', 'g' and 'z'
      are stripped, whatever their order. */
  function PngName(image: string): string {
    RStrip(Basename(image), CharSet(".nii.gz"))
  }

  /** The end of the lithium PNG names without their extension. */
  const LimrStem := "ses-M03Li_acq-trufi_run-1_part-mag_limr"

  /** The end of the PNG names pattern "Li" keeps. */
  const LiSuffix := LimrStem + ".png"

  /** The end of the lithium image names. */
  const LimriImage := LimrStem + "i.nii.gz"

  /** The `create_pdf` filter: "Li" keeps the lithium PNGs, "T1wLi" every PNG, any
      other pattern nothing. */
  predicate KeepPng(pattern: string, name: string) {
    (pattern == "Li" && EndsWith(name, LiSuffix)) || (pattern == "T1wLi" && EndsWith(name, ".png"))
  }

  /** The titles of the review document, in listing order. */
  function Titles(pattern: string, names: seq<string>): (r: seq<string>)
    ensures forall x :: x in r <==> x in names && KeepPng(pattern, x)
    decreases |names|
  {
    if names == [] then []
    else
      var n := |names| - 1;
      assert names == names[..n] + [names[n]];
      Titles(pattern, names[..n]) + (if KeepPng(pattern, names[n]) then [names[n]] else [])
  }

  /** The loop of `create_pdf` collecting the titles. */
  method SelectTitles(pattern: string, names: seq<string>) returns (titles: seq<string>)
    ensures titles == Titles(pattern, names)
  {
    titles := [];
    for i := 0 to |names|
      invariant titles == Titles(pattern, names[..i])
    {
      assert names[..i + 1][..i] == names[..i];
      if KeepPng(pattern, names[i]) {
        titles := titles + [names[i]];
      }
    }
    assert names[..|names|] == names;
  }

  /** The strip takes the "i" of "limri" along with ".nii.gz": a lithium image gives
      the PNG name ending in "limr" that pattern "Li" looks for. */
  lemma LithiumPngName(image: string, stem: string)
    requires Basename(image) == stem + LimriImage
    ensures PngName(image) == stem + LimrStem
    ensures KeepPng("Li", PngName(image) + ".png")
  {
    var kept := stem + LimrStem;
    var tail := "i.nii.gz";
    assert Basename(image) == kept + tail;
    assert forall k :: 0 <= k < |tail| ==> tail[k] in CharSet(".nii.gz") by {
      assert forall k :: 0 <= k < |tail| ==> tail[k] in ".nii.gz";
    }
    assert kept[|kept| - 1] == LimrStem[|LimrStem| - 1] == 'r';
    RStripTail(kept, tail, CharSet(".nii.gz"));
    var png := kept + ".png";
    assert png == stem + LiSuffix;
    assert png[|png| - |LiSuffix|..] == LiSuffix;
  }

  /** Every title pattern "Li" keeps is also kept by pattern "T1wLi". */
  lemma LiTitlesAmongT1wLi(names: seq<string>)
    ensures forall x :: x in Titles("Li", names) ==> x in Titles("T1wLi", names)
  {
    forall x | x in Titles("Li", names) ensures x in Titles("T1wLi", names) {
      assert x[|x| - |LiSuffix|..] == LiSuffix;
      assert x[|x| - 4..] == LiSuffix[|LiSuffix| - 4..];
    }
  }

  // ---------------------------------------------------------------------------
  // The row rewrite of `all`

  /** `.fillna(0)` on a table read as text: an empty cell becomes "0". */
  function Cell(c: string): string {
    if c == [] then "0" else c
  }

  function FillCells(cells: seq<string>): (r: seq<string>)
    ensures |r| == |cells| && forall k :: 0 <= k < |cells| ==> r[k] == Cell(cells[k])
  {
    seq(|cells|, k requires 0 <= k < |cells| => Cell(cells[k]))
  }

  /** The participants table after `.fillna(0)`: no cell is empty, and a filled cell
      keeps its text. */
  function FillNa(t: Table): (r: Table)
    ensures r.columns.Keys == t.columns.Keys && |r.ids| == |t.ids|
    ensures forall k :: 0 <= k < |t.ids| ==> r.ids[k] != [] && (t.ids[k] != [] ==> r.ids[k] == t.ids[k])
    ensures forall c, k :: c in t.columns && 0 <= k < |t.ids| ==>
      r.columns[c][k] != [] && (t.columns[c][k] != [] ==> r.columns[c][k] == t.columns[c][k])
  {
    Participants(FillCells(t.ids), map c | c in t.columns :: FillCells(t.columns[c]))
  }

  /** What the rewrite works with: the pattern and, when given, the participants. */
  datatype Env = Env(pattern: string, participants: Option<Table>)

  /** A row of qc.csv; `rec` is None when the pattern is not "T1wLi". */
  datatype Qc1Row = Qc1Row(participant: string, ses: string, site: string, rec: Option<string>,
                           visualQcScore: int, qc: int)

  function Participant(x: Qc1Row): string {
    x.participant
  }

  const RowSession := "M03Li"

  /** `title.split("rec-")[1].split("_")[0]`; None is the IndexError of a title
      without "rec-". */
  function RecOf(title: string): Option<string> {
    var fields := Split(title, "rec-");
    if |fields| < 2 then None else Some(Split(fields[1], "_")[0])
  }

  /** One iteration of the `iterrows` loop, on a title of the `sub` column. */
  function RewriteStep(env: Env, title: string): Outcome<Qc1Row> {
    var fields := Split(title, "_");
    if |fields| < 2 then Fail(TooFewFields(title))
    else
      var psc2 := fields[0];
      var ses := fields[1];
      var site := if env.participants.None? then Ok("0") else Psc2ToSite(psc2, ses, FillNa(env.participants.value));
      if site.Err? then Fail(site.error)
      else if env.pattern != "T1wLi" then Accept(Qc1Row("sub-" + psc2, RowSession, site.value, None, 0, 1))
      else if RecOf(title).None? then Fail(TooFewFields(title))
      else Accept(Qc1Row("sub-" + psc2, RowSession, site.value, RecOf(title), 0, 1))
  }

  method VisitTitle(env: Env, title: string) returns (o: Outcome<Qc1Row>)
    ensures o == RewriteStep(env, title)
  {
    var fields := Split(title, "_");
    if |fields| < 2 {
      return Fail(TooFewFields(title));
    }
    var psc2 := fields[0];
    var site := "0";
    if env.participants.Some? {
      var found := Psc2ToSite(psc2, fields[1], FillNa(env.participants.value));
      if found.Err? {
        return Fail(found.error);
      }
      site := found.value;
    }
    var rec: Option<string> := None;
    if env.pattern == "T1wLi" {
      rec := RecOf(title);
      if rec.None? {
        return Fail(TooFewFields(title));
      }
    }
    return Accept(Qc1Row("sub-" + psc2, RowSession, site, rec, 0, 1));
  }

  /** The `iterrows` loop over the titles. */
  method RewriteRows(env: Env, titles: seq<string>) returns (r: Result<seq<Qc1Row>>)
    ensures r == Scan(env, titles, RewriteStep)
  {
    var done: seq<Qc1Row> := [];
    for i := 0 to |titles|
      invariant Scan(env, titles[..i], RewriteStep) == Ok(done)
    {
      var o := VisitTitle(env, titles[i]);
      assert titles[..i + 1] == titles[..i] + [titles[i]];
      ScanSnoc(env, titles[..i], titles[i], RewriteStep);
      match o
      case Fail(e) =>
        ScanErrPersists(env, titles, RewriteStep, i + 1);
        return Err(e);
      case Skip =>
      case Accept(x) =>
        done := done + [x];
    }
    assert titles[..|titles|] == titles;
    return Ok(done);
  }

  /** The columns of qc.csv: `rec` only for pattern "T1wLi". */
  function Columns(pattern: string): (r: seq<string>)
    ensures "rec" in r <==> pattern == "T1wLi"
    ensures |r| >= 5 && r[..3] == ["participant_id", "ses", "site"] && r[|r| - 2..] == ["visual_qc_score", "qc"]
  {
    if pattern == "T1wLi" then ["participant_id", "ses", "site", "rec", "visual_qc_score", "qc"]
    else ["participant_id", "ses", "site", "visual_qc_score", "qc"]
  }

  datatype Qc1Table = Qc1Table(columns: seq<string>, rows: seq<Qc1Row>)

  /** `all` from the table of titles on: the rewritten rows under the pattern's
      columns, sorted by participant. */
  method All(titles: seq<string>, pattern: string, participants: Option<Table>) returns (r: Result<Qc1Table>)
    ensures var spec := Scan(Env(pattern, participants), titles, RewriteStep);
      && (spec.Err? ==> r == Err(spec.error))
      && (spec.Ok? ==> r == Ok(Qc1Table(Columns(pattern), SortBy(spec.value, Participant))))
  {
    var rows := RewriteRows(Env(pattern, participants), titles);
    if rows.Err? {
      return Err(rows.error);
    }
    return Ok(Qc1Table(Columns(pattern), SortBy(rows.value, Participant)));
  }

  // ---------------------------------------------------------------------------
  // Properties

  /** A title `<psc2>_<ses>_<rest>` gives the participant "sub-<psc2>", the site of
      psc2 in the `<ses>_center` column (or "0" without participants) and the
      constant columns. */
  lemma TitleFields(env: Env, psc2: string, ses: string, rest: string)
    requires '_' !in psc2 && '_' !in ses
    ensures var o := RewriteStep(env, psc2 + "_" + ses + "_" + rest);
      && (env.participants.Some? && Psc2ToSite(psc2, ses, FillNa(env.participants.value)).Err? ==>
            o == Fail(Psc2ToSite(psc2, ses, FillNa(env.participants.value)).error))
      && (o.Accept? ==>
            && o.row.participant == "sub-" + psc2
            && o.row.site == (if env.participants.None? then "0" else Psc2ToSite(psc2, ses, FillNa(env.participants.value)).value))
  {
    LeadingTwoFields(psc2, ses, rest, '_');
  }

  /** For "T1wLi", `rec` is the text between the first "rec-" and the next "_". */
  lemma RecOfTitle(a: string, rec: string, u: string)
    requires !Contains(a + "rec", "rec-") && '_' !in rec && !Contains(rec + "_" + u, "rec-")
    ensures RecOf(a + "rec-" + rec + "_" + u) == Some(rec)
  {
    var t := rec + "_" + u;
    assert a + "rec-" + rec + "_" + u == a + "rec-" + t;
    AfterFirstRec(a, t);
    FirstUnderscoreField(rec, u);
  }

  lemma AfterFirstRec(a: string, t: string)
    requires !Contains(a + "rec", "rec-") && !Contains(t, "rec-")
    ensures Split(a + "rec-" + t, "rec-") == [a, t]
  {
    assert "rec-"[..3] == "rec";
    SplitFirst(a, "rec-", t);
    SplitAbsent(t, "rec-");
  }

  lemma FirstUnderscoreField(r: string, u: string)
    requires '_' !in r
    ensures Split(r + "_" + u, "_")[0] == r
  {
    SplitAround(r, '_', u);
    SplitWithoutSep(r, '_');
  }

  /** Every written row has the session "M03Li", a visual score 0 and qc 1; it has a
      `rec` exactly for pattern "T1wLi", and the site "0" when no participants table
      is given. */
  lemma RowsConstants(env: Env, titles: seq<string>)
    requires Scan(env, titles, RewriteStep).Ok?
    ensures forall x :: x in Scan(env, titles, RewriteStep).value ==>
      && x.ses == RowSession && x.visualQcScore == 0 && x.qc == 1
      && (x.rec.Some? <==> env.pattern == "T1wLi")
      && (env.participants.None? ==> x.site == "0")
  {
    ScanRowsAreAccepted(env, titles, RewriteStep);
  }

  /** Every title gives one row: the rewrite never drops a title, and raises at the
      first title without two `_`-separated fields, without a site or (for "T1wLi")
      without "rec-". */
  lemma OneRowPerTitle(env: Env, titles: seq<string>)
    ensures Scan(env, titles, RewriteStep).Ok? ==>
      |Scan(env, titles, RewriteStep).value| == |titles|
      && forall i :: 0 <= i < |titles| ==> RewriteStep(env, titles[i]) == Accept(Scan(env, titles, RewriteStep).value[i])
    ensures Scan(env, titles, RewriteStep).Err? ==>
      exists i :: 0 <= i < |titles| && RewriteStep(env, titles[i]) == Fail(Scan(env, titles, RewriteStep).error)
        && forall j :: 0 <= j < i ==> RewriteStep(env, titles[j]).Accept?
  {
    ScanFailsAtFirstFailure(env, titles, RewriteStep);
    if Scan(env, titles, RewriteStep).Ok? {
      ScanAcceptingAll(env, titles, RewriteStep);
    }
  }

  /** The table `all` writes holds one row per title, ordered by participant: the
      rewritten rows, permuted. */
  lemma WrittenSorted(titles: seq<string>, pattern: string, participants: Option<Table>)
    requires Scan(Env(pattern, participants), titles, RewriteStep).Ok?
    ensures var rows := Scan(Env(pattern, participants), titles, RewriteStep).value;
      var written := SortBy(rows, Participant);
      && SortedBy(written, Participant)
      && multiset(written) == multiset(rows)
      && |written| == |titles|
  {
    var rows := Scan(Env(pattern, participants), titles, RewriteStep).value;
    SortBySorted(rows, Participant);
    OneRowPerTitle(Env(pattern, participants), titles);
    assert |multiset(SortBy(rows, Participant))| == |multiset(rows)|;
  }
}
