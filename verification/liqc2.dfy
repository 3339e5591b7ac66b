/** The second lithium QC table: one row per registered hanat image, holding its
    subject, the session label "M03Li", the subject's acquisition center when a
    participants table is given, the fsleyes command line that shows the registration
    results stored next to the image, an empty visual score and qc 1; sorted by
    participant. */
module LiQc2 {
  import opened Base
  import opened PyStr
  import opened Snapshot
  import opened Manifest
  import opened Sorting
  import opened QcLookup

  /** The session label every row gets. */
  const RowSession := "M03Li"

  /** The session whose `<session>_center` column holds the site. */
  const CenterSession := "ses-M03Li"

  /** The columns of qc.csv, in order. */
  const Columns: seq<string> := ["participant_id", "ses", "site", "fsleyes", "visual_qc_score", "qc"]

  /** A row of qc.csv; None is an empty cell. */
  datatype Qc2Row = Qc2Row(participant: string, ses: string, site: Option<string>,
                           fsleyes: string, visualQcScore: Option<int>, qc: int)

  function Participant(x: Qc2Row): string {
    x.participant
  }

  // ---------------------------------------------------------------------------
  // Participants and roots

  /** `path.split(os.sep)[-3]` */
  function ParticipantOf(u: (), path: string): Outcome<string> {
    match FromEnd(Split(path, "/"), 3)
    case None => Fail(PathTooShallow(path))
    case Some(id) => Accept(id)
  }

  /** `list_sujet`: the comprehension raises at the first path with fewer than three
      components. */
  function ParticipantIds(paths: seq<string>): Result<seq<string>> {
    Scan((), paths, ParticipantOf)
  }

  /** The subject of `<prefix>/<subject>/<a>/<b>` is the component three from the end. */
  lemma ParticipantOfPath(prefix: string, subject: string, a: string, b: string)
    requires IsName(subject) && IsName(a) && IsName(b)
    ensures ParticipantOf((), prefix + "/" + subject + "/" + a + "/" + b) == Accept(subject)
  {
    var p := prefix + "/" + subject + "/" + a + "/" + b;
    assert p == prefix + ['/'] + (subject + ['/'] + (a + ['/'] + b));
    SplitAround(prefix, '/', subject + ['/'] + (a + ['/'] + b));
    SplitAround(subject, '/', a + ['/'] + b);
    SplitAround(a, '/', b);
    SplitWithoutSep(subject, '/');
    SplitWithoutSep(a, '/');
    SplitWithoutSep(b, '/');
  }

  /** `path.split("hanat")[0]`: the text before the first "hanat". */
  function Root(path: string): (r: string)
    ensures StartsWith(path, r) && !Contains(r, "hanat")
  {
    SplitHead(path, "hanat");
    Split(path, "hanat")[0]
  }

  /** The root is cut at the FIRST "hanat" of the path, so a directory whose name holds
      "hanat" shortens it; when no directory does, the root of `<d>/hanat.nii.gz` is
      `<d>/`. */
  lemma RootOfHanatFile(d: string, rest: string)
    requires !Contains(d + "/hana", "hanat")
    ensures Root(d + "/hanat" + rest) == d + "/"
  {
    assert "hanat"[..4] == "hana";
    assert (d + "/") + "hanat"[..4] == d + "/hana";
    SplitFirst(d + "/", "hanat", rest);
    assert d + "/hanat" + rest == (d + "/") + "hanat" + rest;
  }

  // ---------------------------------------------------------------------------
  // The fsleyes commands

  /** The viewer call, relative to the exported directory. */
  const Viewer := "fsleyes $TMP_DIR_FOR_FSL/li2hanat.nii.gz $TMP_DIR_FOR_FSL/hanat.nii.gz $TMP_DIR_FOR_FSL/h2mnianat.nii.gz $TMP_DIR_FOR_FSL/li2mnianat.nii.gz $TMP_DIR_FOR_FSL/li2mni.nii.gz "

  /** `template_mni or ""` */
  function TemplateArg(template: Option<string>): string {
    if template.None? then "" else template.value
  }

  const Export := "export TMP_DIR_FOR_FSL="

  /** What follows the quoted directory: the viewer call and the template. */
  function ViewerCall(template: Option<string>): string {
    "; " + Viewer + TemplateArg(template)
  }

  /** The command of one root: export the directory, then open the five images and
      the template. */
  function Fsleyes(root: string, template: Option<string>): string {
    Export + "\"" + root + "\"" + ViewerCall(template)
  }

  /** The loop building `fsl_commands`. */
  method FslCommands(roots: seq<string>, template: Option<string>) returns (cmds: seq<string>)
    ensures |cmds| == |roots|
    ensures forall i :: 0 <= i < |roots| ==> cmds[i] == Fsleyes(roots[i], template)
  {
    cmds := [];
    for i := 0 to |roots|
      invariant |cmds| == i
      invariant forall k :: 0 <= k < i ==> cmds[k] == Fsleyes(roots[k], template)
    {
      var fsleyes := Export + "\"" + roots[i] + "\"" + ViewerCall(template);
      cmds := cmds + [fsleyes];
    }
  }

  /** The exported directory is read back as the second `"`-separated field of the
      command when it holds no double quote. */
  lemma FsleyesRoundTrip(root: string, template: Option<string>)
    requires '"' !in root
    ensures var fields := Split(Fsleyes(root, template), "\"");
      |fields| >= 2 && fields[1] == root
  {
    assert Export == "export TMP_DIR_FOR_FSL=";
    LeadingTwoFields(Export, root, ViewerCall(template), '"');
  }

  /** The command ends with the template (nothing when none is given). */
  lemma FsleyesEndsWithTemplate(root: string, template: Option<string>)
    ensures EndsWith(Fsleyes(root, template), TemplateArg(template))
  {
    var t := TemplateArg(template);
    var p := Export + "\"" + root + "\"" + "; " + Viewer;
    assert Fsleyes(root, template) == p + t;
    assert (p + t)[|p + t| - |t|..] == t;
  }

  // ---------------------------------------------------------------------------
  // The rows

  /** The row of one image before the site lookup. */
  function FirstRow(id: string, path: string, template: Option<string>): Qc2Row {
    Qc2Row(id, RowSession, None, Fsleyes(Root(path), template), None, 1)
  }

  /** The site loop: `df_qc.loc[index, "site"] = psc2_to_site(...)`. */
  function SiteStep(t: Table, x: Qc2Row): Outcome<Qc2Row> {
    match Psc2ToSite(x.participant, CenterSession, t)
    case Err(e) => Fail(e)
    case Ok(site) => Accept(x.(site := Some(site)))
  }

  /** The rows before sorting, or the first exception. */
  function Rows(paths: seq<string>, template: Option<string>, participants: Option<Table>): Result<seq<Qc2Row>> {
    match ParticipantIds(paths)
    case Err(e) => Err(e)
    case Ok(ids) =>
      ParticipantsAccepted(paths);
      var rows := FirstRows(ids, paths, template);
      if participants.None? then Ok(rows) else Scan(participants.value, rows, SiteStep)
  }

  /** The rows of `df_qc` before the site loop, one per path. */
  function FirstRows(ids: seq<string>, paths: seq<string>, template: Option<string>): (r: seq<Qc2Row>)
    requires |ids| == |paths|
    ensures |r| == |paths| && forall i :: 0 <= i < |paths| ==> r[i] == FirstRow(ids[i], paths[i], template)
  {
    seq(|paths|, i requires 0 <= i < |paths| => FirstRow(ids[i], paths[i], template))
  }

  method VisitRow(t: Table, x: Qc2Row) returns (o: Outcome<Qc2Row>)
    ensures o == SiteStep(t, x)
  {
    var site := Psc2ToSite(x.participant, CenterSession, t);
    if site.Err? {
      return Fail(site.error);
    }
    return Accept(x.(site := Some(site.value)));
  }

  /** The `iterrows` loop when a participants table is given. */
  method AssignSites(t: Table, rows: seq<Qc2Row>) returns (r: Result<seq<Qc2Row>>)
    ensures r == Scan(t, rows, SiteStep)
  {
    var done: seq<Qc2Row> := [];
    for i := 0 to |rows|
      invariant Scan(t, rows[..i], SiteStep) == Ok(done)
    {
      var o := VisitRow(t, rows[i]);
      assert rows[..i + 1] == rows[..i] + [rows[i]];
      ScanSnoc(t, rows[..i], rows[i], SiteStep);
      match o
      case Fail(e) =>
        ScanErrPersists(t, rows, SiteStep, i + 1);
        return Err(e);
      case Skip =>
      case Accept(x) =>
        done := done + [x];
    }
    assert rows[..|rows|] == rows;
    return Ok(done);
  }

  /** `make_csv`: the rows of the images the pattern matches, sorted by participant. */
  method MakeCsv(fs: Fs, hanatRegex: string, template: Option<string>, participants: Option<Table>)
    returns (r: Result<seq<Qc2Row>>)
    ensures var spec := Rows(Glob(fs, hanatRegex), template, participants);
      && (spec.Err? ==> r == spec)
      && (spec.Ok? ==> r == Ok(SortBy(spec.value, Participant)))
  {
    var paths := Glob(fs, hanatRegex);
    var ids := ParticipantIds(paths);
    if ids.Err? {
      return Err(ids.error);
    }
    var roots := seq(|paths|, i requires 0 <= i < |paths| => Root(paths[i]));
    var cmds := FslCommands(roots, template);
    ParticipantsAccepted(paths);
    var rows := seq(|paths|, i requires 0 <= i < |paths| => Qc2Row(ids.value[i], RowSession, None, cmds[i], None, 1));
    assert rows == FirstRows(ids.value, paths, template);
    if participants.Some? {
      var sited := AssignSites(participants.value, rows);
      if sited.Err? {
        return Err(sited.error);
      }
      rows := sited.value;
    }
    return Ok(SortBy(rows, Participant));
  }

  // ---------------------------------------------------------------------------
  // Properties

  /** The table `make_csv` writes holds one row per image, ordered by participant:
      the image rows, permuted. */
  lemma WrittenSorted(paths: seq<string>, template: Option<string>, participants: Option<Table>)
    requires Rows(paths, template, participants).Ok?
    ensures var rows := Rows(paths, template, participants).value;
      var written := SortBy(rows, Participant);
      && SortedBy(written, Participant)
      && multiset(written) == multiset(rows)
      && |written| == |paths|
  {
    var rows := Rows(paths, template, participants).value;
    SortBySorted(rows, Participant);
    RowsOfPaths(paths, template, participants);
    assert |multiset(SortBy(rows, Participant))| == |multiset(rows)|;
  }

  /** Every path with at least three components gives one row: its subject, "M03Li",
      the command of its root, an empty score, qc 1 and, with a participants table,
      the site the table holds for it; the first shallow path or failed lookup raises. */
  lemma RowsOfPaths(paths: seq<string>, template: Option<string>, participants: Option<Table>)
    ensures Rows(paths, template, participants).Ok? ==>
      var rows := Rows(paths, template, participants).value;
      && |rows| == |paths|
      && forall i :: 0 <= i < |paths| ==>
        && ParticipantOf((), paths[i]) == Accept(rows[i].participant)
        && rows[i].ses == RowSession && rows[i].qc == 1 && rows[i].visualQcScore.None?
        && rows[i].fsleyes == Fsleyes(Root(paths[i]), template)
        && (participants.None? ==> rows[i].site.None?)
        && (participants.Some? ==> rows[i].site.Some? && Psc2ToSite(rows[i].participant, CenterSession, participants.value) == Ok(rows[i].site.value))
    ensures ParticipantIds(paths).Err? ==> Rows(paths, template, participants) == Err(ParticipantIds(paths).error)
  {
    var ids := ParticipantIds(paths);
    if ids.Ok? {
      ParticipantsAccepted(paths);
      if participants.Some? {
        SitedRows(participants.value, FirstRows(ids.value, paths, template));
      }
    }
  }

  /** The site loop that raises nothing sets, in every row, the site the table holds
      for its participant, and changes nothing else. */
  lemma SitedRows(t: Table, rows: seq<Qc2Row>)
    ensures Scan(t, rows, SiteStep).Ok? ==>
      var sited := Scan(t, rows, SiteStep).value;
      && |sited| == |rows|
      && forall i :: 0 <= i < |rows| ==>
           (Psc2ToSite(rows[i].participant, CenterSession, t).Ok?
            && sited[i] == rows[i].(site := Some(Psc2ToSite(rows[i].participant, CenterSession, t).value)))
  {
    if Scan(t, rows, SiteStep).Ok? {
      ScanFailsAtFirstFailure(t, rows, SiteStep);
      ScanAcceptingAll(t, rows, SiteStep);
    }
  }

  /** A participant scan that raises nothing has one id per path. */
  lemma ParticipantsAccepted(paths: seq<string>)
    requires ParticipantIds(paths).Ok?
    ensures |ParticipantIds(paths).value| == |paths|
    ensures forall i :: 0 <= i < |paths| ==> ParticipantOf((), paths[i]) == Accept(ParticipantIds(paths).value[i])
  {
    ScanFailsAtFirstFailure((), paths, ParticipantOf);
    ScanAcceptingAll((), paths, ParticipantOf);
  }
}
