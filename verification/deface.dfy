/** The defacing quality-control manifest: for every subject and each of the sessions
    M03Li and M03H, the best T1w image of the session, its defaced copy already written
    under `<outdir>/<name>/<subject>/<session>`, and the mask root next to it. */
module Deface {
  import opened Base
  import opened PyStr
  import opened Snapshot
  import opened Selection
  import opened Manifest

  /** The sessions visited for every subject, in this order. */
  const DefaceSessions: seq<string> := ["ses-M03Li", "ses-M03H"]

  datatype Env = Env(fs: Fs, datadir: string, outdir: string, name: string)

  /** One manifest row: the best T1w image, its defaced copy, and the mask root. */
  datatype DefaceRow = DefaceRow(anat: string, deface: string, root: string)

  /** `join(datadir, subject, session)` */
  function SessionDir(env: Env, subject: string, session: string): string {
    PathJoin3(env.datadir, subject, session)
  }

  /** `join(outdir, name, subject, session)` */
  function SessionOutdir(env: Env, subject: string, session: string): string {
    PathJoin4(env.outdir, env.name, subject, session)
  }

  /** The T1w candidates of a session. */
  function AnatPattern(env: Env, subject: string, session: string): string {
    PathJoin3(SessionDir(env, subject, session), "anat", "sub-*_" + session + "_*T1w.nii.gz")
  }

  /** `join(_outdir, basename.replace("_T1w.nii.gz", "_defacemask"))` */
  function MaskRoot(sessionOutdir: string, basename: string): string {
    PathJoin(sessionOutdir, Replace(basename, "_T1w.nii.gz", "_defacemask"))
  }

  /** The loop body for one subject and session: skipped unless the session has an
      `anat` directory, the output directory exists and the defaced copy of the best
      image is there; a failed selection stops the run. */
  function DefaceStep(env: Env, visit: (string, string)): Outcome<DefaceRow> {
    var (subject, session) := visit;
    var sesdir := SessionDir(env, subject, session);
    var subOutdir := SessionOutdir(env, subject, session);
    if !IsDir(env.fs, sesdir) || !IsDir(env.fs, PathJoin(sesdir, "anat")) || !IsDir(env.fs, subOutdir) then Skip
    else
      match GetBestAnat(Glob(env.fs, AnatPattern(env, subject, session)))
      case Err(e) => Fail(e)
      case Ok(best) =>
        var basename := Basename(best);
        var defaceAnat := PathJoin(subOutdir, basename);
        if !IsFile(env.fs, defaceAnat) then Skip
        else Accept(DefaceRow(best, defaceAnat, MaskRoot(subOutdir, basename)))
  }

  /** The rows the manifest holds before the preview, or the error the run stops with. */
  function Rows(fs: Fs, datadir: string, outdir: string, name: string, test: bool): Result<seq<DefaceRow>> {
    match ListDir(fs, datadir)
    case Err(e) => Err(e)
    case Ok(subjects) =>
      match ScanNested(Env(fs, datadir, outdir, name), subjects, DefaceSessions, DefaceStep)
      case Err(e) => Err(e)
      case Ok(rows) => if rows == [] then Err(NoDataToProcess) else Ok(TestCut(rows, test))
  }

  // ---------------------------------------------------------------------------
  // The run

  /** The three parallel lists the loop appends to. */
  datatype Lists = Lists(anat: seq<string>, deface: seq<string>, root: seq<string>)

  datatype Jobs = Jobs(lists: Lists, preview: Preview)

  function Columns(l: Lists): seq<seq<string>> {
    [l.anat, l.deface, l.root]
  }

  ghost predicate Tabulates(l: Lists, rows: seq<DefaceRow>) {
    && |l.anat| == |rows| && |l.deface| == |rows| && |l.root| == |rows|
    && forall k :: 0 <= k < |rows| ==>
      l.anat[k] == rows[k].anat && l.deface[k] == rows[k].deface && l.root[k] == rows[k].root
  }

  function RowPreview(row: DefaceRow, datadir: string, outdir: string): seq<string> {
    [StripRoots(row.anat, datadir, outdir), StripRoots(row.deface, datadir, outdir),
     StripRoots(row.root, datadir, outdir)]
  }

  lemma TabulatesAppend(l: Lists, rows: seq<DefaceRow>, row: DefaceRow)
    requires Tabulates(l, rows)
    ensures Tabulates(Lists(l.anat + [row.anat], l.deface + [row.deface], l.root + [row.root]), rows + [row])
  {
  }

  lemma TabulatesTake(l: Lists, rows: seq<DefaceRow>)
    requires Tabulates(l, rows)
    ensures Tabulates(Lists(Take(l.anat, 1), Take(l.deface, 1), Take(l.root, 1)), Take(rows, 1))
  {
  }

  /** The preview of a non-empty manifest: its first and its last row. */
  function RowsPreview(rows: seq<DefaceRow>, datadir: string, outdir: string): Preview
    requires rows != []
  {
    Preview(RowPreview(rows[0], datadir, outdir), RowPreview(rows[|rows| - 1], datadir, outdir))
  }

  lemma PreviewOfTabulated(l: Lists, rows: seq<DefaceRow>, a: string, b: string)
    requires Tabulates(l, rows) && rows != []
    ensures PreviewOf(Columns(l), a, b).Ok?
    ensures PreviewOf(Columns(l), a, b).value == RowsPreview(rows, a, b)
  {
    PreviewOfThree(l.anat, l.deface, l.root, a, b);
  }

  /** The body of the inner loop for one subject and session. */
  method VisitSession(env: Env, subject: string, session: string) returns (o: Outcome<DefaceRow>)
    ensures o == DefaceStep(env, (subject, session))
  {
    var sesdir := SessionDir(env, subject, session);
    if !IsDir(env.fs, sesdir) {
      return Skip;
    }
    if !IsDir(env.fs, PathJoin(sesdir, "anat")) {
      return Skip;
    }
    var subOutdir := SessionOutdir(env, subject, session);
    if !IsDir(env.fs, subOutdir) {
      return Skip;
    }
    var anatFiles := Glob(env.fs, AnatPattern(env, subject, session));
    var best := GetBestAnat(anatFiles);
    if best.Err? {
      return Fail(best.error);
    }
    var basename := Basename(best.value);
    var defaceAnat := PathJoin(subOutdir, basename);
    if !IsFile(env.fs, defaceAnat) {
      return Skip;
    }
    var root := MaskRoot(subOutdir, basename);
    return Accept(DefaceRow(best.value, defaceAnat, root));
  }

  /** One pass of the inner loop: visit `(subject, session)` and append its row. */
  method CollectVisit(env: Env, subject: string, session: string, lists0: Lists, ghost rows0: seq<DefaceRow>)
    returns (r: Result<Lists>, ghost rows: seq<DefaceRow>)
    requires Tabulates(lists0, rows0)
    ensures var next := Extend(Ok(rows0), DefaceStep(env, (subject, session)));
      && (next.Err? ==> r == Err(next.error))
      && (next.Ok? ==> r.Ok? && rows == next.value && Tabulates(r.value, rows))
  {
    var outcome := VisitSession(env, subject, session);
    rows := rows0;
    match outcome
    case Fail(e) =>
      return Err(e), rows;
    case Skip =>
      return Ok(lists0), rows;
    case Accept(row) =>
      TabulatesAppend(lists0, rows0, row);
      rows := rows0 + [row];
      return Ok(Lists(lists0.anat + [row.anat], lists0.deface + [row.deface], lists0.root + [row.root])), rows;
  }

  /** The inner loop: the sessions of one subject, after the rows `rows0`. */
  method CollectSubject(env: Env, subject: string, lists0: Lists, ghost rows0: seq<DefaceRow>)
    returns (r: Result<Lists>, ghost rows: seq<DefaceRow>)
    requires Tabulates(lists0, rows0)
    ensures var after := ScanRow(env, subject, DefaceSessions, Ok(rows0), |DefaceSessions|, DefaceStep);
      && (after.Err? ==> r == Err(after.error))
      && (after.Ok? ==> r.Ok? && rows == after.value && Tabulates(r.value, rows))
  {
    var lists := lists0;
    rows := rows0;
    for j := 0 to |DefaceSessions|
      invariant ScanRow(env, subject, DefaceSessions, Ok(rows0), j, DefaceStep) == Ok(rows)
      invariant Tabulates(lists, rows)
    {
      var collected;
      collected, rows := CollectVisit(env, subject, DefaceSessions[j], lists, rows);
      if collected.Err? {
        ScanRowErrPersists(env, subject, DefaceSessions, Ok(rows0), j + 1, |DefaceSessions|, DefaceStep);
        return Err(collected.error), rows;
      }
      lists := collected.value;
    }
    return Ok(lists), rows;
  }

  /** The outer loop: every subject, then each of its sessions. */
  method CollectRows(env: Env, subjects: seq<string>) returns (r: Result<Lists>, ghost rows: seq<DefaceRow>)
    ensures ScanNested(env, subjects, DefaceSessions, DefaceStep).Err? ==> r == Err(ScanNested(env, subjects, DefaceSessions, DefaceStep).error)
    ensures ScanNested(env, subjects, DefaceSessions, DefaceStep).Ok? ==>
      r.Ok? && rows == ScanNested(env, subjects, DefaceSessions, DefaceStep).value && Tabulates(r.value, rows)
  {
    var lists := Lists([], [], []);
    rows := [];
    for i := 0 to |subjects|
      invariant ScanNested(env, subjects[..i], DefaceSessions, DefaceStep) == Ok(rows)
      invariant Tabulates(lists, rows)
    {
      assert ScanNested(env, subjects[..i + 1], DefaceSessions, DefaceStep) == ScanRow(env, subjects[i], DefaceSessions, Ok(rows), |DefaceSessions|, DefaceStep) by {
        assert subjects[..i + 1][..i] == subjects[..i];
      }
      var collected;
      collected, rows := CollectSubject(env, subjects[i], lists, rows);
      if collected.Err? {
        ScanNestedErrPersists(env, subjects, DefaceSessions, i + 1, DefaceStep);
        return Err(collected.error), rows;
      }
      lists := collected.value;
    }
    assert subjects[..|subjects|] == subjects;
    return Ok(lists), rows;
  }

  /** `run`, up to the dispatch. */
  method Run(fs: Fs, datadir: string, outdir: string, name: string, test: bool) returns (r: Result<Jobs>)
    ensures var spec := Rows(fs, datadir, outdir, name, test);
      && (r.Ok? <==> spec.Ok?)
      && (r.Err? ==> r.error == spec.error)
      && (r.Ok? ==>
        && spec.value != []
        && Tabulates(r.value.lists, spec.value)
        && r.value.preview == RowsPreview(spec.value, datadir, outdir))
  {
    ghost var spec := Rows(fs, datadir, outdir, name, test);
    var subjects := ListDir(fs, datadir);
    if subjects.Err? {
      assert spec == Err(subjects.error);
      return Err(subjects.error);
    }
    var env := Env(fs, datadir, outdir, name);
    ghost var scan := ScanNested(env, subjects.value, DefaceSessions, DefaceStep);
    assert spec == if scan.Err? then Err(scan.error) else if scan.value == [] then Err(NoDataToProcess) else Ok(TestCut(scan.value, test));
    var collected;
    ghost var rows;
    collected, rows := CollectRows(env, subjects.value);
    if collected.Err? {
      assert spec == Err(collected.error);
      return Err(collected.error);
    }
    var lists := collected.value;
    if |lists.anat| == 0 {
      assert spec == Err(NoDataToProcess);
      return Err(NoDataToProcess);
    }
    assert spec == Ok(TestCut(rows, test));
    if test {
      TabulatesTake(lists, rows);
      lists := Lists(Take(lists.anat, 1), Take(lists.deface, 1), Take(lists.root, 1));
      rows := Take(rows, 1);
    }
    assert rows == spec.value;
    PreviewOfTabulated(lists, rows, datadir, outdir);
    var preview := PreviewOf(Columns(lists), datadir, outdir);
    return Ok(Jobs(lists, preview.value));
  }

  // ---------------------------------------------------------------------------
  // Properties

  /** The defaced image of an accepted visit sits in the visit's output directory and
      keeps the file name of the chosen T1w image. */
  lemma DefacedCopyKeepsName(env: Env, subject: string, session: string, row: DefaceRow)
    requires DefaceStep(env, (subject, session)) == Accept(row)
    requires session in DefaceSessions
    requires Basename(row.anat) != []
    ensures Basename(row.deface) == Basename(row.anat)
    ensures Dirname(row.deface) == SessionOutdir(env, subject, session)
  {
    DefaceAccepted(env, subject, session, row);
    SessionsAreNames(session);
    CopyKeepsName(env, subject, session, row.anat);
  }

  lemma SessionsAreNames(session: string)
    requires session in DefaceSessions
    ensures IsName(session)
  {
  }

  /** A visit is skipped when its session directory, its `anat` directory or its
      output directory is missing, or when the defaced copy of the chosen image is not
      there; a failed selection stops the run. */
  lemma DefaceSkipRule(env: Env, subject: string, session: string)
    ensures var sesdir := SessionDir(env, subject, session);
      var outdir := SessionOutdir(env, subject, session);
      var dirs := IsDir(env.fs, sesdir) && IsDir(env.fs, PathJoin(sesdir, "anat")) && IsDir(env.fs, outdir);
      var best := GetBestAnat(Glob(env.fs, AnatPattern(env, subject, session)));
      && (!dirs ==> DefaceStep(env, (subject, session)) == Skip)
      && (dirs && best.Err? ==> DefaceStep(env, (subject, session)) == Fail(best.error))
      && (dirs && best.Ok? && !IsFile(env.fs, PathJoin(outdir, Basename(best.value))) ==>
            DefaceStep(env, (subject, session)) == Skip)
  {
  }

  /** An accepted visit has all three directories; its image is the one `get_best_anat`
      chooses among the session's T1w candidates, its defaced copy exists under the
      same name in the output directory, and the mask root is derived from that name. */
  lemma DefaceAccepted(env: Env, subject: string, session: string, row: DefaceRow)
    requires DefaceStep(env, (subject, session)) == Accept(row)
    ensures var sesdir := SessionDir(env, subject, session);
      var outdir := SessionOutdir(env, subject, session);
      var candidates := Glob(env.fs, AnatPattern(env, subject, session));
      && IsDir(env.fs, sesdir) && IsDir(env.fs, PathJoin(sesdir, "anat")) && IsDir(env.fs, outdir)
      && GetBestAnat(candidates) == Ok(row.anat) && row.anat in candidates
      && row.deface == PathJoin(outdir, Basename(row.anat)) && IsFile(env.fs, row.deface)
      && row.root == MaskRoot(outdir, Basename(row.anat))
  {
  }

  /** A file copied by base name into a session output directory keeps that name and
      sits in that directory. */
  lemma CopyKeepsName(env: Env, subject: string, session: string, source: string)
    requires IsName(session) && Basename(source) != []
    ensures var copy := PathJoin(SessionOutdir(env, subject, session), Basename(source));
      && Basename(copy) == Basename(source)
      && Dirname(copy) == SessionOutdir(env, subject, session)
  {
    JoinEndsInName(PathJoin3(env.outdir, env.name, subject), session);
    BasenameIsName(source);
    JoinThenSplitPath(SessionOutdir(env, subject, session), Basename(source));
  }

  /** The mask root of a T1w image named `<stem>_T1w.nii.gz` (the suffix occurring only
      at its end) is `<stem>_defacemask` in the same output directory. */
  lemma MaskRootOfT1w(sessionOutdir: string, stem: string)
    requires !Contains(stem + "_T1w.nii.g", "_T1w.nii.gz")
    ensures MaskRoot(sessionOutdir, stem + "_T1w.nii.gz") == PathJoin(sessionOutdir, stem + "_defacemask")
  {
    assert "_T1w.nii.gz"[..10] == "_T1w.nii.g";
    ReplaceFinal(stem, "_T1w.nii.gz", "_defacemask");
  }
}
