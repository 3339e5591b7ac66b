/** The longitudinal FreeSurfer manifest: every listed subject of the FreeSurfer
    derivatives that has a `ses-M03` session gets a row with its output directory
    `<outdir>/<name>/<subject>`, created when missing; every row shares the two
    cross-sectional directories `<outdir>/freesurfer/ses-M00` and
    `<outdir>/freesurfer/ses-M03` and the timepoints argument "ses-M00,ses-M03". */
module FsLongitudinal {
  import opened Base
  import opened PyStr
  import opened Snapshot
  import opened Manifest

  /** The two timepoints, in this order. */
  const Timepoints: seq<string> := ["ses-M00", "ses-M03"]

  /** The session a subject must have to be kept. */
  const KeptSession: string := "ses-M03"

  /** `[os.path.join(outdir, "freesurfer", tp) for tp in timepoints]` */
  function FsDirs(outdir: string): (r: seq<string>)
    ensures |r| == |Timepoints|
  {
    seq(|Timepoints|, k requires 0 <= k < |Timepoints| => PathJoin3(outdir, "freesurfer", Timepoints[k]))
  }

  /** `",".join(timepoints)` */
  function TimepointsArg(): string {
    Join(",", Timepoints)
  }

  datatype Env = Env(fs: Fs, datadir: string, outdir: string, name: string)

  /** One manifest row: the subject and its output directory. */
  datatype FsRow = FsRow(subject: string, outdir: string)

  /** `os.path.join(outdir, name, subject)` */
  function SubjectOutdir(env: Env, subject: string): string {
    PathJoin3(env.outdir, env.name, subject)
  }

  /** `os.path.join(datadir, subject, "ses-M03")` */
  function SessionDir(env: Env, subject: string): string {
    PathJoin3(env.datadir, subject, KeptSession)
  }

  /** The loop body for one listed subject: skipped without a `ses-M03` directory. */
  function SubjectStep(env: Env, subject: string): Outcome<FsRow> {
    if !IsDir(env.fs, SessionDir(env, subject)) then Skip
    else Accept(FsRow(subject, SubjectOutdir(env, subject)))
  }

  /** The directory `os.makedirs` creates for a kept subject whose output directory is
      missing. */
  function MadeDir(env: Env, subject: string): seq<string> {
    if SubjectStep(env, subject).Accept? && !IsDir(env.fs, SubjectOutdir(env, subject)) then [SubjectOutdir(env, subject)]
    else []
  }

  /** The rows the manifest holds before the preview, or the error the listing raises. */
  function Rows(fs: Fs, datadir: string, outdir: string, name: string, test: bool): Result<seq<FsRow>> {
    match ListDir(fs, datadir)
    case Err(e) => Err(e)
    case Ok(subjects) =>
      match Scan(Env(fs, datadir, outdir, name), subjects, SubjectStep)
      case Err(e) => Err(e)
      case Ok(rows) => Ok(TestCut(rows, test))
  }

  /** The output directories the loop creates, in listing order. */
  function Created(fs: Fs, datadir: string, outdir: string, name: string): seq<string> {
    match ListDir(fs, datadir)
    case Err(_) => []
    case Ok(subjects) => Effects(Env(fs, datadir, outdir, name), subjects, SubjectStep, MadeDir)
  }

  // ---------------------------------------------------------------------------
  // The run

  /** The two parallel lists the loop appends to. */
  datatype Lists = Lists(subjects: seq<string>, outdirs: seq<string>)

  /** What the run hands to the dispatcher: the lists, the preview, the cross-sectional
      directories and the timepoints argument. */
  datatype FsJobs = FsJobs(lists: Lists, preview: Preview, fsdirs: seq<string>, timepoints: string)

  function Columns(l: Lists): seq<seq<string>> {
    [l.subjects, l.outdirs]
  }

  ghost predicate Tabulates(l: Lists, rows: seq<FsRow>) {
    && |l.subjects| == |rows| && |l.outdirs| == |rows|
    && forall k :: 0 <= k < |rows| ==> l.subjects[k] == rows[k].subject && l.outdirs[k] == rows[k].outdir
  }

  function RowPreview(row: FsRow, datadir: string, outdir: string): seq<string> {
    [StripRoots(row.subject, datadir, outdir), StripRoots(row.outdir, datadir, outdir)]
  }

  /** The preview of a non-empty manifest: its first and its last row. */
  function RowsPreview(rows: seq<FsRow>, datadir: string, outdir: string): Preview
    requires rows != []
  {
    Preview(RowPreview(rows[0], datadir, outdir), RowPreview(rows[|rows| - 1], datadir, outdir))
  }

  lemma TabulatesAppend(l: Lists, rows: seq<FsRow>, row: FsRow)
    requires Tabulates(l, rows)
    ensures Tabulates(Lists(l.subjects + [row.subject], l.outdirs + [row.outdir]), rows + [row])
  {
  }

  lemma TabulatesTake(l: Lists, rows: seq<FsRow>)
    requires Tabulates(l, rows)
    ensures Tabulates(Lists(Take(l.subjects, 1), Take(l.outdirs, 1)), Take(rows, 1))
  {
  }

  /** With no guard against an empty manifest, the preview raises exactly when there
      is no row. */
  lemma PreviewOfTabulated(l: Lists, rows: seq<FsRow>, a: string, b: string)
    requires Tabulates(l, rows)
    ensures PreviewOf(Columns(l), a, b).Ok? <==> rows != []
    ensures rows != [] ==> PreviewOf(Columns(l), a, b).value == RowsPreview(rows, a, b)
  {
    if rows == [] {
      assert Columns(l)[0] == [];
    } else {
      PreviewOfTwo(l.subjects, l.outdirs, a, b);
    }
  }

  /** The loop body for one subject: its outcome and the directory it creates. */
  method VisitSubject(env: Env, subject: string) returns (o: Outcome<FsRow>, made: seq<string>)
    ensures o == SubjectStep(env, subject)
    ensures made == MadeDir(env, subject)
  {
    var sesdir := SessionDir(env, subject);
    if !IsDir(env.fs, sesdir) {
      return Skip, [];
    }
    var subOutdir := SubjectOutdir(env, subject);
    made := [];
    if !IsDir(env.fs, subOutdir) {
      made := [subOutdir];
    }
    return Accept(FsRow(subject, subOutdir)), made;
  }

  /** The `for subject in os.listdir(datadir)` loop. No iteration raises. */
  method CollectRows(env: Env, subjects: seq<string>) returns (lists: Lists, created: seq<string>, ghost rows: seq<FsRow>)
    ensures Scan(env, subjects, SubjectStep) == Ok(rows)
    ensures Tabulates(lists, rows)
    ensures created == Effects(env, subjects, SubjectStep, MadeDir)
  {
    lists := Lists([], []);
    created := [];
    rows := [];
    for i := 0 to |subjects|
      invariant Scan(env, subjects[..i], SubjectStep) == Ok(rows)
      invariant created == Effects(env, subjects[..i], SubjectStep, MadeDir)
      invariant Tabulates(lists, rows)
    {
      assert subjects[..i + 1][..i] == subjects[..i];
      var o, made := VisitSubject(env, subjects[i]);
      created := created + made;
      if o.Accept? {
        TabulatesAppend(lists, rows, o.row);
        lists := Lists(lists.subjects + [o.row.subject], lists.outdirs + [o.row.outdir]);
        rows := rows + [o.row];
      }
    }
    assert subjects[..|subjects|] == subjects;
  }

  /** `run`, up to the dispatch: the manifest, or the error of the listing or of the
      preview of an empty manifest, and the output directories created on the way. */
  method Run(fs: Fs, datadir: string, outdir: string, name: string, test: bool)
    returns (r: Result<FsJobs>, created: seq<string>)
    ensures var spec := Rows(fs, datadir, outdir, name, test);
      && created == Created(fs, datadir, outdir, name)
      && (spec.Err? ==> r == Err(spec.error))
      && (spec == Ok([]) ==> r == Err(EmptyColumn))
      && (r.Ok? <==> spec.Ok? && spec.value != [])
      && (r.Ok? ==>
        && Tabulates(r.value.lists, spec.value)
        && r.value.preview == RowsPreview(spec.value, datadir, outdir)
        && r.value.fsdirs == FsDirs(outdir)
        && r.value.timepoints == TimepointsArg())
  {
    ghost var spec := Rows(fs, datadir, outdir, name, test);
    var fsdirs := FsDirs(outdir);
    var listed := ListDir(fs, datadir);
    if listed.Err? {
      assert spec == Err(listed.error);
      return Err(listed.error), [];
    }
    var env := Env(fs, datadir, outdir, name);
    var lists;
    ghost var rows;
    lists, created, rows := CollectRows(env, listed.value);
    assert spec == Ok(TestCut(rows, test));
    if test {
      TabulatesTake(lists, rows);
      lists := Lists(Take(lists.subjects, 1), Take(lists.outdirs, 1));
      rows := Take(rows, 1);
    }
    assert rows == spec.value;
    PreviewOfTabulated(lists, rows, datadir, outdir);
    var preview := PreviewOf(Columns(lists), datadir, outdir);
    if preview.Err? {
      return Err(preview.error), created;
    }
    return Ok(FsJobs(lists, preview.value, fsdirs, TimepointsArg())), created;
  }

  // ---------------------------------------------------------------------------
  // Properties

  /** No iteration of the loop raises: the scan always completes. */
  lemma {:induction false} NoSubjectFails(env: Env, subjects: seq<string>)
    ensures Scan(env, subjects, SubjectStep).Ok?
    decreases |subjects|
  {
    if subjects != [] {
      NoSubjectFails(env, subjects[..|subjects| - 1]);
    }
  }

  /** A listed subject gets a row exactly when it has a `ses-M03` directory, and that
      row holds `<outdir>/<name>/<subject>` as output directory. */
  lemma KeptIffSessionDir(env: Env, subjects: seq<string>, s: string)
    ensures Scan(env, subjects, SubjectStep).Ok?
    ensures var rows := Scan(env, subjects, SubjectStep).value;
      (FsRow(s, SubjectOutdir(env, s)) in rows <==> s in subjects && IsDir(env.fs, SessionDir(env, s)))
  {
    NoSubjectFails(env, subjects);
    var rows := Scan(env, subjects, SubjectStep).value;
    ScanRowsAreAccepted(env, subjects, SubjectStep);
    if FsRow(s, SubjectOutdir(env, s)) in rows {
      var k :| 0 <= k < |rows| && rows[k] == FsRow(s, SubjectOutdir(env, s));
      var i :| 0 <= i < |subjects| && SubjectStep(env, subjects[i]) == Accept(rows[k]);
      AcceptedSubject(env, subjects[i], rows[k]);
    }
    if s in subjects && IsDir(env.fs, SessionDir(env, s)) {
      var i :| 0 <= i < |subjects| && subjects[i] == s;
      assert SubjectStep(env, subjects[i]) == Accept(FsRow(s, SubjectOutdir(env, s)));
    }
  }

  /** Every row's output directory is `<outdir>/<name>/<subject>` of its own subject. */
  lemma RowOutdirs(env: Env, subjects: seq<string>)
    ensures Scan(env, subjects, SubjectStep).Ok?
    ensures forall row :: row in Scan(env, subjects, SubjectStep).value ==> row.outdir == SubjectOutdir(env, row.subject)
  {
    NoSubjectFails(env, subjects);
    var rows := Scan(env, subjects, SubjectStep).value;
    ScanRowsAreAccepted(env, subjects, SubjectStep);
    forall row | row in rows ensures row.outdir == SubjectOutdir(env, row.subject) {
      var k :| 0 <= k < |rows| && rows[k] == row;
      var i :| 0 <= i < |subjects| && SubjectStep(env, subjects[i]) == Accept(rows[k]);
      AcceptedSubject(env, subjects[i], row);
    }
  }

  lemma AcceptedSubject(env: Env, subject: string, row: FsRow)
    requires SubjectStep(env, subject) == Accept(row)
    ensures row == FsRow(subject, SubjectOutdir(env, subject)) && IsDir(env.fs, SessionDir(env, subject))
    ensures IsDir(env.fs, row.outdir) || MadeDir(env, subject) == [row.outdir]
  {
  }

  lemma MadeDirOfSubject(env: Env, subject: string, d: string)
    requires d in MadeDir(env, subject)
    ensures SubjectStep(env, subject).Accept? && SubjectStep(env, subject).row.outdir == d && !IsDir(env.fs, d)
  {
  }

  /** After the loop every kept subject's output directory exists: it was there, or
      the loop created it. */
  lemma OutdirsExistAfterLoop(env: Env, subjects: seq<string>)
    ensures Scan(env, subjects, SubjectStep).Ok?
    ensures forall row :: row in Scan(env, subjects, SubjectStep).value ==>
      IsDir(env.fs, row.outdir) || row.outdir in Effects(env, subjects, SubjectStep, MadeDir)
  {
    NoSubjectFails(env, subjects);
    var rows := Scan(env, subjects, SubjectStep).value;
    var created := Effects(env, subjects, SubjectStep, MadeDir);
    ScanRowsAreAccepted(env, subjects, SubjectStep);
    EffectsOfCompleteScan(env, subjects, SubjectStep, MadeDir);
    forall row | row in rows ensures IsDir(env.fs, row.outdir) || row.outdir in created {
      var k :| 0 <= k < |rows| && rows[k] == row;
      var i :| 0 <= i < |subjects| && SubjectStep(env, subjects[i]) == Accept(rows[k]);
      AcceptedSubject(env, subjects[i], row);
    }
  }

  /** The loop creates only the missing output directories of kept subjects. */
  lemma CreatesOnlyMissingOutdirs(env: Env, subjects: seq<string>, d: string)
    requires d in Effects(env, subjects, SubjectStep, MadeDir)
    ensures Scan(env, subjects, SubjectStep).Ok?
    ensures exists row :: row in Scan(env, subjects, SubjectStep).value && row.outdir == d
    ensures !IsDir(env.fs, d)
  {
    NoSubjectFails(env, subjects);
    ScanRowsAreAccepted(env, subjects, SubjectStep);
    EffectsOfCompleteScan(env, subjects, SubjectStep, MadeDir);
    var i :| 0 <= i < |subjects| && d in MadeDir(env, subjects[i]);
    MadeDirOfSubject(env, subjects[i], d);
    assert SubjectStep(env, subjects[i]).row in Scan(env, subjects, SubjectStep).value;
  }

  /** A subject's output directory is named after the subject and sits in
      `<outdir>/<name>`. */
  lemma SubjectOutdirShape(env: Env, subject: string)
    requires IsName(subject) && IsName(env.name)
    ensures Basename(SubjectOutdir(env, subject)) == subject
    ensures Dirname(SubjectOutdir(env, subject)) == PathJoin(env.outdir, env.name)
  {
    JoinEndsInName(env.outdir, env.name);
    JoinThenSplitPath(PathJoin(env.outdir, env.name), subject);
  }

  /** The k-th cross-sectional directory is `<outdir>/freesurfer/<k-th timepoint>`:
      named after its timepoint, in the directory `<outdir>/freesurfer`. */
  lemma FsDirsPerTimepoint(outdir: string, k: nat)
    requires k < |Timepoints|
    ensures Basename(FsDirs(outdir)[k]) == Timepoints[k]
    ensures Dirname(FsDirs(outdir)[k]) == PathJoin(outdir, "freesurfer")
  {
    var tp := Timepoints[k];
    assert IsName("freesurfer") && IsName(tp);
    JoinEndsInName(outdir, "freesurfer");
    JoinThenSplitPath(PathJoin(outdir, "freesurfer"), tp);
  }

  /** The timepoints argument splits back, on ",", into the two timepoints in order. */
  lemma TimepointsRoundTrip()
    ensures TimepointsArg() == "ses-M00,ses-M03"
    ensures Split(TimepointsArg(), ",") == Timepoints
  {
    assert ',' !in "ses-M00" && ',' !in "ses-M03";
    JoinTwoThenSplit("ses-M00", "ses-M03", ',');
  }
}
