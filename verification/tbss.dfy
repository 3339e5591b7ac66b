/** The TBSS manifest: every FA map `<datadir>/sub-<id>/ses-<id>/SCALARS/dwmri_tensor_fa.nii.gz`
    not yet registered gives a pair of destinations `<tbss_dir>/<sub>_<ses>.nii.gz` and
    `<tbss_dir>/MD/<sub>_<ses>.nii.gz`; then the preprocessing command and the final
    `tbss` command line are derived. */
module Tbss {
  import opened Base
  import opened PyStr
  import opened Snapshot
  import opened Manifest

  datatype Env = Env(fs: Fs, tbssDir: string)

  /** `join(datadir, "sub-*", "ses-*", "SCALARS", "dwmri_tensor_fa.nii.gz")` */
  function FaPattern(datadir: string): string {
    PathJoin(PathJoin4(datadir, "sub-*", "ses-*", "SCALARS"), "dwmri_tensor_fa.nii.gz")
  }

  /** `join(outdir, name)` */
  function TbssDir(outdir: string, name: string): string {
    PathJoin(outdir, name)
  }

  /** `join(tbss_dir, "MD")` */
  function MdDir(tbssDir: string): string {
    PathJoin(tbssDir, "MD")
  }

  /** `sub, ses = path.split(os.sep)[-4:-2]`; fewer than four components leave fewer
      than two values to unpack, a ValueError. */
  function SubSes(path: string): (r: Result<(string, string)>)
    ensures r.Err? <==> |Split(path, "/")| < 4
    ensures r.Err? ==> r.error == PathTooShallow(path)
    ensures r.Ok? ==> Some(r.value.0) == FromEnd(Split(path, "/"), 4) && Some(r.value.1) == FromEnd(Split(path, "/"), 3)
  {
    var parts := Split(path, "/");
    if |parts| < 4 then Err(PathTooShallow(path))
    else Ok((parts[|parts| - 4], parts[|parts| - 3]))
  }

  /** The registration output whose presence marks an FA map as done. */
  function FinalFile(tbssDir: string, sub: string, ses: string): string {
    PathJoin3(tbssDir, "FA", sub + "_" + ses + "_FA_to_target_warp.msf")
  }

  /** The MD map expected next to an FA map. */
  function MdFile(fa: string): string {
    PathJoin(Dirname(fa), "dwmri_tensor_md.nii.gz")
  }

  /** The file name both copies of a session get. */
  function DestName(sub: string, ses: string): string {
    sub + "_" + ses + ".nii.gz"
  }

  /** One manifest row: where the FA map and the MD map are copied to. */
  datatype TbssRow = TbssRow(fa: string, md: string)

  /** The loop body for one FA map: skipped once registered, a missing MD map fails. */
  function FaStep(env: Env, fa: string): Outcome<TbssRow> {
    match SubSes(fa)
    case Err(e) => Fail(e)
    case Ok((sub, ses)) =>
      if IsFile(env.fs, FinalFile(env.tbssDir, sub, ses)) then Skip
      else if !IsFile(env.fs, MdFile(fa)) then Fail(MissingMdFile(MdFile(fa)))
      else Accept(TbssRow(PathJoin(env.tbssDir, DestName(sub, ses)), PathJoin(MdDir(env.tbssDir), DestName(sub, ses))))
  }

  // ---------------------------------------------------------------------------
  // The commands

  /** How an absent argument renders inside an f-string. */
  function Shown(s: Option<string>): string {
    if s.Some? then s.value else "None"
  }

  /** The preprocessing command up to its final sub-command. */
  function PreprocPrefix(cmd: Option<string>, datadir: string, simg: Option<string>): string {
    match cmd
    case None => "singularity run --bind " + Dirname(datadir) + " --cleanenv  " + Shown(simg) + " brainprep "
    case Some(c) => c + " "
  }

  /** The preprocessing command handed to the dispatcher. */
  function PreprocCommand(cmd: Option<string>, datadir: string, simg: Option<string>): string {
    PreprocPrefix(cmd, datadir, simg) + "tbss-preproc"
  }

  /** `" ".join(["python", cmd.replace("tbss-preproc", "tbss"), "--outdir", tbss_dir,
      "--target", target, "--target-skel", target_skel])`; a None target raises. */
  function FinalCommand(preproc: string, tbssDir: string, target: Option<string>, targetSkel: Option<string>): Result<string> {
    if target.None? || targetSkel.None? then Err(NoneInJoin)
    else Ok(Join(" ", ["python", Replace(preproc, "tbss-preproc", "tbss"), "--outdir", tbssDir,
                       "--target", target.value, "--target-skel", targetSkel.value]))
  }

  // ---------------------------------------------------------------------------
  // The run

  datatype Lists = Lists(fa: seq<string>, md: seq<string>)

  /** What the run ends with: the two lists, whether they are dispatched, the preview
      (only for a non-empty manifest), the dispatched command and the final command.
      The final command is built after the dispatch, so a join that raises (a None
      target) leaves everything before it in place. */
  datatype TbssJobs = TbssJobs(lists: Lists, process: bool, preview: Option<Preview>, preproc: string,
                               command: Result<string>)

  ghost predicate Tabulates(l: Lists, rows: seq<TbssRow>) {
    && |l.fa| == |rows| && |l.md| == |rows|
    && forall k :: 0 <= k < |rows| ==> l.fa[k] == rows[k].fa && l.md[k] == rows[k].md
  }

  /** A row as the preview shows it: the TBSS directory replaced away. */
  function RowPreview(row: TbssRow, tbssDir: string): seq<string> {
    [Replace(row.fa, tbssDir, ""), Replace(row.md, tbssDir, "")]
  }

  /** The preview lines: the first and the last row, none for an empty manifest. */
  function PreviewOfRows(rows: seq<TbssRow>, tbssDir: string): Option<Preview> {
    if rows == [] then None
    else Some(Preview(RowPreview(rows[0], tbssDir), RowPreview(rows[|rows| - 1], tbssDir)))
  }

  lemma TabulatesAppend(l: Lists, rows: seq<TbssRow>, row: TbssRow)
    requires Tabulates(l, rows)
    ensures Tabulates(Lists(l.fa + [row.fa], l.md + [row.md]), rows + [row])
  {
  }

  lemma TabulatesTake(l: Lists, rows: seq<TbssRow>)
    requires Tabulates(l, rows)
    ensures Tabulates(Lists(Take(l.fa, 1), Take(l.md, 1)), Take(rows, 1))
  {
  }

  /** The loop body for one FA map. */
  method VisitFa(env: Env, fa: string) returns (o: Outcome<TbssRow>)
    ensures o == FaStep(env, fa)
  {
    var subSes := SubSes(fa);
    if subSes.Err? {
      return Fail(subSes.error);
    }
    var (sub, ses) := subSes.value;
    if IsFile(env.fs, FinalFile(env.tbssDir, sub, ses)) {
      return Skip;
    }
    var md := MdFile(fa);
    if !IsFile(env.fs, md) {
      return Fail(MissingMdFile(md));
    }
    return Accept(TbssRow(PathJoin(env.tbssDir, DestName(sub, ses)), PathJoin(MdDir(env.tbssDir), DestName(sub, ses))));
  }

  /** The scan loop: one pair of destinations per FA map still to register, in glob order. */
  method CollectRows(env: Env, files: seq<string>) returns (r: Result<Lists>, ghost rows: seq<TbssRow>)
    ensures Scan(env, files, FaStep).Err? ==> r == Err(Scan(env, files, FaStep).error)
    ensures Scan(env, files, FaStep).Ok? ==> r.Ok? && rows == Scan(env, files, FaStep).value && Tabulates(r.value, rows)
  {
    var lists := Lists([], []);
    rows := [];
    for i := 0 to |files|
      invariant Scan(env, files[..i], FaStep) == Ok(rows)
      invariant Tabulates(lists, rows)
    {
      assert files[..i + 1][..i] == files[..i];
      var o := VisitFa(env, files[i]);
      match o
      case Fail(e) =>
        ScanErrPersists(env, files, FaStep, i + 1);
        return Err(e), rows;
      case Skip =>
      case Accept(row) =>
        TabulatesAppend(lists, rows, row);
        lists := Lists(lists.fa + [row.fa], lists.md + [row.md]);
        rows := rows + [row];
    }
    assert files[..|files|] == files;
    return Ok(lists), rows;
  }

  /** The preview, printed only for a non-empty manifest. */
  method PreviewLists(lists: Lists, ghost rows: seq<TbssRow>, tbssDir: string) returns (p: Option<Preview>)
    requires Tabulates(lists, rows)
    ensures p == PreviewOfRows(rows, tbssDir)
  {
    p := None;
    if |lists.fa| > 0 {
      var n := |lists.fa| - 1;
      p := Some(Preview([Replace(lists.fa[0], tbssDir, ""), Replace(lists.md[0], tbssDir, "")],
                        [Replace(lists.fa[n], tbssDir, ""), Replace(lists.md[n], tbssDir, "")]));
    }
  }

  /** `run`, with the dispatch left out: the scan, the process flag, the test cut, the
      preview and the two commands. Only the scan can stop the run early; with a None
      target (the default) the lists, the flag and the preview are still produced, and
      the final command is the TypeError the join raises after the dispatch. */
  method Run(fs: Fs, datadir: string, outdir: string, name: string, simg: Option<string>,
             target: Option<string>, targetSkel: Option<string>, process: bool, cmd: Option<string>, test: bool)
    returns (r: Result<TbssJobs>)
    ensures var env := Env(fs, TbssDir(outdir, name)); var scan := Scan(env, Glob(fs, FaPattern(datadir)), FaStep);
      && (scan.Err? ==> r == Err(scan.error))
      && (scan.Ok? ==>
            var rows := TestCut(scan.value, test);
            && r.Ok?
            && Tabulates(r.value.lists, rows)
            && r.value.process == (process && scan.value != [])
            && r.value.preview == PreviewOfRows(rows, env.tbssDir)
            && r.value.preproc == PreprocCommand(cmd, datadir, simg)
            && r.value.command == FinalCommand(PreprocCommand(cmd, datadir, simg), env.tbssDir, target, targetSkel))
  {
    var files := Glob(fs, FaPattern(datadir));
    var tbssDir := TbssDir(outdir, name);
    var env := Env(fs, tbssDir);
    var collected, rows := CollectRows(env, files);
    if collected.Err? {
      return Err(collected.error);
    }
    var lists := collected.value;
    ghost var all := rows;
    var doProcess := process;
    if |lists.fa| == 0 {
      doProcess := false;
    }
    assert doProcess == (process && all != []);
    if test {
      TabulatesTake(lists, rows);
      lists := Lists(Take(lists.fa, 1), Take(lists.md, 1));
      rows := Take(rows, 1);
    }
    assert rows == TestCut(all, test);
    var preview := PreviewLists(lists, rows, tbssDir);
    var preproc := PreprocCommand(cmd, datadir, simg);
    var final := FinalCommand(preproc, tbssDir, target, targetSkel);
    return Ok(TbssJobs(lists, doProcess, preview, preproc, final));
  }

  // ---------------------------------------------------------------------------
  // Properties

  /** The session of an FA map is named by the two directories above `SCALARS`, and
      neither holds a separator. */
  lemma SubSesAreNames(path: string)
    requires SubSes(path).Ok?
    ensures var (sub, ses) := SubSes(path).value; '/' !in sub && '/' !in ses
  {
    var parts := Split(path, "/");
    SplitFieldsAvoidSep(path, "/");
    CharNotContained(parts[|parts| - 4], '/');
    CharNotContained(parts[|parts| - 3], '/');
  }

  /** The two copies of a session have the same file name `<sub>_<ses>.nii.gz`, one in
      the TBSS directory and one in its MD subdirectory. */
  lemma DestinationsPaired(tbssDir: string, sub: string, ses: string)
    requires tbssDir != [] && tbssDir[|tbssDir| - 1] != '/'
    requires '/' !in sub && '/' !in ses
    ensures Basename(PathJoin(tbssDir, DestName(sub, ses))) == DestName(sub, ses)
    ensures Basename(PathJoin(MdDir(tbssDir), DestName(sub, ses))) == DestName(sub, ses)
    ensures Dirname(PathJoin(tbssDir, DestName(sub, ses))) == tbssDir
    ensures Dirname(PathJoin(MdDir(tbssDir), DestName(sub, ses))) == MdDir(tbssDir)
  {
    var b := DestName(sub, ses);
    assert '/' !in b by {
      assert b == sub + "_" + ses + ".nii.gz";
    }
    JoinThenSplitPath(tbssDir, b);
    assert IsName("MD");
    JoinEndsInName(tbssDir, "MD");
    JoinThenSplitPath(MdDir(tbssDir), b);
  }

  /** An accepted FA map has not been registered yet, has its MD map, and its
      destinations are the paired copies of its session. */
  lemma AcceptedFaMap(env: Env, fa: string)
    requires FaStep(env, fa).Accept?
    ensures SubSes(fa).Ok?
    ensures var (sub, ses) := SubSes(fa).value; var row := FaStep(env, fa).row;
      && !IsFile(env.fs, FinalFile(env.tbssDir, sub, ses))
      && IsFile(env.fs, MdFile(fa))
      && row == TbssRow(PathJoin(env.tbssDir, DestName(sub, ses)), PathJoin(MdDir(env.tbssDir), DestName(sub, ses)))
  {
  }

  /** An FA map whose path is too shallow raises; one already registered is skipped;
      otherwise a missing MD map stops the run with the assertion error. */
  lemma FaStepRule(env: Env, fa: string)
    ensures SubSes(fa).Err? ==> FaStep(env, fa) == Fail(PathTooShallow(fa))
    ensures SubSes(fa).Ok? ==> var (sub, ses) := SubSes(fa).value;
      && (IsFile(env.fs, FinalFile(env.tbssDir, sub, ses)) ==> FaStep(env, fa) == Skip)
      && (!IsFile(env.fs, FinalFile(env.tbssDir, sub, ses)) && !IsFile(env.fs, MdFile(fa)) ==>
            FaStep(env, fa) == Fail(MissingMdFile(MdFile(fa))))
  {
  }

  /** The final command runs the `tbss` sub-command instead of `tbss-preproc`, as long
      as the rest of the preprocessing command does not itself mention `tbss-preproc`. */
  lemma FinalCommandRunsTbss(cmd: Option<string>, datadir: string, simg: Option<string>)
    requires !Contains(PreprocPrefix(cmd, datadir, simg) + "tbss-prepro", "tbss-preproc")
    ensures Replace(PreprocCommand(cmd, datadir, simg), "tbss-preproc", "tbss") == PreprocPrefix(cmd, datadir, simg) + "tbss"
  {
    assert "tbss-preproc"[..11] == "tbss-prepro";
    ReplaceFinal(PreprocPrefix(cmd, datadir, simg), "tbss-preproc", "tbss");
  }

  /** The final command line is built exactly when both targets are given, and reads
      `python <cmd> --outdir <tbss_dir> --target <target> --target-skel <skeleton>`. */
  lemma FinalCommandLayout(preproc: string, tbssDir: string, target: Option<string>, targetSkel: Option<string>)
    ensures FinalCommand(preproc, tbssDir, target, targetSkel).Ok? <==> target.Some? && targetSkel.Some?
    ensures FinalCommand(preproc, tbssDir, target, targetSkel).Ok? ==>
      FinalCommand(preproc, tbssDir, target, targetSkel).value
        == "python" + (" " + (Replace(preproc, "tbss-preproc", "tbss") + (" " + ("--outdir" + (" " + (tbssDir
           + (" " + ("--target" + (" " + (target.value + (" " + ("--target-skel" + (" " + targetSkel.value)))))))))))))
  {
    if target.Some? && targetSkel.Some? {
      JoinEight(" ", "python", Replace(preproc, "tbss-preproc", "tbss"), "--outdir", tbssDir,
                "--target", target.value, "--target-skel", targetSkel.value);
    }
  }
}
