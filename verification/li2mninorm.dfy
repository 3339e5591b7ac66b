/** The lithium intensity-normalisation manifest: one row per registered lithium image
    `<datadir>/<subject>/ses-M03Li/li2mni.nii.gz` that has no normalised image yet, with
    the phantom reference value of the subject's acquisition center and the image's
    own directory as output directory. A normalised image found next to an input is
    deleted and that input skipped. */
module Li2mniNorm {
  import opened Base
  import opened PyStr
  import opened Snapshot
  import opened Manifest

  /** The acquisition centers a lithium session may come from. */
  const AllowedCenters: seq<int> := [1, 2, 4, 5, 10, 11, 15]

  // ---------------------------------------------------------------------------
  // The two tables

  /** A line of the participants table, reduced to the two cells the scan reads: the
      `participant_id` and the `ses-M03Li_center` cell as text. */
  datatype Participant = Participant(id: string, center: string)

  /** A line of `phantom_mean_value.tsv`, read as text. */
  datatype PhantomLine = PhantomLine(site: string, mean: string)

  /** Line `k` is the last line of the table for `site`. */
  predicate IsLastLine(lines: seq<PhantomLine>, site: string, k: nat) {
    k < |lines| && lines[k].site == site && forall l :: k < l < |lines| ==> lines[l].site != site
  }

  /** Every site of the table has a last line. */
  lemma {:induction false} LastLineExists(lines: seq<PhantomLine>, site: string)
    requires exists j :: 0 <= j < |lines| && lines[j].site == site
    ensures exists k :: IsLastLine(lines, site, k)
    decreases |lines|
  {
    var n := |lines| - 1;
    if lines[n].site == site {
      assert IsLastLine(lines, site, n);
    } else {
      var j :| 0 <= j < |lines| && lines[j].site == site;
      assert lines[..n][j] == lines[j];
      LastLineExists(lines[..n], site);
      var k :| IsLastLine(lines[..n], site, k);
      assert IsLastLine(lines, site, k);
    }
  }

  /** A site has at most one last line. */
  lemma LastLineUnique(lines: seq<PhantomLine>, site: string, j: nat, k: nat)
    requires IsLastLine(lines, site, j) && IsLastLine(lines, site, k)
    ensures j == k
  {
  }

  /** The sites of the table. */
  function Sites(lines: seq<PhantomLine>): set<string> {
    set k | 0 <= k < |lines| :: lines[k].site
  }

  /** `dict(zip(Site, Mean))`: each site maps to the mean of its last line, a later
      line overwriting an earlier one. */
  function PhantomValues(lines: seq<PhantomLine>): (m: map<string, string>)
    ensures forall site :: site in m <==> exists k :: 0 <= k < |lines| && lines[k].site == site
  {
    map site | site in Sites(lines) :: LastLineExists(lines, site); var k: nat :| IsLastLine(lines, site, k); lines[k].mean
  }

  /** A site listed several times takes the mean of its last line. */
  lemma PhantomLastWins(lines: seq<PhantomLine>, k: nat)
    requires k < |lines|
    requires forall l :: k < l < |lines| ==> lines[l].site != lines[k].site
    ensures PhantomValues(lines)[lines[k].site] == lines[k].mean
  {
    var site := lines[k].site;
    assert site in Sites(lines);
    assert IsLastLine(lines, site, k);
    forall j: nat | IsLastLine(lines, site, j) ensures j == k {
      LastLineUnique(lines, site, j, k);
    }
  }

  /** `info.loc[info["participant_id"] == sid]`: the lines of one participant, in order. */
  function Matching(info: seq<Participant>, sid: string): (r: seq<Participant>)
    ensures forall p :: p in r <==> p in info && p.id == sid
    decreases |info|
  {
    if info == [] then []
    else
      var n := |info| - 1;
      assert info == info[..n] + [info[n]];
      Matching(info[..n], sid) + (if info[n].id == sid then [info[n]] else [])
  }

  /** `int(_info["ses-M03Li_center"].item())`: `.item()` needs exactly one line and
      `int` a number. */
  function CenterOf(info: seq<Participant>, sid: string): (r: Result<int>)
    ensures r.Ok? <==> |Matching(info, sid)| == 1 && ParseInt(Matching(info, sid)[0].center).Some?
    ensures r.Ok? ==> ParseInt(Matching(info, sid)[0].center) == Some(r.value)
    ensures |Matching(info, sid)| != 1 ==> r == Err(NotExactlyOneRow(sid))
  {
    var rows := Matching(info, sid);
    if |rows| != 1 then Err(NotExactlyOneRow(sid))
    else
      match ParseInt(rows[0].center)
      case None => Err(NotAnInteger(rows[0].center))
      case Some(center) => Ok(center)
  }

  // ---------------------------------------------------------------------------
  // One registered image

  datatype Env = Env(fs: Fs, participants: seq<Participant>, phantom: map<string, string>)

  /** One manifest row: the registered image, its reference value and its output directory. */
  datatype NormRow = NormRow(li: string, ph: string, outdir: string)

  /** `join(datadir, "sub-*", "ses-M03Li", "li2mni.nii.gz")` */
  function ImagePattern(datadir: string): string {
    PathJoin4(datadir, "sub-*", "ses-M03Li", "li2mni.nii.gz")
  }

  /** The normalised image that marks an input as done: `li2mninorm.nii.gz` beside it. */
  function NormFile(path: string): string {
    PathJoin(Dirname(path), "li2mninorm.nii.gz")
  }

  /** `path.split(os.sep)[-3]` */
  function SubjectOf(path: string): (r: Result<string>)
    ensures r.Ok? <==> |Split(path, "/")| >= 3
    ensures r.Ok? ==> r.value == Split(path, "/")[|Split(path, "/")| - 3]
  {
    match FromEnd(Split(path, "/"), 3)
    case None => Err(PathTooShallow(path))
    case Some(sid) => Ok(sid)
  }

  /** The loop body for one image: skipped when its normalised image exists; otherwise
      the subject's center must be listed once, be an integer and be allowed, and its
      text must be a key of the phantom table. */
  function NormStep(env: Env, path: string): Outcome<NormRow> {
    if IsFile(env.fs, NormFile(path)) then Skip
    else
      match SubjectOf(path)
      case Err(e) => Fail(e)
      case Ok(sid) =>
        match CenterOf(env.participants, sid)
        case Err(e) => Fail(e)
        case Ok(center) =>
          if center !in AllowedCenters then Fail(CenterNotAllowed(sid, center))
          else if IntToStr(center) !in env.phantom then Fail(NoSuchKey(IntToStr(center)))
          else Accept(NormRow(path, env.phantom[IntToStr(center)], Dirname(path)))
  }

  /** The rows the manifest holds before the preview, or the error the run stops with. */
  function Rows(env: Env, datadir: string, test: bool): Result<seq<NormRow>> {
    match Scan(env, Glob(env.fs, ImagePattern(datadir)), NormStep)
    case Err(e) => Err(e)
    case Ok(rows) => if rows == [] then Err(NoDataToProcess) else Ok(TestCut(rows, test))
  }

  /** What `os.remove` deletes for one input: its normalised image, when it exists. */
  function Deleted(env: Env, path: string): seq<string> {
    if IsFile(env.fs, NormFile(path)) then [NormFile(path)] else []
  }

  /** The normalised images deleted, in order: those of the inputs the loop reaches. */
  function Removed(env: Env, files: seq<string>): seq<string> {
    Effects(env, files, NormStep, Deleted)
  }

  // ---------------------------------------------------------------------------
  // The run

  /** The three parallel lists the loop appends to. */
  datatype Lists = Lists(li: seq<string>, ph: seq<string>, outdir: seq<string>)

  datatype Jobs = Jobs(lists: Lists, preview: Preview)

  function Columns(l: Lists): seq<seq<string>> {
    [l.li, l.ph, l.outdir]
  }

  /** The three lists hold the rows' fields, index by index, and so have equal lengths. */
  ghost predicate Tabulates(l: Lists, rows: seq<NormRow>) {
    && |l.li| == |rows| && |l.ph| == |rows| && |l.outdir| == |rows|
    && forall k :: 0 <= k < |rows| ==>
      l.li[k] == rows[k].li && l.ph[k] == rows[k].ph && l.outdir[k] == rows[k].outdir
  }

  function RowPreview(row: NormRow, datadir: string, phdir: string): seq<string> {
    [StripRoots(row.li, datadir, phdir), StripRoots(row.ph, datadir, phdir), StripRoots(row.outdir, datadir, phdir)]
  }

  /** The preview of a non-empty manifest: its first and its last row. */
  function RowsPreview(rows: seq<NormRow>, datadir: string, phdir: string): Preview
    requires rows != []
  {
    Preview(RowPreview(rows[0], datadir, phdir), RowPreview(rows[|rows| - 1], datadir, phdir))
  }

  lemma TabulatesAppend(l: Lists, rows: seq<NormRow>, row: NormRow)
    requires Tabulates(l, rows)
    ensures Tabulates(Lists(l.li + [row.li], l.ph + [row.ph], l.outdir + [row.outdir]), rows + [row])
  {
  }

  lemma TabulatesTake(l: Lists, rows: seq<NormRow>)
    requires Tabulates(l, rows)
    ensures Tabulates(Lists(Take(l.li, 1), Take(l.ph, 1), Take(l.outdir, 1)), Take(rows, 1))
  {
  }

  lemma PreviewOfTabulated(l: Lists, rows: seq<NormRow>, a: string, b: string)
    requires Tabulates(l, rows) && rows != []
    ensures PreviewOf(Columns(l), a, b).Ok?
    ensures PreviewOf(Columns(l), a, b).value == RowsPreview(rows, a, b)
  {
    PreviewOfThree(l.li, l.ph, l.outdir, a, b);
  }

  /** The loop body for one image: its outcome and what it deletes. */
  method VisitImage(env: Env, path: string) returns (o: Outcome<NormRow>, deleted: seq<string>)
    ensures o == NormStep(env, path)
    ensures deleted == Deleted(env, path)
  {
    var outdir := Dirname(path);
    var normFile := PathJoin(outdir, "li2mninorm.nii.gz");
    if IsFile(env.fs, normFile) {
      return Skip, [normFile];
    }
    deleted := [];
    var sid := SubjectOf(path);
    if sid.Err? {
      return Fail(sid.error), deleted;
    }
    var center := CenterOf(env.participants, sid.value);
    if center.Err? {
      return Fail(center.error), deleted;
    }
    if center.value !in AllowedCenters {
      return Fail(CenterNotAllowed(sid.value, center.value)), deleted;
    }
    var key := IntToStr(center.value);
    if key !in env.phantom {
      return Fail(NoSuchKey(key)), deleted;
    }
    return Accept(NormRow(path, env.phantom[key], outdir)), deleted;
  }

  /** The scan loop: one row per accepted image, in glob order, and the normalised
      images deleted on the way. */
  method CollectRows(env: Env, files: seq<string>) returns (r: Result<Lists>, removed: seq<string>, ghost rows: seq<NormRow>)
    ensures removed == Removed(env, files)
    ensures Scan(env, files, NormStep).Err? ==> r == Err(Scan(env, files, NormStep).error)
    ensures Scan(env, files, NormStep).Ok? ==> r.Ok? && rows == Scan(env, files, NormStep).value && Tabulates(r.value, rows)
  {
    var lists := Lists([], [], []);
    removed := [];
    rows := [];
    for i := 0 to |files|
      invariant Scan(env, files[..i], NormStep) == Ok(rows)
      invariant removed == Removed(env, files[..i])
      invariant Tabulates(lists, rows)
    {
      assert files[..i + 1][..i] == files[..i];
      var o, deleted := VisitImage(env, files[i]);
      removed := removed + deleted;
      match o
      case Fail(e) =>
        ScanErrPersists(env, files, NormStep, i + 1);
        EffectsErrPersists(env, files, NormStep, Deleted, i + 1);
        return Err(e), removed, rows;
      case Skip =>
      case Accept(row) =>
        TabulatesAppend(lists, rows, row);
        lists := Lists(lists.li + [row.li], lists.ph + [row.ph], lists.outdir + [row.outdir]);
        rows := rows + [row];
    }
    assert files[..|files|] == files;
    return Ok(lists), removed, rows;
  }

  /** `run`, up to the dispatch: the manifest or the error, and the normalised images
      deleted before either. */
  method Run(fs: Fs, datadir: string, phdir: string, participants: seq<Participant>, phantom: seq<PhantomLine>, test: bool)
    returns (r: Result<Jobs>, removed: seq<string>)
    ensures var env := Env(fs, participants, PhantomValues(phantom));
      && removed == Removed(env, Glob(fs, ImagePattern(datadir)))
      && (r.Ok? <==> Rows(env, datadir, test).Ok?)
      && (r.Err? ==> r.error == Rows(env, datadir, test).error)
      && (r.Ok? ==>
        var rows := Rows(env, datadir, test).value;
        && rows != []
        && Tabulates(r.value.lists, rows)
        && r.value.preview == RowsPreview(rows, datadir, phdir))
  {
    var env := Env(fs, participants, PhantomValues(phantom));
    ghost var spec := Rows(env, datadir, test);
    var files := Glob(fs, ImagePattern(datadir));
    var collected;
    ghost var rows;
    collected, removed, rows := CollectRows(env, files);
    if collected.Err? {
      assert spec == Err(collected.error);
      return Err(collected.error), removed;
    }
    var lists := collected.value;
    if |lists.li| == 0 {
      assert spec == Err(NoDataToProcess);
      return Err(NoDataToProcess), removed;
    }
    assert spec == Ok(TestCut(rows, test));
    if test {
      TabulatesTake(lists, rows);
      lists := Lists(Take(lists.li, 1), Take(lists.ph, 1), Take(lists.outdir, 1));
      rows := Take(rows, 1);
    }
    assert rows == spec.value;
    PreviewOfTabulated(lists, rows, datadir, phdir);
    var preview := PreviewOf(Columns(lists), datadir, phdir);
    return Ok(Jobs(lists, preview.value)), removed;
  }

  // ---------------------------------------------------------------------------
  // Properties

  /** An accepted image gets the phantom value of its subject's single, allowed center,
      and its own directory as output directory. */
  lemma AcceptedRowSources(env: Env, path: string)
    requires NormStep(env, path).Accept?
    ensures SubjectOf(path).Ok? && CenterOf(env.participants, SubjectOf(path).value).Ok?
    ensures var row := NormStep(env, path).row;
      var center := CenterOf(env.participants, SubjectOf(path).value).value;
      && !IsFile(env.fs, NormFile(path))
      && |Matching(env.participants, SubjectOf(path).value)| == 1
      && center in AllowedCenters
      && IntToStr(center) in env.phantom
      && row == NormRow(path, env.phantom[IntToStr(center)], Dirname(path))
  {
  }

  /** An image whose normalised image exists is skipped, whatever its subject. */
  lemma DoneImageSkipped(env: Env, path: string)
    requires IsFile(env.fs, NormFile(path))
    ensures NormStep(env, path) == Skip
  {
  }

  /** A subject whose single center is outside the allow-list stops the run. */
  lemma UnlistedCenterFails(env: Env, path: string, center: int)
    requires !IsFile(env.fs, NormFile(path)) && SubjectOf(path).Ok?
    requires CenterOf(env.participants, SubjectOf(path).value) == Ok(center)
    requires center !in AllowedCenters
    ensures NormStep(env, path) == Fail(CenterNotAllowed(SubjectOf(path).value, center))
  {
  }

  /** The phantom value is looked up by the center's text: the key read back as an
      integer is the center, and a center of the table's last line for that site gets
      that line's mean. */
  lemma PhantomKeyIsCenter(env: Env, path: string, lines: seq<PhantomLine>, k: nat)
    requires env.phantom == PhantomValues(lines)
    requires NormStep(env, path).Accept?
    requires k < |lines| && forall l :: k < l < |lines| ==> lines[l].site != lines[k].site
    requires lines[k].site == IntToStr(CenterOf(env.participants, SubjectOf(path).value).value)
    ensures ParseInt(lines[k].site) == Some(CenterOf(env.participants, SubjectOf(path).value).value)
    ensures NormStep(env, path).row.ph == lines[k].mean
  {
    IntToStrRoundTrip(CenterOf(env.participants, SubjectOf(path).value).value);
    PhantomLastWins(lines, k);
  }

  /** A scan that raises nothing deletes the normalised image of exactly the inputs
      that have one, and nothing else. */
  lemma RemovedExactly(env: Env, files: seq<string>)
    requires Scan(env, files, NormStep).Ok?
    ensures forall f :: f in Removed(env, files) <==>
      exists i :: 0 <= i < |files| && f == NormFile(files[i]) && IsFile(env.fs, f)
  {
    EffectsOfCompleteScan(env, files, NormStep, Deleted);
  }

  /** No row is made from an input whose normalised image was deleted. */
  lemma ProcessedNotRemoved(env: Env, files: seq<string>)
    requires Scan(env, files, NormStep).Ok?
    ensures forall row :: row in Scan(env, files, NormStep).value ==> NormFile(row.li) !in Removed(env, files)
  {
    RemovedExactly(env, files);
    ScanRowsAreAccepted(env, files, NormStep);
    forall row | row in Scan(env, files, NormStep).value
      ensures NormFile(row.li) !in Removed(env, files)
    {
      var i :| 0 <= i < |files| && NormStep(env, files[i]) == Accept(row);
      AcceptedRowSources(env, files[i]);
    }
  }

  /** In `join(d, sub, ses, file)` of plain names, `sub` is the third field from the
      end and `join(d, sub, ses)` the directory. */
  lemma ThirdFromEnd(d: string, sub: string, ses: string, file: string)
    requires d != [] && IsName(sub) && IsName(ses) && IsName(file)
    ensures SubjectOf(PathJoin(PathJoin3(d, sub, ses), file)) == Ok(sub)
    ensures Dirname(PathJoin(PathJoin3(d, sub, ses), file)) == PathJoin3(d, sub, ses)
  {
    var q := PathJoin3(d, sub, ses);
    JoinEndsInName(PathJoin(d, sub), ses);
    JoinThenSplitPath(q, file);
    var parts := Split(q, "/");
    assert Split(PathJoin(q, file), "/") == parts + [file] by {
      SplitAround(q, '/', file);
      SplitWithoutSep(file, '/');
    }
    assert |parts| >= 2 && parts[|parts| - 2] == sub by {
      LastTwoFields(d, sub, ses);
      assert LastN(parts, 2)[0] == sub;
    }
  }

  /** For a glob match `<datadir>/<sub>/ses-M03Li/li2mni.nii.gz` the subject id is
      `sub`, and the output directory and the normalised image are in its session
      directory. */
  lemma StandardImagePath(datadir: string, sub: string)
    requires datadir != [] && IsName(sub)
    ensures var path := PathJoin(PathJoin3(datadir, sub, "ses-M03Li"), "li2mni.nii.gz");
      && SubjectOf(path) == Ok(sub)
      && Dirname(path) == PathJoin3(datadir, sub, "ses-M03Li")
      && NormFile(path) == PathJoin(PathJoin3(datadir, sub, "ses-M03Li"), "li2mninorm.nii.gz")
  {
    ThirdFromEnd(datadir, sub, "ses-M03Li", "li2mni.nii.gz");
  }
}
