/** The lithium-to-MNI registration manifest: one row per lithium magnitude image of
    session M03Li, with the subject's best lithium-session and best reference-session
    T1w image and an output directory `<outdir>/<name>/<subject>/ses-M03Li`; a subject
    with two lithium images stops the run. */
module Li2mni {
  import opened Base
  import opened PyStr
  import opened Snapshot
  import opened Selection
  import opened Manifest
  import opened Sorting

  // ---------------------------------------------------------------------------
  // Subjects and duplicates

  /** `path.split(os.sep)[-4]`: the subject directory of a lithium image. */
  function SubjectOf(path: string): Result<string> {
    match FromEnd(Split(path, "/"), 4)
    case None => Err(PathTooShallow(path))
    case Some(subject) => Ok(subject)
  }

  /** `[path.split(os.sep)[-4] for path in files]`: the first path too shallow raises. */
  function Subjects(files: seq<string>): (r: Result<seq<string>>)
    ensures r.Ok? ==> |r.value| == |files| && forall k :: 0 <= k < |files| ==> SubjectOf(files[k]) == Ok(r.value[k])
    ensures r.Err? <==> exists k :: 0 <= k < |files| && SubjectOf(files[k]).Err?
    decreases |files|
  {
    if files == [] then Ok([])
    else
      var n := |files| - 1;
      assert forall k :: 0 <= k < n ==> files[..n][k] == files[k];
      match Subjects(files[..n])
      case Err(e) => Err(e)
      case Ok(subjects) =>
        match SubjectOf(files[n])
        case Err(e) => Err(e)
        case Ok(subject) => Ok(subjects + [subject])
  }

  /** The keys among `keys` counted more than once in `counts`. */
  function CountedTwice(keys: seq<string>, counts: multiset<string>): (r: seq<string>)
    ensures forall x :: x in r <==> x in keys && counts[x] > 1
    decreases |keys|
  {
    if keys == [] then []
    else
      var n := |keys| - 1;
      assert keys == keys[..n] + [keys[n]];
      CountedTwice(keys[..n], counts) + (if counts[keys[n]] > 1 then [keys[n]] else [])
  }

  /** `[item for item, count in Counter(xs).items() if count > 1]` */
  function Duplicates(xs: seq<string>): (r: seq<string>)
    ensures forall x :: x in r <==> multiset(xs)[x] > 1
  {
    CountedTwice(FirstOccurrences(xs), multiset(xs))
  }

  lemma RepeatCountsTwice(xs: seq<string>, i: nat, j: nat)
    requires i < j < |xs| && xs[i] == xs[j]
    ensures multiset(xs)[xs[i]] > 1
  {
    assert xs == xs[..j] + [xs[j]] + xs[j + 1..];
    assert xs[..j][i] == xs[i];
  }

  /** No duplicate is reported exactly when the subjects are pairwise distinct. */
  lemma NoDuplicatesIffDistinct(xs: seq<string>)
    ensures Duplicates(xs) == [] <==> forall i, j :: 0 <= i < j < |xs| ==> xs[i] != xs[j]
  {
    if forall i, j :: 0 <= i < j < |xs| ==> xs[i] != xs[j] {
      if Duplicates(xs) != [] {
        var x := Duplicates(xs)[0];
        assert x in Duplicates(xs);
        DistinctCountsAtMostOne(xs, x);
      }
    } else {
      var i, j :| 0 <= i < j < |xs| && xs[i] == xs[j];
      RepeatCountsTwice(xs, i, j);
      assert xs[i] in Duplicates(xs);
    }
  }

  // ---------------------------------------------------------------------------
  // One lithium image

  datatype Env = Env(fs: Fs, datadir: string, outdir: string, name: string)

  /** One manifest row: the lithium image, the chosen lithium-session and reference-session
      anatomical images, and the output directory. */
  datatype LiRow = LiRow(li: string, lianat: string, hanat: string, outdir: string)

  /** `join(datadir, "sub-*", "ses-M03Li", "lithium", "sub-*_ses-M03Li_*part-mag_limri.nii.gz")` */
  function LithiumPattern(datadir: string): string {
    PathJoin(PathJoin4(datadir, "sub-*", "ses-M03Li", "lithium"), "sub-*_ses-M03Li_*part-mag_limri.nii.gz")
  }

  /** `join(outdir, name, subject, "ses-M03Li")` */
  function SubjectOutdir(env: Env, subject: string): string {
    PathJoin4(env.outdir, env.name, subject, "ses-M03Li")
  }

  /** The lithium-session anatomical candidates of a subject. */
  function LiAnatPattern(env: Env, subject: string): string {
    PathJoin(PathJoin4(env.datadir, subject, "ses-M03Li", "anat"), subject + "_ses-M03Li_*T1w.nii.gz")
  }

  /** `join(datadir, subject, "ses-M03")` */
  function RefSessionDir(env: Env, subject: string): string {
    PathJoin3(env.datadir, subject, "ses-M03")
  }

  /** The reference-session anatomical candidates of a subject. */
  function HAnatPattern(env: Env, subject: string): string {
    PathJoin3(RefSessionDir(env, subject), "anat", subject + "_ses-M03_*T1w.nii.gz")
  }

  /** The loop body for one lithium image: skipped when its status file
      `shiftedli2mni.nii.gz` exists or the subject has no reference session; otherwise
      both anatomical selections must succeed. */
  function LiStep(env: Env, path: string): Outcome<LiRow> {
    match SubjectOf(path)
    case Err(e) => Fail(e)
    case Ok(subject) =>
      var subOutdir := SubjectOutdir(env, subject);
      if IsFile(env.fs, PathJoin(subOutdir, "shiftedli2mni.nii.gz")) then Skip
      else if !IsDir(env.fs, RefSessionDir(env, subject)) then Skip
      else
        match GetBestAnat(Glob(env.fs, LiAnatPattern(env, subject)))
        case Err(e) => Fail(e)
        case Ok(lianat) =>
          match GetBestAnat(Glob(env.fs, HAnatPattern(env, subject)))
          case Err(e) => Fail(e)
          case Ok(hanat) => Accept(LiRow(path, lianat, hanat, subOutdir))
  }

  /** The lithium images, once every one names its subject and no subject has two. */
  function CheckedFiles(fs: Fs, datadir: string): Result<seq<string>> {
    var files := Glob(fs, LithiumPattern(datadir));
    match Subjects(files)
    case Err(e) => Err(e)
    case Ok(subjects) =>
      if Duplicates(subjects) != [] then Err(DuplicateSubjects(Duplicates(subjects))) else Ok(files)
  }

  /** The rows the manifest holds before the preview, or the error the run stops with. */
  function Rows(fs: Fs, datadir: string, outdir: string, name: string, test: bool): Result<seq<LiRow>> {
    match CheckedFiles(fs, datadir)
    case Err(e) => Err(e)
    case Ok(files) =>
      match Scan(Env(fs, datadir, outdir, name), files, LiStep)
      case Err(e) => Err(e)
      case Ok(rows) => if rows == [] then Err(NoDataToProcess) else Ok(TestCut(rows, test))
  }

  // ---------------------------------------------------------------------------
  // The run

  /** The four parallel lists the loop appends to. */
  datatype Lists = Lists(li: seq<string>, lianat: seq<string>, hanat: seq<string>, outdir: seq<string>)

  datatype Jobs = Jobs(lists: Lists, preview: Preview)

  function Columns(l: Lists): seq<seq<string>> {
    [l.li, l.lianat, l.hanat, l.outdir]
  }

  ghost predicate Tabulates(l: Lists, rows: seq<LiRow>) {
    && |l.li| == |rows| && |l.lianat| == |rows| && |l.hanat| == |rows| && |l.outdir| == |rows|
    && forall k :: 0 <= k < |rows| ==>
      l.li[k] == rows[k].li && l.lianat[k] == rows[k].lianat && l.hanat[k] == rows[k].hanat
      && l.outdir[k] == rows[k].outdir
  }

  function RowPreview(row: LiRow, datadir: string, outdir: string): seq<string> {
    [StripRoots(row.li, datadir, outdir), StripRoots(row.lianat, datadir, outdir),
     StripRoots(row.hanat, datadir, outdir), StripRoots(row.outdir, datadir, outdir)]
  }

  lemma TabulatesAppend(l: Lists, rows: seq<LiRow>, row: LiRow)
    requires Tabulates(l, rows)
    ensures Tabulates(Lists(l.li + [row.li], l.lianat + [row.lianat], l.hanat + [row.hanat], l.outdir + [row.outdir]),
                      rows + [row])
  {
  }

  lemma TabulatesTake(l: Lists, rows: seq<LiRow>)
    requires Tabulates(l, rows)
    ensures Tabulates(Lists(Take(l.li, 1), Take(l.lianat, 1), Take(l.hanat, 1), Take(l.outdir, 1)), Take(rows, 1))
  {
  }

  /** The preview of a non-empty manifest: its first and its last row. */
  function RowsPreview(rows: seq<LiRow>, datadir: string, outdir: string): Preview
    requires rows != []
  {
    Preview(RowPreview(rows[0], datadir, outdir), RowPreview(rows[|rows| - 1], datadir, outdir))
  }

  lemma PreviewOfTabulated(l: Lists, rows: seq<LiRow>, a: string, b: string)
    requires Tabulates(l, rows) && rows != []
    ensures PreviewOf(Columns(l), a, b).Ok?
    ensures PreviewOf(Columns(l), a, b).value == RowsPreview(rows, a, b)
  {
    PreviewOfFour(l.li, l.lianat, l.hanat, l.outdir, a, b);
  }

  /** The loop body for one lithium image. */
  method VisitImage(env: Env, path: string) returns (o: Outcome<LiRow>)
    ensures o == LiStep(env, path)
  {
    var subject := SubjectOf(path);
    if subject.Err? {
      return Fail(subject.error);
    }
    var subOutdir := SubjectOutdir(env, subject.value);
    if IsFile(env.fs, PathJoin(subOutdir, "shiftedli2mni.nii.gz")) {
      return Skip;
    }
    var lianatFiles := Glob(env.fs, LiAnatPattern(env, subject.value));
    var sesdir := RefSessionDir(env, subject.value);
    if !IsDir(env.fs, sesdir) {
      return Skip;
    }
    var hanatFiles := Glob(env.fs, HAnatPattern(env, subject.value));
    var lianat := GetBestAnat(lianatFiles);
    if lianat.Err? {
      return Fail(lianat.error);
    }
    var hanat := GetBestAnat(hanatFiles);
    if hanat.Err? {
      return Fail(hanat.error);
    }
    return Accept(LiRow(path, lianat.value, hanat.value, subOutdir));
  }

  /** The scan loop: one row per accepted lithium image, in glob order. */
  method CollectRows(env: Env, files: seq<string>) returns (r: Result<Lists>, ghost rows: seq<LiRow>)
    ensures Scan(env, files, LiStep).Err? ==> r == Err(Scan(env, files, LiStep).error)
    ensures Scan(env, files, LiStep).Ok? ==> r.Ok? && rows == Scan(env, files, LiStep).value && Tabulates(r.value, rows)
  {
    var lists := Lists([], [], [], []);
    rows := [];
    for i := 0 to |files|
      invariant Scan(env, files[..i], LiStep) == Ok(rows)
      invariant Tabulates(lists, rows)
    {
      ScanPrefixStep(env, files, i, LiStep);
      var o := VisitImage(env, files[i]);
      match o
      case Fail(e) =>
        ScanErrPersists(env, files, LiStep, i + 1);
        return Err(e), rows;
      case Skip =>
      case Accept(row) =>
        TabulatesAppend(lists, rows, row);
        lists := Lists(lists.li + [row.li], lists.lianat + [row.lianat], lists.hanat + [row.hanat],
                       lists.outdir + [row.outdir]);
        rows := rows + [row];
    }
    assert files[..|files|] == files;
    return Ok(lists), rows;
  }

  /** `run`, up to the dispatch. */
  method Run(fs: Fs, datadir: string, outdir: string, name: string, test: bool) returns (r: Result<Jobs>)
    ensures var spec := Rows(fs, datadir, outdir, name, test);
      && (r.Ok? <==> spec.Ok?)
      && (r.Err? ==> r.error == spec.error)
      && (r.Ok? ==>
        && spec.value != []
        && Tabulates(r.value.lists, spec.value)
        && r.value.preview == RowsPreview(spec.value, datadir, outdir))
  {
    ghost var spec := Rows(fs, datadir, outdir, name, test);
    var files := Glob(fs, LithiumPattern(datadir));
    var subjects := Subjects(files);
    if subjects.Err? {
      assert CheckedFiles(fs, datadir) == Err(subjects.error);
      return Err(subjects.error);
    }
    var duplicates := Duplicates(subjects.value);
    if |duplicates| > 0 {
      assert CheckedFiles(fs, datadir) == Err(DuplicateSubjects(duplicates));
      return Err(DuplicateSubjects(duplicates));
    }
    assert CheckedFiles(fs, datadir) == Ok(files);
    var env := Env(fs, datadir, outdir, name);
    var collected;
    ghost var rows;
    collected, rows := CollectRows(env, files);
    if collected.Err? {
      assert spec == Err(collected.error);
      return Err(collected.error);
    }
    var lists := collected.value;
    if |lists.li| == 0 {
      assert spec == Err(NoDataToProcess);
      return Err(NoDataToProcess);
    }
    assert spec == Ok(TestCut(rows, test));
    if test {
      TabulatesTake(lists, rows);
      lists := Lists(Take(lists.li, 1), Take(lists.lianat, 1), Take(lists.hanat, 1), Take(lists.outdir, 1));
      rows := Take(rows, 1);
    }
    assert rows == spec.value;
    PreviewOfTabulated(lists, rows, datadir, outdir);
    var preview := PreviewOf(Columns(lists), datadir, outdir);
    return Ok(Jobs(lists, preview.value));
  }

  // ---------------------------------------------------------------------------
  // Properties

  /** Distinct rows of a scan over images of pairwise-distinct subjects: the subject of
      each row's image, and the two differ. */
  predicate DistinctSubjects(rows: seq<LiRow>) {
    forall k, l :: 0 <= k < l < |rows| ==>
      SubjectOf(rows[k].li).Ok? && SubjectOf(rows[l].li).Ok? && SubjectOf(rows[k].li) != SubjectOf(rows[l].li)
  }

  /** The scanned rows of pairwise-distinct subjects come from distinct subjects. */
  lemma ScanRowsDistinctSubjects(env: Env, files: seq<string>, subjects: seq<string>)
    requires Scan(env, files, LiStep).Ok?
    requires |subjects| == |files| && forall k :: 0 <= k < |files| ==> SubjectOf(files[k]) == Ok(subjects[k])
    requires forall i, j :: 0 <= i < j < |subjects| ==> subjects[i] != subjects[j]
    ensures DistinctSubjects(Scan(env, files, LiStep).value)
  {
    var rows := Scan(env, files, LiStep).value;
    var idx := ScanIndices(env, files, LiStep);
    forall k | 0 <= k < |rows|
      ensures SubjectOf(rows[k].li) == Ok(subjects[idx[k]])
    {
      AcceptedImage(env, files[idx[k]], rows[k]);
    }
    forall k, l | 0 <= k < l < |rows|
      ensures SubjectOf(rows[k].li).Ok? && SubjectOf(rows[l].li).Ok? && SubjectOf(rows[k].li) != SubjectOf(rows[l].li)
    {
      assert idx[k] < idx[l] < |subjects|;
    }
  }

  lemma AcceptedImage(env: Env, path: string, row: LiRow)
    requires LiStep(env, path) == Accept(row)
    ensures SubjectOf(path).Ok? && row.li == path
  {
  }

  /** A run that gets past the duplicate check has one row per subject: no two rows
      come from lithium images of the same subject. */
  lemma OneRowPerSubject(fs: Fs, datadir: string, outdir: string, name: string, test: bool)
    requires Rows(fs, datadir, outdir, name, test).Ok?
    ensures DistinctSubjects(Rows(fs, datadir, outdir, name, test).value)
  {
    var env := Env(fs, datadir, outdir, name);
    var files := CheckedFiles(fs, datadir).value;
    var subjects := Subjects(files).value;
    NoDuplicatesIffDistinct(subjects);
    ScanRowsDistinctSubjects(env, files, subjects);
    var all := Scan(env, files, LiStep).value;
    var rows := Rows(fs, datadir, outdir, name, test).value;
    assert rows == TestCut(all, test);
    TestCutKeepsFirst(all, test);
    forall k, l | 0 <= k < l < |rows|
      ensures SubjectOf(rows[k].li).Ok? && SubjectOf(rows[l].li).Ok? && SubjectOf(rows[k].li) != SubjectOf(rows[l].li)
    {
      assert rows[k] == all[k] && rows[l] == all[l];
    }
  }

  /** An accepted image's anatomical images are candidates of that subject's lithium and
      reference sessions, and its output directory is the subject's. */
  lemma AcceptedRowSources(env: Env, path: string)
    requires LiStep(env, path).Accept?
    ensures SubjectOf(path).Ok?
    ensures var row := LiStep(env, path).row; var subject := SubjectOf(path).value;
      && row.li == path
      && row.lianat in Glob(env.fs, LiAnatPattern(env, subject))
      && row.hanat in Glob(env.fs, HAnatPattern(env, subject))
      && row.outdir == SubjectOutdir(env, subject)
      && !IsFile(env.fs, PathJoin(row.outdir, "shiftedli2mni.nii.gz"))
      && IsDir(env.fs, RefSessionDir(env, subject))
  {
  }

  /** A lithium image whose status file exists is never processed again, whatever its
      anatomical images. */
  lemma DoneImageSkipped(env: Env, path: string)
    requires SubjectOf(path).Ok?
    requires IsFile(env.fs, PathJoin(SubjectOutdir(env, SubjectOf(path).value), "shiftedli2mni.nii.gz"))
    ensures LiStep(env, path) == Skip
  {
  }

  /** A lithium image whose subject has no reference session `ses-M03` is skipped,
      whatever its anatomical images. */
  lemma NoReferenceSessionSkipped(env: Env, path: string)
    requires SubjectOf(path).Ok?
    requires !IsFile(env.fs, PathJoin(SubjectOutdir(env, SubjectOf(path).value), "shiftedli2mni.nii.gz"))
    requires !IsDir(env.fs, RefSessionDir(env, SubjectOf(path).value))
    ensures LiStep(env, path) == Skip
  {
  }

  /** The whole rule of the loop body: an image is skipped exactly when its subject
      parses and either its status file exists or it has no reference session; it
      fails exactly when its path is too shallow or, past both checks, one of the two
      anatomical selections raises, and then with the first error raised. */
  lemma LiStepRule(env: Env, path: string)
    ensures LiStep(env, path).Skip? <==>
      && SubjectOf(path).Ok?
      && var subject := SubjectOf(path).value;
         || IsFile(env.fs, PathJoin(SubjectOutdir(env, subject), "shiftedli2mni.nii.gz"))
         || !IsDir(env.fs, RefSessionDir(env, subject))
    ensures LiStep(env, path).Fail? <==>
      || SubjectOf(path).Err?
      || var subject := SubjectOf(path).value;
         && !IsFile(env.fs, PathJoin(SubjectOutdir(env, subject), "shiftedli2mni.nii.gz"))
         && IsDir(env.fs, RefSessionDir(env, subject))
         && (|| GetBestAnat(Glob(env.fs, LiAnatPattern(env, subject))).Err?
             || GetBestAnat(Glob(env.fs, HAnatPattern(env, subject))).Err?)
    ensures LiStep(env, path).Fail? ==>
      LiStep(env, path).error == (
        if SubjectOf(path).Err? then SubjectOf(path).error
        else
          var subject := SubjectOf(path).value;
          var lianat := GetBestAnat(Glob(env.fs, LiAnatPattern(env, subject)));
          if lianat.Err? then lianat.error
          else GetBestAnat(Glob(env.fs, HAnatPattern(env, subject))).error)
  {
  }
}
