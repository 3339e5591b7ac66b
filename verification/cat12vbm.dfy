/** The CAT12 VBM manifest: one row per subject holding the best T1w image of each of
    its sessions M00 and M03 that exists, those sessions, the longitudinal flag and the
    subject's output directory `<outdir>/<name>/<subject>`. */
module Cat12vbm {
  import opened Base
  import opened PyStr
  import opened Snapshot
  import opened Selection
  import opened Manifest

  /** The sessions looked at for every subject, in this order. */
  const CatSessions: seq<string> := ["ses-M00", "ses-M03"]

  // ---------------------------------------------------------------------------
  // `iter_replace` over the values the preview shows

  /** The Python values the preview lines are made of. */
  datatype PyValue = Str(text: string) | Flag(flag: bool) | List(items: seq<PyValue>)

  /** `iter_replace(item, pat, repl)`: a list has `str.replace` applied to each string
      element; anything else, and any non-string element, is returned unchanged. */
  function IterReplace(item: PyValue, pat: string, repl: string): (r: PyValue)
    ensures !item.List? ==> r == item
    ensures item.List? ==> r.List? && |r.items| == |item.items|
    ensures item.List? ==> forall k :: 0 <= k < |item.items| ==>
      if item.items[k].Str? then r.items[k] == Str(Replace(item.items[k].text, pat, repl))
      else r.items[k] == item.items[k]
  {
    if !item.List? then item
    else
      List(seq(|item.items|, k requires 0 <= k < |item.items| =>
        if item.items[k].Str? then Str(Replace(item.items[k].text, pat, repl)) else item.items[k]))
  }

  /** Replacing a text by itself changes no value. */
  lemma IterReplaceBySelf(item: PyValue, pat: string)
    ensures IterReplace(item, pat, pat) == item
  {
    if item.List? {
      var r := IterReplace(item, pat, pat);
      forall k | 0 <= k < |item.items| ensures r.items[k] == item.items[k] {
        if item.items[k].Str? {
          ReplaceBySelf(item.items[k].text, pat);
        }
      }
    }
  }

  /** A list of strings as a Python value. */
  function Strs(xs: seq<string>): seq<PyValue> {
    seq(|xs|, k requires 0 <= k < |xs| => Str(xs[k]))
  }

  /** One preview entry: the data root, then the output root, replaced away. */
  function Shown(v: PyValue, datadir: string, outdir: string): PyValue {
    IterReplace(IterReplace(v, datadir, ""), outdir, "")
  }

  // ---------------------------------------------------------------------------
  // The scan

  datatype Env = Env(fs: Fs, datadir: string, outdir: string, name: string)

  /** What the inner loop keeps for one existing session. */
  datatype Pick = Pick(anat: string, session: string)

  /** One manifest row: the chosen image per session, the sessions, the longitudinal
      flag and the output directory. */
  datatype CatRow = CatRow(anats: seq<string>, sessions: seq<string>, isLong: bool, outdir: string)

  /** `join(datadir, subject, session)` */
  function SessionDir(env: Env, subject: string, session: string): string {
    PathJoin3(env.datadir, subject, session)
  }

  /** The T1w candidates of a session. */
  function AnatPattern(sesdir: string, session: string): string {
    PathJoin3(sesdir, "anat", "sub-*_" + session + "_*T1w.nii.gz")
  }

  /** `join(outdir, name, subject)` */
  function SubjectOutdir(env: Env, subject: string): string {
    PathJoin3(env.outdir, env.name, subject)
  }

  /** The inner loop body for one session of the subject `at.1`: skipped when the
      session directory is missing, otherwise the best T1w image is kept or the run
      stops with the selection's error. */
  function SessionStep(at: (Env, string), session: string): Outcome<Pick> {
    var (env, subject) := at;
    var sesdir := SessionDir(env, subject, session);
    if !IsDir(env.fs, sesdir) then Skip
    else
      match GetBestAnat(Glob(env.fs, AnatPattern(sesdir, session)))
      case Err(e) => Fail(e)
      case Ok(best) => Accept(Pick(best, session))
  }

  function Anats(picks: seq<Pick>): seq<string> {
    seq(|picks|, k requires 0 <= k < |picks| => picks[k].anat)
  }

  function SessionsOf(picks: seq<Pick>): seq<string> {
    seq(|picks|, k requires 0 <= k < |picks| => picks[k].session)
  }

  /** The outer loop body for one subject: no row without an existing session, else
      the subject's images and sessions, longitudinal when there are several. */
  function SubjectStep(env: Env, subject: string): Outcome<CatRow> {
    match Scan((env, subject), CatSessions, SessionStep)
    case Err(e) => Fail(e)
    case Ok(picks) =>
      if picks == [] then Skip
      else Accept(CatRow(Anats(picks), SessionsOf(picks), |picks| > 1, SubjectOutdir(env, subject)))
  }

  /** The rows the manifest holds before the preview, or the error the run stops with. */
  function Rows(fs: Fs, datadir: string, outdir: string, name: string, test: bool): Result<seq<CatRow>> {
    match ListDir(fs, datadir)
    case Err(e) => Err(e)
    case Ok(subjects) =>
      match Scan(Env(fs, datadir, outdir, name), subjects, SubjectStep)
      case Err(e) => Err(e)
      case Ok(rows) => if rows == [] then Err(NoDataToProcess) else Ok(TestCut(rows, test))
  }

  // ---------------------------------------------------------------------------
  // The run

  /** The four parallel lists the loop appends to. */
  datatype Lists = Lists(anat: seq<seq<string>>, session: seq<seq<string>>, isLong: seq<bool>, outdir: seq<string>)

  /** The preview lines: each column's first and last entry. */
  datatype CatPreview = CatPreview(first: seq<PyValue>, last: seq<PyValue>)

  datatype Jobs = Jobs(lists: Lists, preview: CatPreview)

  ghost predicate Tabulates(l: Lists, rows: seq<CatRow>) {
    && |l.anat| == |rows| && |l.session| == |rows| && |l.isLong| == |rows| && |l.outdir| == |rows|
    && forall k :: 0 <= k < |rows| ==>
      l.anat[k] == rows[k].anats && l.session[k] == rows[k].sessions && l.isLong[k] == rows[k].isLong
      && l.outdir[k] == rows[k].outdir
  }

  /** A row's entries as the preview shows them. */
  function RowPreview(row: CatRow, datadir: string, outdir: string): seq<PyValue> {
    [Shown(List(Strs(row.anats)), datadir, outdir), Shown(List(Strs(row.sessions)), datadir, outdir),
     Shown(Flag(row.isLong), datadir, outdir), Shown(Str(row.outdir), datadir, outdir)]
  }

  /** The preview of a non-empty manifest: its first and its last row. */
  function RowsPreview(rows: seq<CatRow>, datadir: string, outdir: string): CatPreview
    requires rows != []
  {
    CatPreview(RowPreview(rows[0], datadir, outdir), RowPreview(rows[|rows| - 1], datadir, outdir))
  }

  /** `[item[0] ...]` and `[item[-1] ...]` over the four lists, each shown with both
      roots replaced away. */
  function ListsPreview(l: Lists, datadir: string, outdir: string): CatPreview
    requires |l.anat| > 0 && |l.session| > 0 && |l.isLong| > 0 && |l.outdir| > 0
  {
    CatPreview(
      [Shown(List(Strs(l.anat[0])), datadir, outdir), Shown(List(Strs(l.session[0])), datadir, outdir),
       Shown(Flag(l.isLong[0]), datadir, outdir), Shown(Str(l.outdir[0]), datadir, outdir)],
      [Shown(List(Strs(l.anat[|l.anat| - 1])), datadir, outdir), Shown(List(Strs(l.session[|l.session| - 1])), datadir, outdir),
       Shown(Flag(l.isLong[|l.isLong| - 1]), datadir, outdir), Shown(Str(l.outdir[|l.outdir| - 1]), datadir, outdir)])
  }

  lemma PreviewOfTabulated(l: Lists, rows: seq<CatRow>, a: string, b: string)
    requires Tabulates(l, rows) && rows != []
    ensures ListsPreview(l, a, b) == RowsPreview(rows, a, b)
  {
    var n := |rows| - 1;
    assert l.anat[0] == rows[0].anats && l.session[0] == rows[0].sessions;
    assert l.isLong[0] == rows[0].isLong && l.outdir[0] == rows[0].outdir;
    assert l.anat[n] == rows[n].anats && l.session[n] == rows[n].sessions;
    assert l.isLong[n] == rows[n].isLong && l.outdir[n] == rows[n].outdir;
  }

  lemma TabulatesAppend(l: Lists, rows: seq<CatRow>, row: CatRow)
    requires Tabulates(l, rows)
    ensures Tabulates(Lists(l.anat + [row.anats], l.session + [row.sessions], l.isLong + [row.isLong], l.outdir + [row.outdir]),
                      rows + [row])
  {
  }

  lemma TabulatesTake(l: Lists, rows: seq<CatRow>)
    requires Tabulates(l, rows)
    ensures Tabulates(Lists(Take(l.anat, 1), Take(l.session, 1), Take(l.isLong, 1), Take(l.outdir, 1)), Take(rows, 1))
  {
  }

  lemma PicksSnoc(picks: seq<Pick>, pick: Pick)
    ensures Anats(picks + [pick]) == Anats(picks) + [pick.anat]
    ensures SessionsOf(picks + [pick]) == SessionsOf(picks) + [pick.session]
  {
  }

  /** The body of the inner loop for one session. */
  method VisitSession(env: Env, subject: string, session: string) returns (o: Outcome<Pick>)
    ensures o == SessionStep((env, subject), session)
  {
    var sesdir := SessionDir(env, subject, session);
    if !IsDir(env.fs, sesdir) {
      return Skip;
    }
    var anatFiles := Glob(env.fs, AnatPattern(sesdir, session));
    var best := GetBestAnat(anatFiles);
    if best.Err? {
      return Fail(best.error);
    }
    return Accept(Pick(best.value, session));
  }

  /** The inner loop: the sessions of one subject, keeping the image and the name of
      each existing session. */
  method PickSessions(env: Env, subject: string) returns (r: Result<(seq<string>, seq<string>)>, ghost picks: seq<Pick>)
    ensures Scan((env, subject), CatSessions, SessionStep).Err? ==>
      r == Err(Scan((env, subject), CatSessions, SessionStep).error)
    ensures Scan((env, subject), CatSessions, SessionStep).Ok? ==>
      && picks == Scan((env, subject), CatSessions, SessionStep).value
      && r == Ok((Anats(picks), SessionsOf(picks)))
  {
    var longAnatFiles: seq<string> := [];
    var longSessions: seq<string> := [];
    picks := [];
    for j := 0 to |CatSessions|
      invariant Scan((env, subject), CatSessions[..j], SessionStep) == Ok(picks)
      invariant longAnatFiles == Anats(picks) && longSessions == SessionsOf(picks)
    {
      assert CatSessions[..j + 1] == CatSessions[..j] + [CatSessions[j]];
      ScanSnoc((env, subject), CatSessions[..j], CatSessions[j], SessionStep);
      var outcome := VisitSession(env, subject, CatSessions[j]);
      match outcome
      case Fail(e) =>
        ScanErrPersists((env, subject), CatSessions, SessionStep, j + 1);
        return Err(e), picks;
      case Skip =>
      case Accept(pick) =>
        PicksSnoc(picks, pick);
        longAnatFiles := longAnatFiles + [pick.anat];
        longSessions := longSessions + [pick.session];
        picks := picks + [pick];
    }
    assert CatSessions[..|CatSessions|] == CatSessions;
    return Ok((longAnatFiles, longSessions)), picks;
  }

  /** The body of the outer loop for one subject. */
  method VisitSubject(env: Env, subject: string) returns (o: Outcome<CatRow>)
    ensures o == SubjectStep(env, subject)
  {
    var picked, picks := PickSessions(env, subject);
    if picked.Err? {
      return Fail(picked.error);
    }
    var (longAnatFiles, longSessions) := picked.value;
    if |longAnatFiles| == 0 {
      return Skip;
    }
    var subOutdir := SubjectOutdir(env, subject);
    var isLong := |longAnatFiles| > 1;
    return Accept(CatRow(longAnatFiles, longSessions, isLong, subOutdir));
  }

  /** One pass of the outer loop: visit `subject` and append its row. */
  method CollectSubject(env: Env, subject: string, lists0: Lists, ghost rows0: seq<CatRow>)
    returns (r: Result<Lists>, ghost rows: seq<CatRow>)
    requires Tabulates(lists0, rows0)
    ensures var next := Extend(Ok(rows0), SubjectStep(env, subject));
      && (next.Err? ==> r == Err(next.error))
      && (next.Ok? ==> r.Ok? && rows == next.value && Tabulates(r.value, rows))
  {
    var outcome := VisitSubject(env, subject);
    rows := rows0;
    match outcome
    case Fail(e) =>
      return Err(e), rows;
    case Skip =>
      return Ok(lists0), rows;
    case Accept(row) =>
      TabulatesAppend(lists0, rows0, row);
      rows := rows0 + [row];
      return Ok(Lists(lists0.anat + [row.anats], lists0.session + [row.sessions], lists0.isLong + [row.isLong],
                      lists0.outdir + [row.outdir])), rows;
  }

  /** The outer loop: one row per subject with an existing session, in listing order. */
  method CollectRows(env: Env, subjects: seq<string>) returns (r: Result<Lists>, ghost rows: seq<CatRow>)
    ensures Scan(env, subjects, SubjectStep).Err? ==> r == Err(Scan(env, subjects, SubjectStep).error)
    ensures Scan(env, subjects, SubjectStep).Ok? ==>
      r.Ok? && rows == Scan(env, subjects, SubjectStep).value && Tabulates(r.value, rows)
  {
    var lists := Lists([], [], [], []);
    rows := [];
    for i := 0 to |subjects|
      invariant Scan(env, subjects[..i], SubjectStep) == Ok(rows)
      invariant Tabulates(lists, rows)
    {
      assert subjects[..i + 1][..i] == subjects[..i];
      var collected;
      collected, rows := CollectSubject(env, subjects[i], lists, rows);
      if collected.Err? {
        ScanErrPersists(env, subjects, SubjectStep, i + 1);
        return Err(collected.error), rows;
      }
      lists := collected.value;
    }
    assert subjects[..|subjects|] == subjects;
    return Ok(lists), rows;
  }

  /** `run`, up to the dispatch. */
  method Run(fs: Fs, datadir: string, outdir: string, name: string, test: bool) returns (r: Result<Jobs>)
    ensures var spec := Rows(fs, datadir, outdir, name, test);
      && (r.Ok? <==> spec.Ok?)
      && (r.Err? ==> r.error == spec.error)
      && (r.Ok? ==>
        && spec.value != []
        && Tabulates(r.value.lists, spec.value)
        && r.value.preview == RowsPreview(spec.value, datadir, outdir))
  {
    ghost var spec := Rows(fs, datadir, outdir, name, test);
    var subjects := ListDir(fs, datadir);
    if subjects.Err? {
      assert spec == Err(subjects.error);
      return Err(subjects.error);
    }
    var env := Env(fs, datadir, outdir, name);
    var collected;
    ghost var rows;
    collected, rows := CollectRows(env, subjects.value);
    if collected.Err? {
      assert spec == Err(collected.error);
      return Err(collected.error);
    }
    var lists := collected.value;
    if |lists.anat| == 0 {
      assert spec == Err(NoDataToProcess);
      return Err(NoDataToProcess);
    }
    assert spec == Ok(TestCut(rows, test));
    if test {
      TabulatesTake(lists, rows);
      lists := Lists(Take(lists.anat, 1), Take(lists.session, 1), Take(lists.isLong, 1), Take(lists.outdir, 1));
      rows := Take(rows, 1);
    }
    assert rows == spec.value;
    PreviewOfTabulated(lists, rows, datadir, outdir);
    return Ok(Jobs(lists, ListsPreview(lists, datadir, outdir)));
  }

  // ---------------------------------------------------------------------------
  // Properties

  /** The sessions of a subject that have a directory, in the order M00, M03. */
  function ExistingSessions(env: Env, subject: string): seq<string> {
    (if IsDir(env.fs, SessionDir(env, subject, "ses-M00")) then ["ses-M00"] else [])
    + (if IsDir(env.fs, SessionDir(env, subject, "ses-M03")) then ["ses-M03"] else [])
  }

  /** A subject without a failing selection gets a row exactly when one of its session
      directories exists; the row lists exactly those sessions, in order, one image per
      session taken from that session's candidates, and is longitudinal exactly when
      both sessions exist. */
  lemma SubjectRowSessions(env: Env, subject: string)
    requires !SubjectStep(env, subject).Fail?
    ensures SubjectStep(env, subject).Skip? <==> ExistingSessions(env, subject) == []
    ensures SubjectStep(env, subject).Accept? ==>
      var row := SubjectStep(env, subject).row;
      && row.sessions == ExistingSessions(env, subject)
      && |row.anats| == |row.sessions|
      && (forall k :: 0 <= k < |row.anats| ==>
            row.anats[k] in Glob(env.fs, AnatPattern(SessionDir(env, subject, row.sessions[k]), row.sessions[k])))
      && (row.isLong <==> |ExistingSessions(env, subject)| == 2)
      && row.outdir == SubjectOutdir(env, subject)
  {
    var at := (env, subject);
    CatPicks(env, subject);
    var picks := Scan(at, CatSessions, SessionStep).value;
    assert |picks| == |SessionsOf(picks)|;
    if picks != [] {
      var row := SubjectStep(env, subject).row;
      assert row == CatRow(Anats(picks), SessionsOf(picks), |picks| > 1, SubjectOutdir(env, subject));
      forall k | 0 <= k < |row.anats|
        ensures row.anats[k] in Glob(env.fs, AnatPattern(SessionDir(env, subject, row.sessions[k]), row.sessions[k]))
      {
        assert PickOfSession(env, subject, picks[k]);
      }
    }
  }

  /** The pick holds one of its own session's candidates. */
  ghost predicate PickOfSession(env: Env, subject: string, p: Pick) {
    p.anat in Glob(env.fs, AnatPattern(SessionDir(env, subject, p.session), p.session))
  }

  /** The inner loop keeps the existing sessions, in order, each with one of its own
      candidates. */
  lemma CatPicks(env: Env, subject: string)
    requires Scan((env, subject), CatSessions, SessionStep).Ok?
    ensures var picks := Scan((env, subject), CatSessions, SessionStep).value;
      && SessionsOf(picks) == ExistingSessions(env, subject)
      && forall k :: 0 <= k < |picks| ==> PickOfSession(env, subject, picks[k])
  {
    var at := (env, subject);
    var o0, o1 := SessionStep(at, "ses-M00"), SessionStep(at, "ses-M03");
    TwoSessionScan(env, subject);
    TwoOutcomes(o0, o1);
    SessionPickFacts(env, subject, "ses-M00");
    SessionPickFacts(env, subject, "ses-M03");
    SessionsOfTwo(o0, o1, "ses-M00", "ses-M03");
  }

  /** The sessions of the picks two iterations keep. */
  lemma SessionsOfTwo(o0: Outcome<Pick>, o1: Outcome<Pick>, s0: string, s1: string)
    requires o0.Accept? ==> o0.row.session == s0
    requires o1.Accept? ==> o1.row.session == s1
    ensures var picks := (if o0.Accept? then [o0.row] else []) + (if o1.Accept? then [o1.row] else []);
      SessionsOf(picks) == (if o0.Accept? then [s0] else []) + (if o1.Accept? then [s1] else [])
  {
    var picks := (if o0.Accept? then [o0.row] else []) + (if o1.Accept? then [o1.row] else []);
    var names := (if o0.Accept? then [s0] else []) + (if o1.Accept? then [s1] else []);
    assert |SessionsOf(picks)| == |names|;
    forall k | 0 <= k < |names| ensures SessionsOf(picks)[k] == names[k] {
      if k == 0 && o0.Accept? {
        assert picks[0] == o0.row;
      } else {
        assert picks[k] == o1.row;
      }
    }
  }

  /** What two loop iterations that do not raise append: the row of each accepted one,
      in order. */
  lemma TwoOutcomes<R>(o0: Outcome<R>, o1: Outcome<R>)
    ensures Extend(Extend(Ok([]), o0), o1).Ok? <==> !o0.Fail? && !o1.Fail?
    ensures Extend(Extend(Ok([]), o0), o1).Ok? ==>
      Extend(Extend(Ok([]), o0), o1).value == (if o0.Accept? then [o0.row] else []) + (if o1.Accept? then [o1.row] else [])
  {
    if o0.Accept? {
      assert [] + [o0.row] == [o0.row];
    }
  }

  /** One session is skipped exactly when its directory is missing, and otherwise
      keeps one of its own candidates under its own name. */
  lemma SessionPickFacts(env: Env, subject: string, session: string)
    ensures SessionStep((env, subject), session).Skip? <==> !IsDir(env.fs, SessionDir(env, subject, session))
    ensures SessionStep((env, subject), session).Accept? ==>
      var pick := SessionStep((env, subject), session).row;
      && pick.session == session
      && pick.anat in Glob(env.fs, AnatPattern(SessionDir(env, subject, session), session))
  {
  }

  /** The inner loop is one iteration for M00, then one for M03. */
  lemma TwoSessionScan(env: Env, subject: string)
    ensures Scan((env, subject), CatSessions, SessionStep)
      == Extend(Extend(Ok([]), SessionStep((env, subject), "ses-M00")), SessionStep((env, subject), "ses-M03"))
  {
    var at := (env, subject);
    assert CatSessions[..1] == ["ses-M00"] && CatSessions[..0] == [];
    assert Scan(at, CatSessions[..0], SessionStep) == Ok([]);
    ScanSnoc(at, CatSessions[..0], "ses-M00", SessionStep);
    ScanSnoc(at, CatSessions[..1], "ses-M03", SessionStep);
    assert CatSessions[..1] + ["ses-M03"] == CatSessions;
  }

  /** The preview shows the image and session lists with both roots removed from each
      entry, but the longitudinal flag and the output directory exactly as they are:
      `iter_replace` leaves non-list values alone. */
  lemma PreviewStripsListsOnly(row: CatRow, datadir: string, outdir: string)
    ensures var p := RowPreview(row, datadir, outdir);
      && p[0] == List(Strs(seq(|row.anats|, k requires 0 <= k < |row.anats| => StripRoots(row.anats[k], datadir, outdir))))
      && p[1] == List(Strs(seq(|row.sessions|, k requires 0 <= k < |row.sessions| => StripRoots(row.sessions[k], datadir, outdir))))
      && p[2] == Flag(row.isLong)
      && p[3] == Str(row.outdir)
  {
    var p := RowPreview(row, datadir, outdir);
    assert p[0].items == Strs(seq(|row.anats|, k requires 0 <= k < |row.anats| => StripRoots(row.anats[k], datadir, outdir)));
    assert p[1].items == Strs(seq(|row.sessions|, k requires 0 <= k < |row.sessions| => StripRoots(row.sessions[k], datadir, outdir)));
  }
}
