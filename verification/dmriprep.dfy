/** The dMRI preprocessing manifest: every `sub-<id>/ses-<id>` directory of the raw-data
    tree that holds exactly two DWI runs, each with its .bvec, .bval and .json
    sidecar, becomes one row of comma-joined file pairs, the two phase-encoding
    directions, the two readout times, and an output directory under
    `<outdir>/<name>/<sub>/<ses>`. */
module Dmriprep {
  import opened Base
  import opened PyStr
  import opened Sorting
  import opened Snapshot
  import opened Manifest

  // ---------------------------------------------------------------------------
  // get_sub_ses

  /** `[d for d in entries if d.startswith("sub-") and isdir(join(path, d))]` */
  function SubDirs(fs: Fs, path: string, entries: seq<string>): (r: seq<string>)
    ensures forall d :: d in r <==> d in entries && StartsWith(d, "sub-") && IsDir(fs, PathJoin(path, d))
    decreases |entries|
  {
    if entries == [] then []
    else
      var n := |entries| - 1;
      assert entries == entries[..n] + [entries[n]];
      SubDirs(fs, path, entries[..n])
        + (if StartsWith(entries[n], "sub-") && IsDir(fs, PathJoin(path, entries[n])) then [entries[n]] else [])
  }

  /** A `ses-*` entry of a subject directory that is itself a directory. */
  predicate IsSessionDir(fs: Fs, path: string, sub: string, ses: string) {
    StartsWith(ses, "ses-") && IsDir(fs, PathJoin3(path, sub, ses))
  }

  /** The paths the inner loop appends for one subject, in listing order. */
  function SesDirs(fs: Fs, path: string, sub: string, entries: seq<string>): seq<string>
    decreases |entries|
  {
    if entries == [] then []
    else
      var n := |entries| - 1;
      SesDirs(fs, path, sub, entries[..n])
        + (if IsSessionDir(fs, path, sub, entries[n]) then [PathJoin3(path, sub, entries[n])] else [])
  }

  /** The paths the nested loop appends, subject by subject. */
  function SubSesDirs(fs: Fs, path: string, subs: seq<string>): seq<string>
    decreases |subs|
  {
    if subs == [] then []
    else
      var n := |subs| - 1;
      SubSesDirs(fs, path, subs[..n]) + SesDirs(fs, path, subs[n], Entries(fs, PathJoin(path, subs[n])))
  }

  /** What `get_sub_ses(path)` returns, or the error `os.listdir(path)` raises. */
  function SubSes(fs: Fs, path: string): Result<seq<string>> {
    match ListDir(fs, path)
    case Err(e) => Err(e)
    case Ok(entries) => Ok(SubSesDirs(fs, path, SubDirs(fs, path, entries)))
  }

  /** The inner loop of `get_sub_ses`: the session directories of one subject. */
  method ListSessions(fs: Fs, path: string, sub: string) returns (dirs: seq<string>)
    ensures dirs == SesDirs(fs, path, sub, Entries(fs, PathJoin(path, sub)))
  {
    var entries := Entries(fs, PathJoin(path, sub));
    dirs := [];
    for j := 0 to |entries|
      invariant dirs == SesDirs(fs, path, sub, entries[..j])
    {
      var ses := entries[j];
      if StartsWith(ses, "ses-") && IsDir(fs, PathJoin3(path, sub, ses)) {
        dirs := dirs + [PathJoin3(path, sub, ses)];
      }
      assert entries[..j + 1][..j] == entries[..j];
    }
    assert entries[..|entries|] == entries;
  }

  /** The outer loop of `get_sub_ses`: the session directories of every subject, in
      listing order. */
  method ListSubSes(fs: Fs, path: string, subDirs: seq<string>) returns (subSesDirs: seq<string>)
    ensures subSesDirs == SubSesDirs(fs, path, subDirs)
  {
    subSesDirs := [];
    for i := 0 to |subDirs|
      invariant subSesDirs == SubSesDirs(fs, path, subDirs[..i])
    {
      var dirs := ListSessions(fs, path, subDirs[i]);
      subSesDirs := subSesDirs + dirs;
      assert subDirs[..i + 1][..i] == subDirs[..i];
    }
    assert subDirs[..|subDirs|] == subDirs;
  }

  /** `get_sub_ses(path)` */
  method GetSubSes(fs: Fs, path: string) returns (r: Result<seq<string>>)
    ensures r == SubSes(fs, path)
    ensures r.Err? <==> !IsDir(fs, path)
  {
    var listed := ListDir(fs, path);
    if listed.Err? {
      return Err(listed.error);
    }
    var subSesDirs := ListSubSes(fs, path, SubDirs(fs, path, listed.value));
    return Ok(subSesDirs);
  }

  lemma {:induction false} SesDirsMembership(fs: Fs, path: string, sub: string, entries: seq<string>, p: string)
    ensures p in SesDirs(fs, path, sub, entries) <==>
      exists ses :: ses in entries && IsSessionDir(fs, path, sub, ses) && p == PathJoin3(path, sub, ses)
    decreases |entries|
  {
    if entries != [] {
      var n := |entries| - 1;
      SesDirsMembership(fs, path, sub, entries[..n], p);
      assert entries == entries[..n] + [entries[n]];
    }
  }

  /** `ses` is a session directory of the subject `sub` of `path`, and `p` its path. */
  predicate SessionPath(fs: Fs, path: string, sub: string, ses: string, p: string) {
    ses in Entries(fs, PathJoin(path, sub)) && IsSessionDir(fs, path, sub, ses) && p == PathJoin3(path, sub, ses)
  }

  /** `p` is the path of a session directory of one of `subs`. */
  ghost predicate ListedUnder(fs: Fs, path: string, subs: seq<string>, p: string) {
    exists sub, ses :: sub in subs && SessionPath(fs, path, sub, ses, p)
  }

  /** A session path of the last subject, or of an earlier one, is listed under all
      of them. */
  lemma ListedUnderSnoc(fs: Fs, path: string, init: seq<string>, last: string, p: string)
    ensures ListedUnder(fs, path, init + [last], p) <==>
      ListedUnder(fs, path, init, p) || exists ses :: SessionPath(fs, path, last, ses, p)
  {
    var subs := init + [last];
    if ListedUnder(fs, path, subs, p) {
      var sub, ses :| sub in subs && SessionPath(fs, path, sub, ses, p);
      if sub != last {
        assert sub in init;
      }
    }
    if ListedUnder(fs, path, init, p) {
      var sub, ses :| sub in init && SessionPath(fs, path, sub, ses, p);
      assert sub in subs;
    }
    if exists ses :: SessionPath(fs, path, last, ses, p) {
      var ses :| SessionPath(fs, path, last, ses, p);
      assert last in subs;
    }
  }

  /** The session paths of one subject are those its inner loop appends. */
  lemma SessionPathOfLast(fs: Fs, path: string, last: string, p: string)
    ensures p in SesDirs(fs, path, last, Entries(fs, PathJoin(path, last))) <==>
      exists ses :: SessionPath(fs, path, last, ses, p)
  {
    var entries := Entries(fs, PathJoin(path, last));
    SesDirsMembership(fs, path, last, entries, p);
    if p in SesDirs(fs, path, last, entries) {
      var ses :| ses in entries && IsSessionDir(fs, path, last, ses) && p == PathJoin3(path, last, ses);
      assert SessionPath(fs, path, last, ses, p);
    }
  }

  lemma {:induction false} SubSesDirsMembership(fs: Fs, path: string, subs: seq<string>, p: string)
    ensures p in SubSesDirs(fs, path, subs) <==> exists sub, ses :: sub in subs && SessionPath(fs, path, sub, ses, p)
    decreases |subs|
  {
    if subs != [] {
      var n := |subs| - 1;
      var init, last := subs[..n], subs[n];
      assert subs == init + [last];
      SubSesDirsMembership(fs, path, init, p);
      SessionPathOfLast(fs, path, last, p);
      ListedUnderSnoc(fs, path, init, last, p);
      assert ListedUnder(fs, path, subs, p) <==> exists sub, ses :: sub in subs && SessionPath(fs, path, sub, ses, p);
    }
  }

  /** `get_sub_ses` lists exactly the `path/sub-<id>/ses-<id>` directories: a path is
      listed if and only if it joins a `sub-*` subject directory of `path` with a
      `ses-*` session directory of that subject. */
  lemma SubSesListsSessionDirs(fs: Fs, path: string, p: string)
    requires IsDir(fs, path)
    ensures p in SubSes(fs, path).value <==>
      exists sub, ses :: sub in fs.listing[path] && StartsWith(sub, "sub-") && IsDir(fs, PathJoin(path, sub))
        && SessionPath(fs, path, sub, ses, p)
  {
    SubSesDirsMembership(fs, path, SubDirs(fs, path, fs.listing[path]), p);
  }

  // ---------------------------------------------------------------------------
  // One session

  /** What the loop needs besides the session path. */
  datatype Env = Env(fs: Fs, outdir: string, name: string)

  /** One manifest row: comma-joined DWI, .bvec and .bval pairs, the two phase-encoding
      directions, the two readout times, and the output directory. */
  datatype DwiRow = DwiRow(dwi: string, bvec: string, bval: string, pe: string, readout: string, outdir: string)

  /** `join(sub_ses, "dwi", "*_acq-DWI*_run-*_dwi" + suffix)` */
  function DwiPattern(subSes: string, suffix: string): string {
    PathJoin3(subSes, "dwi", "*_acq-DWI*_run-*_dwi" + suffix)
  }

  /** `xs.sort()` on a two-element list. */
  function SortTwo(xs: seq<string>): (r: seq<string>)
    requires |xs| == 2
    ensures |r| == 2 && StrLe(r[0], r[1])
    ensures multiset(r) == multiset(xs)
  {
    assert xs == [xs[0], xs[1]];
    if StrLe(xs[0], xs[1]) then xs
    else
      StrLeTotal(xs[0], xs[1]);
      [xs[1], xs[0]]
  }

  /** The phase-encoding value a decoded sidecar contributes. */
  function PeOf(data: map<string, string>): seq<string> {
    if "PhaseEncodingDirection" in data then [data["PhaseEncodingDirection"]] else []
  }

  /** The readout values a decoded sidecar contributes: the total readout time, then
      the estimated one, each when present. */
  function ReadoutOf(data: map<string, string>): seq<string> {
    (if "TotalReadoutTime" in data then [data["TotalReadoutTime"]] else [])
      + (if "EstimatedTotalReadoutTime" in data then [data["EstimatedTotalReadoutTime"]] else [])
  }

  /** State of the sidecar loop: the local `data` (None while it was never assigned in
      the run), the values collected, and the decode-error flag. */
  datatype Reading = Reading(data: Option<map<string, string>>, pe: seq<string>, readout: seq<string>, errorFlag: bool)

  /** The sidecar loop over `jsons`, entered with `data0` still bound from earlier
      sessions. A sidecar that fails to decode sets the flag and leaves `data` as it
      was, and the keys are then read from that stale value; when no sidecar of the run
      has decoded yet, reading it raises UnboundLocalError. */
  function ReadAll(fs: Fs, data0: Option<map<string, string>>, jsons: seq<string>): Result<Reading>
    decreases |jsons|
  {
    if jsons == [] then Ok(Reading(data0, [], [], false))
    else
      var n := |jsons| - 1;
      match ReadAll(fs, data0, jsons[..n])
      case Err(e) => Err(e)
      case Ok(rd) => ReadStep(fs, rd, jsons[n])
  }

  /** One pass of the sidecar loop. */
  function ReadStep(fs: Fs, rd: Reading, json: string): Result<Reading> {
    var loaded := ReadSidecar(fs, json);
    var data := if loaded.Decoded? then Some(loaded.fields) else rd.data;
    if data.None? then Err(UnboundVariable("data"))
    else Ok(Reading(data, rd.pe + PeOf(data.value), rd.readout + ReadoutOf(data.value),
                    rd.errorFlag || loaded.Undecodable?))
  }

  lemma {:induction false} ReadAllErrPersists(fs: Fs, data0: Option<map<string, string>>, jsons: seq<string>, k: nat)
    requires k <= |jsons| && ReadAll(fs, data0, jsons[..k]).Err?
    ensures ReadAll(fs, data0, jsons) == ReadAll(fs, data0, jsons[..k])
    decreases |jsons|
  {
    if k < |jsons| {
      var n := |jsons| - 1;
      assert jsons[..n][..k] == jsons[..k];
      ReadAllErrPersists(fs, data0, jsons[..n], k);
    } else {
      assert jsons[..k] == jsons;
    }
  }

  /** The body of the sidecar loop for one file. */
  method ReadOne(fs: Fs, rd: Reading, json: string) returns (r: Result<Reading>)
    ensures r == ReadStep(fs, rd, json)
  {
    var data := rd.data;
    var errorFlag := rd.errorFlag;
    var loaded := ReadSidecar(fs, json);
    if loaded.Decoded? {
      data := Some(loaded.fields);
    } else {
      errorFlag := true;
    }
    if data.None? {
      return Err(UnboundVariable("data"));
    }
    var pe, readout := rd.pe, rd.readout;
    if "PhaseEncodingDirection" in data.value {
      pe := pe + [data.value["PhaseEncodingDirection"]];
    }
    if "TotalReadoutTime" in data.value {
      readout := readout + [data.value["TotalReadoutTime"]];
    }
    if "EstimatedTotalReadoutTime" in data.value {
      readout := readout + [data.value["EstimatedTotalReadoutTime"]];
    }
    assert pe == rd.pe + PeOf(data.value);
    assert readout == rd.readout + ReadoutOf(data.value);
    return Ok(Reading(data, pe, readout, errorFlag));
  }

  /** The sidecar loop of one session. */
  method ReadSidecars(fs: Fs, data0: Option<map<string, string>>, jsons: seq<string>) returns (r: Result<Reading>)
    ensures r == ReadAll(fs, data0, jsons)
  {
    var reading := Reading(data0, [], [], false);
    for k := 0 to |jsons|
      invariant ReadAll(fs, data0, jsons[..k]) == Ok(reading)
    {
      assert jsons[..k + 1][..k] == jsons[..k];
      var next := ReadOne(fs, reading, jsons[k]);
      if next.Err? {
        ReadAllErrPersists(fs, data0, jsons, k + 1);
        return next;
      }
      reading := next.value;
    }
    assert jsons[..|jsons|] == jsons;
    return Ok(reading);
  }

  /** The sidecar loop raises exactly when it starts with `data` unbound and its first
      sidecar does not decode; it flags a decode error exactly when some sidecar does
      not decode. */
  lemma {:induction false} ReadAllOutcome(fs: Fs, data0: Option<map<string, string>>, jsons: seq<string>)
    ensures ReadAll(fs, data0, jsons).Err? <==>
      data0.None? && |jsons| > 0 && ReadSidecar(fs, jsons[0]).Undecodable?
    ensures ReadAll(fs, data0, jsons).Err? ==> ReadAll(fs, data0, jsons).error == UnboundVariable("data")
    ensures ReadAll(fs, data0, jsons).Ok? ==>
      (ReadAll(fs, data0, jsons).value.errorFlag <==> exists k :: 0 <= k < |jsons| && ReadSidecar(fs, jsons[k]).Undecodable?)
    ensures ReadAll(fs, data0, jsons).Ok? && |jsons| > 0 ==> ReadAll(fs, data0, jsons).value.data.Some?
    decreases |jsons|
  {
    if jsons != [] {
      var n := |jsons| - 1;
      ReadAllOutcome(fs, data0, jsons[..n]);
      assert forall k :: 0 <= k < n ==> jsons[..n][k] == jsons[k];
      if n > 0 {
        assert jsons[..n][0] == jsons[0];
      }
    }
  }

  /** Values read from sidecars that all decode: each file's own, in order. */
  function PeValues(fs: Fs, jsons: seq<string>): seq<string>
    decreases |jsons|
  {
    if jsons == [] then []
    else
      var n := |jsons| - 1;
      PeValues(fs, jsons[..n]) + (if ReadSidecar(fs, jsons[n]).Decoded? then PeOf(ReadSidecar(fs, jsons[n]).fields) else [])
  }

  function ReadoutValues(fs: Fs, jsons: seq<string>): seq<string>
    decreases |jsons|
  {
    if jsons == [] then []
    else
      var n := |jsons| - 1;
      ReadoutValues(fs, jsons[..n]) + (if ReadSidecar(fs, jsons[n]).Decoded? then ReadoutOf(ReadSidecar(fs, jsons[n]).fields) else [])
  }

  /** When every sidecar decodes, the loop never raises, and what it collects is each
      file's own values whatever `data` held before. */
  lemma {:induction false} ReadAllDecoded(fs: Fs, data0: Option<map<string, string>>, jsons: seq<string>)
    requires forall k :: 0 <= k < |jsons| ==> ReadSidecar(fs, jsons[k]).Decoded?
    ensures ReadAll(fs, data0, jsons).Ok?
    ensures ReadAll(fs, data0, jsons).value.pe == PeValues(fs, jsons)
    ensures ReadAll(fs, data0, jsons).value.readout == ReadoutValues(fs, jsons)
    ensures !ReadAll(fs, data0, jsons).value.errorFlag
    ensures |jsons| > 0 ==> ReadAll(fs, data0, jsons).value.data == Some(ReadSidecar(fs, jsons[|jsons| - 1]).fields)
    decreases |jsons|
  {
    if jsons != [] {
      var n := |jsons| - 1;
      assert forall k :: 0 <= k < n ==> jsons[..n][k] == jsons[k];
      ReadAllDecoded(fs, data0, jsons[..n]);
    }
  }

  /** `os.path.join(outdir, name, "/".join(sub_ses.split("/")[-2:]))` */
  function SessionOutdir(env: Env, subSes: string): string {
    PathJoin3(env.outdir, env.name, Join("/", LastN(Split(subSes, "/"), 2)))
  }

  /** One pass of the loop body: the `data` it leaves bound, and the row it appends
      unless it `continue`s. */
  datatype Visit = Visit(data: Option<map<string, string>>, row: Option<DwiRow>)

  /** The loop body for one session: skipped unless each of the four globs finds
      exactly two files, every sidecar decodes, and two phase-encoding and two readout
      values are read. */
  function SessionStep(env: Env, data: Option<map<string, string>>, subSes: string): Result<Visit> {
    var dwi := Glob(env.fs, DwiPattern(subSes, ".nii.gz"));
    var bvec := Glob(env.fs, DwiPattern(subSes, ".bvec"));
    var bval := Glob(env.fs, DwiPattern(subSes, ".bval"));
    var json := Glob(env.fs, DwiPattern(subSes, ".json"));
    if |dwi| != 2 || |bvec| != 2 || |bval| != 2 || |json| != 2 then Ok(Visit(data, None))
    else
      match ReadAll(env.fs, data, SortTwo(json))
      case Err(e) => Err(e)
      case Ok(rd) => Ok(Visit(rd.data, SessionRow(dwi, bvec, bval, rd.pe, rd.readout, rd.errorFlag, SessionOutdir(env, subSes))))
  }

  /** The row of a session whose four globs found two files each, given what its
      sidecar loop read: none when a sidecar did not decode or a count is not two. */
  function SessionRow(dwi: seq<string>, bvec: seq<string>, bval: seq<string>, pe: seq<string>, readout: seq<string>,
                      errorFlag: bool, outdir: string): Option<DwiRow>
    requires |dwi| == 2 && |bvec| == 2 && |bval| == 2
  {
    if errorFlag || |pe| != 2 || |readout| != 2 then None
    else Some(DwiRow(Join(",", SortTwo(dwi)), Join(",", SortTwo(bvec)), Join(",", SortTwo(bval)),
                     Join(",", pe), Join(",", readout), outdir))
  }

  /** The body of the `for sub_ses in list_sub_ses` loop. */
  method VisitSession(env: Env, data: Option<map<string, string>>, subSes: string) returns (r: Result<Visit>)
    ensures r == SessionStep(env, data, subSes)
  {
    var dwi := Glob(env.fs, DwiPattern(subSes, ".nii.gz"));
    if |dwi| != 2 {
      return Ok(Visit(data, None));
    }
    var dwiFiles := Join(",", SortTwo(dwi));
    var bvec := Glob(env.fs, DwiPattern(subSes, ".bvec"));
    if |bvec| != 2 {
      return Ok(Visit(data, None));
    }
    var bvecFiles := Join(",", SortTwo(bvec));
    var bval := Glob(env.fs, DwiPattern(subSes, ".bval"));
    if |bval| != 2 {
      return Ok(Visit(data, None));
    }
    var bvalFiles := Join(",", SortTwo(bval));
    var json := Glob(env.fs, DwiPattern(subSes, ".json"));
    if |json| != 2 {
      return Ok(Visit(data, None));
    }
    var reading := ReadSidecars(env.fs, data, SortTwo(json));
    if reading.Err? {
      return Err(reading.error);
    }
    var rd := reading.value;
    if rd.errorFlag || |rd.pe| != 2 || |rd.readout| != 2 {
      return Ok(Visit(rd.data, None));
    }
    var onlySubSes := Join("/", LastN(Split(subSes, "/"), 2));
    var sessionOutdir := PathJoin3(env.outdir, env.name, onlySubSes);
    return Ok(Visit(rd.data, Some(DwiRow(dwiFiles, bvecFiles, bvalFiles,
                                         Join(",", rd.pe), Join(",", rd.readout), sessionOutdir))));
  }

  // ---------------------------------------------------------------------------
  // The scan over sessions

  /** The loop's state after some sessions: `data` and the rows appended so far. */
  datatype Progress = Progress(data: Option<map<string, string>>, rows: seq<DwiRow>)

  /** The `for sub_ses in list_sub_ses` loop, `data` carried from session to session. */
  function Sessions(env: Env, items: seq<string>): (r: Result<Progress>)
    ensures r.Ok? ==> |r.value.rows| <= |items|
    decreases |items|
  {
    if items == [] then Ok(Progress(None, []))
    else
      var n := |items| - 1;
      match Sessions(env, items[..n])
      case Err(e) => Err(e)
      case Ok(p) =>
        match SessionStep(env, p.data, items[n])
        case Err(e) => Err(e)
        case Ok(v) => Ok(Progress(v.data, p.rows + (if v.row.Some? then [v.row.value] else [])))
  }

  lemma {:induction false} SessionsErrPersists(env: Env, items: seq<string>, k: nat)
    requires k <= |items| && Sessions(env, items[..k]).Err?
    ensures Sessions(env, items) == Sessions(env, items[..k])
    decreases |items|
  {
    if k < |items| {
      var n := |items| - 1;
      assert items[..n][..k] == items[..k];
      SessionsErrPersists(env, items[..n], k);
    } else {
      assert items[..k] == items;
    }
  }

  lemma SessionsSnoc(env: Env, items: seq<string>, i: nat, p: Progress, v: Visit)
    requires i < |items| && Sessions(env, items[..i]) == Ok(p) && SessionStep(env, p.data, items[i]) == Ok(v)
    ensures Sessions(env, items[..i + 1]) == Ok(Progress(v.data, p.rows + (if v.row.Some? then [v.row.value] else [])))
  {
    var xs := items[..i + 1];
    assert xs != [] && |xs| - 1 == i;
    assert xs[..i] == items[..i] && xs[i] == items[i];
  }

  lemma SessionsFail(env: Env, items: seq<string>, i: nat, p: Progress)
    requires i < |items| && Sessions(env, items[..i]) == Ok(p) && SessionStep(env, p.data, items[i]).Err?
    ensures Sessions(env, items) == Err(SessionStep(env, p.data, items[i]).error)
  {
    assert items[..i + 1][..i] == items[..i];
    SessionsErrPersists(env, items, i + 1);
  }

  /** The rows the manifest holds before the preview: every accepted session, cut to
      the first one in test mode. */
  function Rows(fs: Fs, datadir: string, outdir: string, name: string, test: bool): Result<seq<DwiRow>> {
    match SubSes(fs, datadir)
    case Err(e) => Err(e)
    case Ok(items) =>
      match Sessions(Env(fs, outdir, name), items)
      case Err(e) => Err(e)
      case Ok(p) => Ok(TestCut(p.rows, test))
  }

  /** The six parallel lists the loop appends to. */
  datatype Lists = Lists(dwi: seq<string>, bvec: seq<string>, bval: seq<string>, pe: seq<string>,
                         readout: seq<string>, outdir: seq<string>)

  /** The lists and the preview printed from them. */
  datatype Jobs = Jobs(lists: Lists, preview: Preview)

  /** The lists in the order the preview walks them. */
  function Columns(l: Lists): seq<seq<string>> {
    [l.dwi, l.bvec, l.bval, l.pe, l.readout, l.outdir]
  }

  /** Each list holds one field of each row, in row order. */
  ghost predicate Tabulates(l: Lists, rows: seq<DwiRow>) {
    && |l.dwi| == |rows| && |l.bvec| == |rows| && |l.bval| == |rows|
    && |l.pe| == |rows| && |l.readout| == |rows| && |l.outdir| == |rows|
    && forall k :: 0 <= k < |rows| ==>
      && l.dwi[k] == rows[k].dwi && l.bvec[k] == rows[k].bvec && l.bval[k] == rows[k].bval
      && l.pe[k] == rows[k].pe && l.readout[k] == rows[k].readout && l.outdir[k] == rows[k].outdir
  }

  lemma TabulatesAppend(l: Lists, rows: seq<DwiRow>, row: DwiRow)
    requires Tabulates(l, rows)
    ensures Tabulates(Lists(l.dwi + [row.dwi], l.bvec + [row.bvec], l.bval + [row.bval], l.pe + [row.pe],
                            l.readout + [row.readout], l.outdir + [row.outdir]), rows + [row])
  {
  }

  lemma TabulatesTake(l: Lists, rows: seq<DwiRow>)
    requires Tabulates(l, rows)
    ensures Tabulates(Lists(Take(l.dwi, 1), Take(l.bvec, 1), Take(l.bval, 1), Take(l.pe, 1),
                            Take(l.readout, 1), Take(l.outdir, 1)), Take(rows, 1))
  {
  }

  /** A row as the preview prints it, both roots replaced away. */
  function RowPreview(row: DwiRow, datadir: string, outdir: string): seq<string> {
    [StripRoots(row.dwi, datadir, outdir), StripRoots(row.bvec, datadir, outdir),
     StripRoots(row.bval, datadir, outdir), StripRoots(row.pe, datadir, outdir),
     StripRoots(row.readout, datadir, outdir), StripRoots(row.outdir, datadir, outdir)]
  }

  /** The preview of a non-empty manifest: its first and its last row. */
  function RowsPreview(rows: seq<DwiRow>, datadir: string, outdir: string): Preview
    requires rows != []
  {
    Preview(RowPreview(rows[0], datadir, outdir), RowPreview(rows[|rows| - 1], datadir, outdir))
  }

  lemma PreviewOfTabulated(l: Lists, rows: seq<DwiRow>, a: string, b: string)
    requires Tabulates(l, rows)
    ensures PreviewOf(Columns(l), a, b).Ok? <==> rows != []
    ensures rows != [] ==> PreviewOf(Columns(l), a, b).value == RowsPreview(rows, a, b)
  {
    if rows == [] {
      assert Columns(l)[0] == [];
    } else {
      PreviewOfSix(l.dwi, l.bvec, l.bval, l.pe, l.readout, l.outdir, a, b);
    }
  }

  /** The column-length check before dispatch, which ends the run with `return 1`. */
  function CheckLengths(j: Jobs): (r: Result<Jobs>)
    ensures var l := j.lists;
      r.Ok? <==> |l.dwi| == |l.outdir| && |l.bvec| == |l.outdir| && |l.bval| == |l.outdir|
                 && |l.readout| == |l.outdir| && |l.pe| == |l.outdir|
    ensures r.Ok? ==> r.value == j
    ensures r.Err? ==> r.error == ColumnLengthMismatch
  {
    var l := j.lists;
    if |l.outdir| != |l.dwi| || |l.outdir| != |l.bvec| || |l.outdir| != |l.bval|
       || |l.outdir| != |l.readout| || |l.outdir| != |l.pe|
    then Err(ColumnLengthMismatch)
    else Ok(j)
  }

  /** The scan loop of `run`: visits every session in order, carrying `data` along. */
  method CollectSessions(env: Env, items: seq<string>) returns (r: Result<Lists>, ghost rows: seq<DwiRow>)
    ensures Sessions(env, items).Err? ==> r == Err(Sessions(env, items).error)
    ensures Sessions(env, items).Ok? ==> r.Ok? && rows == Sessions(env, items).value.rows && Tabulates(r.value, rows)
  {
    var lists := Lists([], [], [], [], [], []);
    var data: Option<map<string, string>> := None;
    rows := [];
    for i := 0 to |items|
      invariant Sessions(env, items[..i]) == Ok(Progress(data, rows))
      invariant Tabulates(lists, rows)
    {
      var visit := VisitSession(env, data, items[i]);
      if visit.Err? {
        SessionsFail(env, items, i, Progress(data, rows));
        return Err(visit.error), rows;
      }
      SessionsSnoc(env, items, i, Progress(data, rows), visit.value);
      data := visit.value.data;
      if visit.value.row.Some? {
        var row := visit.value.row.value;
        TabulatesAppend(lists, rows, row);
        lists := Lists(lists.dwi + [row.dwi], lists.bvec + [row.bvec], lists.bval + [row.bval],
                       lists.pe + [row.pe], lists.readout + [row.readout], lists.outdir + [row.outdir]);
        rows := rows + [row];
      } else {
        assert rows + [] == rows;
      }
    }
    assert items[..|items|] == items;
    return Ok(lists), rows;
  }

  /** `run`, up to the dispatch: the manifest when there is at least one row. With no
      row the preview's `item[0]` raises; the length check never fails. */
  method Run(fs: Fs, datadir: string, outdir: string, name: string, test: bool) returns (r: Result<Jobs>)
    ensures var spec := Rows(fs, datadir, outdir, name, test);
      && (spec.Err? ==> r == Err(spec.error))
      && (spec == Ok([]) ==> r == Err(EmptyColumn))
      && (r.Ok? <==> spec.Ok? && spec.value != [])
      && (r.Ok? ==>
        && Tabulates(r.value.lists, spec.value)
        && r.value.preview == RowsPreview(spec.value, datadir, outdir))
  {
    ghost var spec := Rows(fs, datadir, outdir, name, test);
    var listed := GetSubSes(fs, datadir);
    if listed.Err? {
      assert spec == Err(listed.error);
      return Err(listed.error);
    }
    var collected;
    ghost var rows;
    collected, rows := CollectSessions(Env(fs, outdir, name), listed.value);
    if collected.Err? {
      assert spec == Err(collected.error);
      return Err(collected.error);
    }
    var lists := collected.value;
    assert spec == Ok(TestCut(rows, test));
    if test {
      TabulatesTake(lists, rows);
      lists := Lists(Take(lists.dwi, 1), Take(lists.bvec, 1), Take(lists.bval, 1),
                     Take(lists.pe, 1), Take(lists.readout, 1), Take(lists.outdir, 1));
      rows := Take(rows, 1);
    }
    assert rows == spec.value;
    PreviewOfTabulated(lists, rows, datadir, outdir);
    var preview := PreviewOf(Columns(lists), datadir, outdir);
    if preview.Err? {
      return Err(preview.error);
    }
    r := CheckLengths(Jobs(lists, preview.value));
  }

  // ---------------------------------------------------------------------------
  // Properties of a row

  /** A comma-joined sorted pair of comma-free paths splits back into that pair. */
  lemma SortedPairRoundTrip(xs: seq<string>)
    requires |xs| == 2 && forall k :: 0 <= k < |xs| ==> ',' !in xs[k]
    ensures Split(Join(",", SortTwo(xs)), ",") == SortTwo(xs)
  {
    var sorted := SortTwo(xs);
    assert sorted[0] in multiset(xs) && sorted[1] in multiset(xs);
    assert sorted == [sorted[0], sorted[1]];
    JoinTwoThenSplit(sorted[0], sorted[1], ',');
  }

  /** An accepted session had exactly two files for each of the four globs, both
      sidecars decoded and gave two phase-encoding and two readout values between them;
      its columns are the sorted file pairs and those values, comma-joined. */
  lemma DmriAccepted(env: Env, data: Option<map<string, string>>, subSes: string)
    requires SessionStep(env, data, subSes).Ok? && SessionStep(env, data, subSes).value.row.Some?
    ensures var dwi := Glob(env.fs, DwiPattern(subSes, ".nii.gz"));
      var bvec := Glob(env.fs, DwiPattern(subSes, ".bvec"));
      var bval := Glob(env.fs, DwiPattern(subSes, ".bval"));
      var json := Glob(env.fs, DwiPattern(subSes, ".json"));
      var row := SessionStep(env, data, subSes).value.row.value;
      && |dwi| == 2 && |bvec| == 2 && |bval| == 2 && |json| == 2
      && (forall k :: 0 <= k < |json| ==> ReadSidecar(env.fs, json[k]).Decoded?)
      && |PeValues(env.fs, SortTwo(json))| == 2 && |ReadoutValues(env.fs, SortTwo(json))| == 2
      && row == DwiRow(Join(",", SortTwo(dwi)), Join(",", SortTwo(bvec)), Join(",", SortTwo(bval)),
                       Join(",", PeValues(env.fs, SortTwo(json))), Join(",", ReadoutValues(env.fs, SortTwo(json))),
                       SessionOutdir(env, subSes))
  {
    var json := Glob(env.fs, DwiPattern(subSes, ".json"));
    var sorted := SortTwo(json);
    ReadAllOutcome(env.fs, data, sorted);
    assert forall k :: 0 <= k < |sorted| ==> ReadSidecar(env.fs, sorted[k]).Decoded?;
    ReadAllDecoded(env.fs, data, sorted);
    forall k | 0 <= k < |json| ensures ReadSidecar(env.fs, json[k]).Decoded? {
      assert json[k] in multiset(sorted);
    }
  }

  /** A session is skipped when one of the four globs does not find exactly two files,
      or when its sidecars all decode but do not give two phase-encoding and two readout
      values between them. */
  lemma DmriSkipRule(env: Env, data: Option<map<string, string>>, subSes: string)
    ensures var dwi := Glob(env.fs, DwiPattern(subSes, ".nii.gz"));
      var bvec := Glob(env.fs, DwiPattern(subSes, ".bvec"));
      var bval := Glob(env.fs, DwiPattern(subSes, ".bval"));
      var json := Glob(env.fs, DwiPattern(subSes, ".json"));
      var twos := |dwi| == 2 && |bvec| == 2 && |bval| == 2 && |json| == 2;
      && (!twos ==> SessionStep(env, data, subSes) == Ok(Visit(data, None)))
      && (twos && (forall k :: 0 <= k < |json| ==> ReadSidecar(env.fs, json[k]).Decoded?)
            && (|PeValues(env.fs, SortTwo(json))| != 2 || |ReadoutValues(env.fs, SortTwo(json))| != 2) ==>
            SessionStep(env, data, subSes).Ok? && SessionStep(env, data, subSes).value.row.None?)
  {
    var json := Glob(env.fs, DwiPattern(subSes, ".json"));
    if |json| == 2 && forall k :: 0 <= k < |json| ==> ReadSidecar(env.fs, json[k]).Decoded? {
      var sorted := SortTwo(json);
      forall k | 0 <= k < |sorted| ensures ReadSidecar(env.fs, sorted[k]).Decoded? {
        assert sorted[k] in multiset(json);
      }
      ReadAllDecoded(env.fs, data, sorted);
    }
  }

  /** An accepted session's DWI column is its two globbed files, sorted and comma-joined. */
  lemma AcceptedRowDwi(env: Env, data: Option<map<string, string>>, subSes: string)
    requires SessionStep(env, data, subSes).Ok? && SessionStep(env, data, subSes).value.row.Some?
    ensures var dwi := Glob(env.fs, DwiPattern(subSes, ".nii.gz"));
      |dwi| == 2 && SessionStep(env, data, subSes).value.row.value.dwi == Join(",", SortTwo(dwi))
  {
  }

  /** An accepted session's DWI column splits back, on ",", into its two globbed files
      in ascending order. */
  lemma AcceptedRowFields(env: Env, data: Option<map<string, string>>, subSes: string)
    requires SessionStep(env, data, subSes).Ok? && SessionStep(env, data, subSes).value.row.Some?
    requires var dwi := Glob(env.fs, DwiPattern(subSes, ".nii.gz"));
      forall k :: 0 <= k < |dwi| ==> ',' !in dwi[k]
    ensures var row := SessionStep(env, data, subSes).value.row.value;
      var dwi := Glob(env.fs, DwiPattern(subSes, ".nii.gz"));
      var parts := Split(row.dwi, ",");
      && |dwi| == 2 && |parts| == 2 && StrLe(parts[0], parts[1]) && multiset(parts) == multiset(dwi)
  {
    AcceptedRowDwi(env, data, subSes);
    SortedPairRoundTrip(Glob(env.fs, DwiPattern(subSes, ".nii.gz")));
  }

  /** The output directory of the session `root/sub/ses` is `outdir/name/sub/ses`,
      whatever the raw-data root. */
  lemma SessionOutdirMirrorsSession(env: Env, root: string, sub: string, ses: string)
    requires IsName(sub) && IsName(ses)
    ensures SessionOutdir(env, PathJoin3(root, sub, ses)) == PathJoin3(env.outdir, env.name, sub + "/" + ses)
  {
    LastTwoComponents(root, sub, ses);
  }

  /** When a session's two sidecars decode, whatever earlier sessions left in `data`
      makes no difference: the session is visited without raising and with the same
      row. */
  lemma SessionIgnoresStaleData(env: Env, d1: Option<map<string, string>>, d2: Option<map<string, string>>, subSes: string)
    requires var json := Glob(env.fs, DwiPattern(subSes, ".json"));
      forall k :: 0 <= k < |json| ==> ReadSidecar(env.fs, json[k]).Decoded?
    ensures SessionStep(env, d1, subSes).Ok? && SessionStep(env, d2, subSes).Ok?
    ensures SessionStep(env, d1, subSes).value.row == SessionStep(env, d2, subSes).value.row
  {
    var json := Glob(env.fs, DwiPattern(subSes, ".json"));
    if |json| == 2 {
      var sorted := SortTwo(json);
      assert sorted[0] in multiset(json) && sorted[1] in multiset(json);
      ReadAllDecoded(env.fs, d1, sorted);
      ReadAllDecoded(env.fs, d2, sorted);
      var rd1, rd2 := ReadAll(env.fs, d1, sorted).value, ReadAll(env.fs, d2, sorted).value;
      assert rd1.pe == rd2.pe && rd1.readout == rd2.readout && rd1.errorFlag == rd2.errorFlag;
    }
  }

  /** A session one of whose two sidecars does not decode is never appended: either it
      is skipped, or, when nothing has decoded before it in the run, the run raises. */
  lemma UndecodableSidecarSkips(env: Env, data: Option<map<string, string>>, subSes: string, k: nat)
    requires var json := Glob(env.fs, DwiPattern(subSes, ".json"));
      k < |json| && ReadSidecar(env.fs, json[k]).Undecodable?
    ensures SessionStep(env, data, subSes).Ok? ==> SessionStep(env, data, subSes).value.row.None?
  {
    var json := Glob(env.fs, DwiPattern(subSes, ".json"));
    if |json| == 2 {
      var sorted := SortTwo(json);
      assert json[k] in multiset(sorted);
      var j :| 0 <= j < 2 && sorted[j] == json[k];
      ReadAllOutcome(env.fs, data, sorted);
    }
  }

  /** A sidecar that carries both the total and the estimated readout time contributes
      two readout values: with a partner sidecar carrying neither, the session passes
      the readout-count check with both values of the first file. */
  lemma BothReadoutKeysCountTwice(fs: Fs, data0: Option<map<string, string>>, a: string, b: string)
    requires ReadSidecar(fs, a).Decoded? && ReadSidecar(fs, b).Decoded?
    requires var m := ReadSidecar(fs, a).fields; "TotalReadoutTime" in m && "EstimatedTotalReadoutTime" in m
    requires var m := ReadSidecar(fs, b).fields; "TotalReadoutTime" !in m && "EstimatedTotalReadoutTime" !in m
    ensures ReadAll(fs, data0, [a, b]).Ok?
    ensures var m := ReadSidecar(fs, a).fields;
      ReadAll(fs, data0, [a, b]).value.readout == [m["TotalReadoutTime"], m["EstimatedTotalReadoutTime"]]
  {
    ReadAllDecoded(fs, data0, [a, b]);
    assert [a, b][..1] == [a];
    assert [a][..0] == [];
    assert ReadoutValues(fs, [a]) == ReadoutOf(ReadSidecar(fs, a).fields);
    assert ReadoutValues(fs, [a, b]) == ReadoutValues(fs, [a]) + ReadoutOf(ReadSidecar(fs, b).fields);
  }
}
