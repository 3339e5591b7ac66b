# rlink_mri manifest builders and quality-control tables, in Dafny

This project models the part of the rlink_mri scripts that decides *what* gets
processed and *what* gets written, leaving out the image processing itself.

**Manifest builders.** Each `run` of a pipeline driver does the following:

- walks a BIDS tree (subjects, sessions, sidecar files);
- picks the input files of every session or subject;
- skips what is already done or incomplete;
- builds parallel lists, one entry per job;
- cuts them to one job in test mode;
- prints a first/last preview line;
- hands the lists to the `hopla` dispatcher.

The drivers modelled are dmriprep, li2mni, deface QC, cat12vbm, TBSS
preprocessing, li2mni normalisation and FreeSurfer longitudinal.

**Quality-control scripts.**

- `qc_anat.py` combines the CAT12, quasi-raw and FreeSurfer QC tables into one
  pass/fail verdict per image. It can add the acquisition site, derived from
  the psc1 code, and then writes one sheet per site.
- `li2mni/qc2.py` writes the visual-QC table of the registered lithium images,
  with one fsleyes command per image.
- `li2mni/qc1.py` reads back the list of images, selects the review pages and
  rewrites the page titles into the QC table.

The model is organised as follows:

- The filesystem is a frozen snapshot value (`Snapshot.Fs`). It answers
  `os.listdir`, `isdir`, `isfile`, `glob` and `json.load`.
- A Python exception is an `Err` of `Base.Error`, and it ends the run.
- Every loop of the source is a `method` with a `for` loop over the same
  sequence. The method is proved equal to a specification function of its
  inputs.
- Driver loops that `continue` or raise are all instances of one scan,
  `Manifest.Scan`. Each iteration either accepts a row, skips, or fails.
  The lemmas of `Manifest` state once and for all that a scan keeps input
  order and stops at the first failure.
- Python's string operations (`split`, `replace`, `rstrip`, `os.path.join`,
  `basename`, `dirname`, `int`, `str`) are in `PyStr`. The two sorts the
  scripts use are in `Sorting`.
- `Selection.GetBestAnat` is `get_best_anat`. It is copied into five of the
  drivers and modelled once.

## Model

| member | source | states |
|---|---|---|
| `Snapshot.ListDir` | deface/deface_lianat_qc.py:58 | `os.listdir` succeeds exactly on a directory, with its entries; it raises NotADirectoryError on an existing regular file and FileNotFoundError on a path that does not exist |
| `Selection.Marked` | dmriprep/runtime.py:26 | the "yGC" filter keeps exactly the candidates containing the marker, never more than there were |
| `Selection.GetBestAnat` | dmriprep/runtime.py:20-30 | no candidate is a ValueError; a single candidate is returned as is; among several, success exactly when one carries "yGC", which is then returned; otherwise the assertion error with the number of marked files |
| `Selection.MarkedOnlyAt` | dmriprep/runtime.py:26 | when only candidate i carries the marker, the filter yields exactly `[files[i]]` |
| `Selection.MarkedNone` | dmriprep/runtime.py:26 | with no marked candidate the filter is empty |
| `Selection.MarkedAtLeastTwo` | dmriprep/runtime.py:26-27 | two marked candidates make the filter hold at least two files |
| `Selection.SelectsUniqueMarked` | dmriprep/runtime.py:25-28 | among several candidates, the only marked one is selected |
| `Selection.RejectsUnmarked` | dmriprep/runtime.py:25-27 | several candidates none of which is marked fail with 0 matches |
| `Selection.RejectsTwoMarked` | dmriprep/runtime.py:25-27 | two marked candidates make the selection fail |
| `Manifest.Scan` | tbss/runtime.py:57-73 | a driver loop appends at most one row per input |
| `Manifest.ScanFailsAtFirstFailure` | tbss/runtime.py:57-73 | a driver loop raises exactly when one of its inputs raises, and then with the error of such an input |
| `Manifest.ScanRowsAreAccepted` | tbss/runtime.py:57-73 | the rows of a loop that completes are exactly the rows its inputs were accepted with |
| `Manifest.ScanErrPersists` | tbss/runtime.py:57-73 | once an input raises, later inputs change nothing |
| `Manifest.EffectsErrPersists` | li2mni/runtime2.py:61-66 | side effects (deletions) stop with the first raising iteration |
| `Manifest.EffectsOfCompleteScan` | li2mni/runtime2.py:61-66 | a loop that completes performs exactly the side effects of all its inputs |
| `Manifest.ScanNestedIsScan` | deface/deface_lianat_qc.py:58-59 | the nested subject/session loop is one scan over the (subject, session) pairs in order |
| `Manifest.ScanIndices` | tbss/runtime.py:57-73 | row k of a scan comes from input idx[k], with idx strictly increasing: input order is kept |
| `Manifest.ScanAcceptingAll` | li2mni/qc2.py:56-60 | when every input is accepted there is one row per input, in order |
| `Manifest.TestCutKeepsFirst` | li2mni/runtime.py:91-95 | test mode keeps at most one row, the first one, and is idempotent |
| `Manifest.StripRootPrefix` | li2mni/runtime.py:99-100 | a path under the data root is previewed as its remainder |
| `Manifest.PreviewOf` | li2mni/runtime.py:99-105 | the preview raises IndexError exactly when some column is empty, and otherwise has one entry per column on each line |
| `Manifest.PreviewOfOneRow` | li2mni/runtime.py:99-105 | with one row, the first and last preview lines are the same |
| `Manifest.TestCut` | li2mni/runtime.py:91-95 | in test mode each list is cut to its first element (`[:1]`), otherwise kept whole |
| `Manifest.StripRoots` | li2mni/runtime.py:99-104 | a previewed path is `item.replace(datadir, "").replace(outdir, "")`: every occurrence of the data root, then of the output root, removed |
| `Manifest.Effects` | li2mni/runtime2.py:61-66 | the side effects a loop performs: those of each iteration in order, up to and including the first one that raises |
| `PyStr.FromEnd` | li2mni/qc2.py:36 | `xs[-k]` exists exactly when there are at least k elements, and is the k-th from the end |
| `PyStr.RStrip` | li2mni/qc1.py:114 | `rstrip` returns a prefix that does not end in a stripped character, everything removed being in the set |
| `PyStr.LastTwoComponents` | dmriprep/runtime.py:153 | the last two "/"-fields of `join(d, sub, ses)` joined back are `sub/ses` |
| `PyStr.IntToStrRoundTrip` | qc_anat.py:98-102 | `int(str(n)) == n` |
| `PyStr.NatToStrDropThree` | qc_anat.py:24 | dropping the last three characters of `str(n)`, for n >= 1000, is `str(n // 1000)` |
| `PyStr.Replace` | deface/deface_lianat_qc.py:82 | `str.replace`: every non-overlapping occurrence of the pattern, scanned from the left, becomes the replacement |
| `PyStr.Split` | li2mni/qc2.py:36 | `str.split(sep)`: the fields between the occurrences of a non-empty separator, always at least one |
| `PyStr.Join` | dmriprep/runtime.py:85 | `sep.join(parts)`: the parts with the separator between consecutive ones |
| `PyStr.PathJoin` | deface/deface_lianat_qc.py:60 | `os.path.join(a, b)`: an absolute `b` replaces `a`; otherwise a "/" is inserted unless `a` is empty or already ends with one |
| `PyStr.Basename` | deface/deface_lianat_qc.py:74 | `os.path.basename`: what follows the last "/" |
| `PyStr.Dirname` | tbss/runtime.py:63 | `os.path.dirname`: what precedes the last "/", without trailing slashes unless it is made of slashes only |
| `PyStr.IntToStr` | li2mni/runtime2.py:71 | `str()` of an integer: its decimal digits, with "-" in front of a negative one |
| `PyStr.ParseInt` | qc_anat.py:18 | `int()` of a text: an optionally signed, non-empty run of ASCII digits gives that integer; anything else is a ValueError |
| `Sorting.SortBySorted` | li2mni/qc2.py:63 | sorting on a string column yields ascending keys and a permutation of the rows |
| `Sorting.SortIntsAscending` | qc_anat.py:101 | `sorted` on integers is ascending and a permutation |
| `Sorting.FirstOccurrences` | qc_anat.py:98 | `unique()` holds exactly the values of the column, each once |
| `Dmriprep.SubDirs` | dmriprep/runtime.py:38-39 | an entry is kept iff it starts with "sub-" and is a directory |
| `Dmriprep.ListSessions` | dmriprep/runtime.py:42-45 | the inner loop appends the session directories of one subject |
| `Dmriprep.GetSubSes` | dmriprep/runtime.py:33-46 | `get_sub_ses` equals its specification and raises exactly when the root is not a directory |
| `Dmriprep.SesDirsMembership` | dmriprep/runtime.py:42-45 | a path is appended for a subject iff it is `join(path, sub, ses)` of a "ses-" entry that is a directory |
| `Dmriprep.SubSesDirsMembership` | dmriprep/runtime.py:41-45 | the nested loop lists exactly the session directories of the given subjects |
| `Dmriprep.SubSesListsSessionDirs` | dmriprep/runtime.py:33-46 | `get_sub_ses` lists exactly the `path/sub-*/ses-*` directories |
| `Dmriprep.ListSubSes` | dmriprep/runtime.py:40-45 | the nested loop of `get_sub_ses` equals its specification: for each subject directory in order, the joined paths of its "ses-" entries that are directories |
| `Dmriprep.SortTwo` | dmriprep/runtime.py:80 | sorting two globbed files gives them in ascending order, as a permutation |
| `Dmriprep.ReadAllErrPersists` | dmriprep/runtime.py:120-138 | once the sidecar loop raises, later sidecars change nothing |
| `Dmriprep.ReadOne` | dmriprep/runtime.py:121-138 | the body of the sidecar loop for one file |
| `Dmriprep.ReadSidecars` | dmriprep/runtime.py:117-138 | the sidecar loop equals its specification |
| `Dmriprep.ReadAllOutcome` | dmriprep/runtime.py:120-140 | the sidecar loop raises (unbound `data`) exactly when the first file fails to decode and no earlier session left `data` bound; the error flag is set iff some file fails to decode |
| `Dmriprep.ReadAllDecoded` | dmriprep/runtime.py:120-138 | when every sidecar decodes, the loop collects each file's phase encoding and readout values in order, and leaves `data` as the last file's |
| `Dmriprep.VisitSession` | dmriprep/runtime.py:76-166 | the loop body for one session equals its step function |
| `Dmriprep.SessionStep` | dmriprep/runtime.py:76-166 | one session: a DWI, b-vector, b-value or sidecar glob without exactly two files skips it and leaves `data` as it was; otherwise the sorted sidecars are read, a raising read stops the run, and the row is built from what was read |
| `Dmriprep.SessionRow` | dmriprep/runtime.py:139-166 | no row when a sidecar failed to decode or fewer or more than two phase encodings or readouts were read; otherwise the comma-joined sorted DWI, b-vector and b-value pairs, the comma-joined phase encodings and readouts, and the session output directory |
| `Dmriprep.ReadAll` | dmriprep/runtime.py:117-138 | the sidecar loop: a sidecar that decodes rebinds `data`; one that does not sets the error flag and leaves `data` as it was, raising when it was never bound; each pass appends the phase encoding, then the total and the estimated readout time, of `data` when present |
| `Dmriprep.Sessions` | dmriprep/runtime.py:75-166 | the session loop: `data` carries over from one session to the next, each accepted session appends its row, and the first raising session ends the loop |
| `Dmriprep.Rows` | dmriprep/runtime.py:72-173 | `get_sub_ses`, then the session loop, then the test cut; or the error of the listing or of the loop |
| `Dmriprep.DmriAccepted` | dmriprep/runtime.py:76-166 | an appended session had exactly two files in each of its four globs and sidecars that all decode; these give two phase encodings and two readouts; its row is the comma-joined sorted pairs, the values read from the sorted sidecars joined by ",", and its output directory |
| `Dmriprep.DmriSkipRule` | dmriprep/runtime.py:76-149 | a DWI, b-vector, b-value or sidecar glob without exactly two files skips the session and keeps `data`; with two of each and decoded sidecars, a phase-encoding or readout count other than two skips it too |
| `Dmriprep.SessionsErrPersists` | dmriprep/runtime.py:75-166 | once a session raises, later sessions change nothing |
| `Dmriprep.SessionsFail` | dmriprep/runtime.py:75-166 | the first raising session ends the loop with its error |
| `Dmriprep.CheckLengths` | dmriprep/runtime.py:188-200 | the length check passes iff all six lists have the output list's length |
| `Dmriprep.CollectSessions` | dmriprep/runtime.py:75-166 | the loop fills the six lists with the fields of the accepted sessions' rows, index by index, or raises the loop's error |
| `Dmriprep.Run` | dmriprep/runtime.py:72-200 | the run yields the lists of the accepted sessions (cut in test mode) with their first/last preview; it raises the listing's or loop's error, and IndexError in the preview when nothing is accepted |
| `Dmriprep.PreviewOfTabulated` | dmriprep/runtime.py:179-187 | the preview of the lists is that of the first and last row, and fails iff there is no row |
| `Dmriprep.SortedPairRoundTrip` | dmriprep/runtime.py:80-85 | the comma-joined sorted pair of comma-free paths splits back into that pair |
| `Dmriprep.AcceptedRowDwi` | dmriprep/runtime.py:78-85 | an accepted session had exactly two DWI files, and its column is their sorted comma-join |
| `Dmriprep.AcceptedRowFields` | dmriprep/runtime.py:78-85 | the DWI column splits on "," into two ascending fields that are a permutation of the globbed files |
| `Dmriprep.SessionOutdirMirrorsSession` | dmriprep/runtime.py:153-155 | the output directory of `root/sub/ses` is `outdir/name/sub/ses` |
| `Dmriprep.SessionIgnoresStaleData` | dmriprep/runtime.py:117-150 | when a session's sidecars decode, the `data` left by earlier sessions does not affect its row |
| `Dmriprep.UndecodableSidecarSkips` | dmriprep/runtime.py:120-140 | a session with an undecodable sidecar is never appended |
| `Dmriprep.BothReadoutKeysCountTwice` | dmriprep/runtime.py:135-138 | a sidecar carrying both readout keys contributes both values, so next to a sidecar carrying neither the readout list still has two entries, both from the first file |
| `Li2mni.Subjects` | li2mni/runtime.py:59 | one subject per image, `split("/")[-4]`; raises iff some path is too shallow |
| `Li2mni.CountedTwice` | li2mni/runtime.py:60-62 | keeps exactly the keys counted more than once |
| `Li2mni.Duplicates` | li2mni/runtime.py:60-62 | the duplicates are exactly the subjects occurring more than once |
| `Li2mni.RepeatCountsTwice` | li2mni/runtime.py:60-62 | a subject at two positions is counted more than once |
| `Li2mni.NoDuplicatesIffDistinct` | li2mni/runtime.py:60-66 | no duplicate is reported iff the subjects are pairwise distinct |
| `Li2mni.PreviewOfTabulated` | li2mni/runtime.py:99-105 | the preview of the lists is that of the first and last row |
| `Li2mni.VisitImage` | li2mni/runtime.py:68-88 | the loop body for one image equals its step function |
| `Li2mni.LiStep` | li2mni/runtime.py:68-88 | one image: a too shallow path raises; an existing `shiftedli2mni.nii.gz` status file or a missing `ses-M03` directory skips it; otherwise the best lithium-session image, then the best reference-session image, are chosen (a failed choice raises) and the row is the image, both choices and `<outdir>/<name>/<subject>/ses-M03Li` |
| `Li2mni.Rows` | li2mni/runtime.py:56-95 | the subjects of the globbed images, a duplicate subject raising; then the image loop; no row is "No data to process!"; otherwise the test cut |
| `Li2mni.CollectRows` | li2mni/runtime.py:67-88 | the four lists hold the fields of the accepted images' rows, in glob order, or the loop's error |
| `Li2mni.Run` | li2mni/runtime.py:56-105 | the run yields a non-empty manifest (cut in test mode) with its preview, or the shallow-path, duplicate-subject, selection or "no data" error |
| `Li2mni.ScanRowsDistinctSubjects` | li2mni/runtime.py:59-88 | images of pairwise distinct subjects give rows of distinct subjects |
| `Li2mni.AcceptedImage` | li2mni/runtime.py:68-85 | an accepted image names its subject and is its row's lithium file |
| `Li2mni.OneRowPerSubject` | li2mni/runtime.py:56-95 | a run that succeeds has at most one row per subject |
| `Li2mni.AcceptedRowSources` | li2mni/runtime.py:68-88 | an accepted row's anatomical images are chosen among its subject's lithium-session and reference-session candidates, and its output directory is the subject's |
| `Li2mni.DoneImageSkipped` | li2mni/runtime.py:73-75 | an image whose status file exists is skipped |
| `Li2mni.NoReferenceSessionSkipped` | li2mni/runtime.py:79-82 | an image with no status file whose subject has no `ses-M03` directory is skipped, whatever its anatomical images |
| `Li2mni.LiStepRule` | li2mni/runtime.py:68-88 | an image is skipped iff its subject parses and its status file exists or its `ses-M03` directory is missing; it raises iff its path is too shallow or, past both checks, a `get_best_anat` call raises, and then with the first error raised |
| `Deface.PreviewOfTabulated` | deface/deface_lianat_qc.py:93-99 | the preview of the lists is that of the first and last row |
| `Deface.VisitSession` | deface/deface_lianat_qc.py:60-83 | the inner loop body equals its step function |
| `Deface.DefaceStep` | deface/deface_lianat_qc.py:60-83 | one (subject, session): skipped when the session directory, its `anat` directory or the session output directory is missing; otherwise the best `*T1w.nii.gz` image is chosen (a failed choice raises), and the visit is skipped unless its defaced copy exists in the output directory, else its row is the image, the copy and the mask root |
| `Deface.Rows` | deface/deface_lianat_qc.py:57-89 | the subject listing, then the nested loop over both sessions; no row is "No data to process!"; otherwise the test cut |
| `Deface.MaskRoot` | deface/deface_lianat_qc.py:81-82 | the mask root is the image name with `_T1w.nii.gz` replaced by `_defacemask`, in the session output directory |
| `Deface.DefaceSkipRule` | deface/deface_lianat_qc.py:60-78 | a missing session, `anat` or output directory skips the visit; a failed choice of image raises its error; a chosen image whose defaced copy is missing skips the visit |
| `Deface.DefaceAccepted` | deface/deface_lianat_qc.py:60-83 | an appended visit has all three directories; its image is the one chosen among its own candidates, its defaced copy is that image's name in the output directory and exists, and its mask root is derived from that name |
| `Deface.CollectVisit` | deface/deface_lianat_qc.py:59-83 | one inner pass appends the visit's row or raises |
| `Deface.CollectSubject` | deface/deface_lianat_qc.py:59-83 | the inner loop over both sessions extends the lists with the subject's rows |
| `Deface.CollectRows` | deface/deface_lianat_qc.py:58-83 | the nested loop fills the lists with the rows of all (subject, session) pairs, in order, or the loop's error |
| `Deface.Run` | deface/deface_lianat_qc.py:57-99 | the run yields a non-empty manifest (cut in test mode) with its preview, or the listing, selection or "no data" error |
| `Deface.DefacedCopyKeepsName` | deface/deface_lianat_qc.py:74-75 | the defaced image has the chosen image's file name and sits in the session output directory |
| `Deface.SessionsAreNames` | deface/deface_lianat_qc.py:59 | the two session labels are plain names |
| `Deface.CopyKeepsName` | deface/deface_lianat_qc.py:74-75 | a file joined by basename into an output directory keeps that name and directory |
| `Deface.MaskRootOfT1w` | deface/deface_lianat_qc.py:81-82 | the mask root of `<stem>_T1w.nii.gz` is `<stem>_defacemask` in the same directory |
| `Cat12vbm.IterReplace` | cat12vbm/runtime.py:32-38 | a non-list is returned unchanged; a list keeps its length, each string element replaced and every other element kept |
| `Cat12vbm.IterReplaceBySelf` | cat12vbm/runtime.py:32-38 | replacing a text by itself changes no value |
| `Cat12vbm.PreviewOfTabulated` | cat12vbm/runtime.py:99-105 | the preview of the lists is that of the first and last row |
| `Cat12vbm.VisitSession` | cat12vbm/runtime.py:69-76 | the inner loop body equals its step function |
| `Cat12vbm.SessionStep` | cat12vbm/runtime.py:69-76 | one session: skipped when its directory is missing; otherwise the best `*T1w.nii.gz` image of its `anat` directory is kept with the session name, or the selection error is raised |
| `Cat12vbm.PickSessions` | cat12vbm/runtime.py:66-76 | the inner loop keeps the chosen image and the name of each existing session, or raises the selection error |
| `Cat12vbm.VisitSubject` | cat12vbm/runtime.py:65-88 | the outer loop body equals its step function |
| `Cat12vbm.SubjectStep` | cat12vbm/runtime.py:65-88 | one subject: the session loop; no kept session skips the subject; otherwise the row holds the chosen images, their session names, whether both sessions were kept, and `<outdir>/<name>/<subject>` |
| `Cat12vbm.Rows` | cat12vbm/runtime.py:64-95 | the subject listing, then the subject loop; no row is "No data to process!"; otherwise the test cut |
| `Cat12vbm.CollectSubject` | cat12vbm/runtime.py:65-88 | one outer pass appends the subject's row or raises |
| `Cat12vbm.CollectRows` | cat12vbm/runtime.py:64-88 | the four lists hold the rows of the subjects with an existing session, in listing order |
| `Cat12vbm.Run` | cat12vbm/runtime.py:64-105 | the run yields a non-empty manifest (cut in test mode) with its preview, or the listing, selection or "no data" error |
| `Cat12vbm.SubjectRowSessions` | cat12vbm/runtime.py:66-88 | a subject gets a row iff one of its sessions exists; the row lists exactly those sessions in order, one of each session's own candidates each, and is longitudinal iff both exist |
| `Cat12vbm.SessionPickFacts` | cat12vbm/runtime.py:69-76 | a session is skipped iff its directory is missing, and otherwise keeps one of its own candidates under its own name |
| `Cat12vbm.TwoSessionScan` | cat12vbm/runtime.py:68 | the inner loop is one iteration for M00, then one for M03 |
| `Cat12vbm.PreviewStripsListsOnly` | cat12vbm/runtime.py:99-105 | the preview strips both roots from the image and session lists, but shows the flag and the output directory unchanged |
| `Tbss.SubSes` | tbss/runtime.py:58 | unpacking `split("/")[-4:-2]` fails iff there are fewer than four fields, and otherwise yields the fourth and third fields from the end |
| `Tbss.VisitFa` | tbss/runtime.py:57-73 | the loop body for one FA map equals its step function |
| `Tbss.FaStep` | tbss/runtime.py:57-73 | one FA map: a path with fewer than four fields raises; a map whose registration output exists is skipped; a missing MD map is the "No MD file." assertion; otherwise the row is `<sub>_<ses>.nii.gz` in the TBSS directory and in its MD subdirectory |
| `Tbss.FaStepRule` | tbss/runtime.py:57-65 | a path too shallow to unpack raises; a registered map is skipped; an unregistered map without its `dwmri_tensor_md.nii.gz` raises the missing-MD assertion |
| `Tbss.PreprocCommand` | tbss/runtime.py:90-94 | without a custom command, `singularity run --bind <dirname(datadir)> --cleanenv  <image> brainprep tbss-preproc`; with one, that command followed by ` tbss-preproc` |
| `Tbss.FinalCommand` | tbss/runtime.py:126-131 | a None target or skeleton target makes the join raise; otherwise the space-join of `python`, the preprocessing command with `tbss-preproc` replaced by `tbss`, and the `--outdir`, `--target` and `--target-skel` options |
| `Tbss.CollectRows` | tbss/runtime.py:56-73 | the two lists hold the destinations of the FA maps still to register, in glob order, or the missing-MD error |
| `Tbss.PreviewLists` | tbss/runtime.py:80-89 | the preview is printed only for a non-empty manifest, from its first and last rows |
| `Tbss.Run` | tbss/runtime.py:50-131 | unless the scan raises, the run yields the lists (cut in test mode), dispatch only with a non-empty manifest, the preview and the preprocessing command for every target, including the default None one; the final command is the join of l.126-131, which is the TypeError on a None target or skeleton target; a raising scan gives its error |
| `Tbss.SubSesAreNames` | tbss/runtime.py:58 | the unpacked subject and session hold no separator |
| `Tbss.DestinationsPaired` | tbss/runtime.py:66-73 | both copies are named `<sub>_<ses>.nii.gz`, one in the TBSS directory and one in its MD subdirectory |
| `Tbss.AcceptedFaMap` | tbss/runtime.py:57-73 | an accepted map is not yet registered, has its MD map, and gets the paired destinations |
| `Tbss.FinalCommandRunsTbss` | tbss/runtime.py:126-127 | the final command runs the `tbss` sub-command instead of `tbss-preproc` |
| `Tbss.FinalCommandLayout` | tbss/runtime.py:126-131 | the final command exists iff both targets are given, and is `python`, the preprocessing command with `tbss-preproc` replaced by `tbss`, then `--outdir`, `--target` and `--target-skel` with their values, joined by spaces |
| `Li2mniNorm.LastLineExists` | li2mni/runtime2.py:58-59 | every site of the phantom table has a last line |
| `Li2mniNorm.PhantomValues` | li2mni/runtime2.py:58-59 | the phantom dictionary has exactly the sites of the table as keys |
| `Li2mniNorm.PhantomLastWins` | li2mni/runtime2.py:58-59 | a site's value is the mean of its last line |
| `Li2mniNorm.LastLineUnique` | li2mni/runtime2.py:58-59 | a site has at most one last line in the phantom table |
| `Li2mniNorm.Matching` | li2mni/runtime2.py:68 | the selected lines are exactly those of the participant |
| `Li2mniNorm.CenterOf` | li2mni/runtime2.py:68-69 | the center is read iff exactly one line matches and its cell is an integer, which is then the result; a count other than one is `.item()`'s error |
| `Li2mniNorm.SubjectOf` | li2mni/runtime2.py:67 | `split("/")[-3]` exists iff there are three fields, and is the third from the end |
| `Li2mniNorm.PreviewOfTabulated` | li2mni/runtime2.py:84-90 | the preview of the lists is that of the first and last row |
| `Li2mniNorm.VisitImage` | li2mni/runtime2.py:61-74 | the loop body equals its step function and deletes the normalised image when it exists |
| `Li2mniNorm.NormStep` | li2mni/runtime2.py:61-74 | one image: an existing normalised image is skipped (after its deletion); otherwise a too shallow path, a center count other than one, a non-integer center, a center outside 1, 2, 4, 5, 10, 11, 15 or a center missing from the phantom table raises; else the row is the image, the phantom value of its center and its directory |
| `Li2mniNorm.Rows` | li2mni/runtime2.py:60-80 | the image loop over the glob; no row is "No data to process!"; otherwise the test cut |
| `Li2mniNorm.CollectRows` | li2mni/runtime2.py:60-74 | the lists hold the accepted images' rows, and the deletions are those of the iterations run |
| `Li2mniNorm.Run` | li2mni/runtime2.py:49-90 | the run yields a non-empty manifest (cut in test mode) with its preview, or the first error, and performs the deletions of the iterations it reaches |
| `Li2mniNorm.AcceptedRowSources` | li2mni/runtime2.py:67-74 | an accepted image gets the phantom value of its subject's single allowed center, and its own directory as output directory |
| `Li2mniNorm.DoneImageSkipped` | li2mni/runtime2.py:63-66 | an image whose normalised image exists is skipped |
| `Li2mniNorm.UnlistedCenterFails` | li2mni/runtime2.py:69-70 | a center outside the allow-list stops the run with the assertion error |
| `Li2mniNorm.PhantomKeyIsCenter` | li2mni/runtime2.py:69-71 | the phantom key is the center's text, and the value is that of the site's last line |
| `Li2mniNorm.RemovedExactly` | li2mni/runtime2.py:61-66 | a loop that completes deletes exactly the existing normalised images of its inputs |
| `Li2mniNorm.ProcessedNotRemoved` | li2mni/runtime2.py:61-74 | no row comes from an image whose normalised image was deleted |
| `Li2mniNorm.ThirdFromEnd` | li2mni/runtime2.py:62-67 | in `d/sub/ses/file` the subject is `sub` and the directory is `d/sub/ses` |
| `Li2mniNorm.StandardImagePath` | li2mni/runtime2.py:49-67 | for a matched `<datadir>/<sub>/ses-M03Li/li2mni.nii.gz`, the subject is `sub`, and the output directory and normalised image are in its session directory |
| `FsLongitudinal.FsDirs` | freesurfer/fslongitudinal_runtime.py:61 | one cross-sectional directory per timepoint |
| `FsLongitudinal.PreviewOfTabulated` | freesurfer/fslongitudinal_runtime.py:79-85 | the preview raises exactly when no subject is kept, and is otherwise that of the first and last row |
| `FsLongitudinal.VisitSubject` | freesurfer/fslongitudinal_runtime.py:62-72 | the loop body equals its step function and creates the missing output directory of a kept subject |
| `FsLongitudinal.SubjectStep` | freesurfer/fslongitudinal_runtime.py:62-72 | one subject: skipped when it has no `ses-M03` directory; otherwise its row is the subject and `<outdir>/<name>/<subject>` |
| `FsLongitudinal.Rows` | freesurfer/fslongitudinal_runtime.py:59-75 | the subject listing, then the subject loop, then the test cut; an empty manifest is not an error here |
| `FsLongitudinal.CollectRows` | freesurfer/fslongitudinal_runtime.py:62-72 | the loop never raises, fills both lists with the kept subjects' rows, and creates the directories of the iterations run |
| `FsLongitudinal.Run` | freesurfer/fslongitudinal_runtime.py:59-85 | the run yields the lists (cut in test mode), preview, cross-sectional directories and timepoints argument; it raises the listing's error, or IndexError when no subject is kept, and reports the directories created |
| `FsLongitudinal.NoSubjectFails` | freesurfer/fslongitudinal_runtime.py:62-72 | no iteration raises |
| `FsLongitudinal.KeptIffSessionDir` | freesurfer/fslongitudinal_runtime.py:62-72 | a listed subject gets a row iff it has a `ses-M03` directory, with `<outdir>/<name>/<subject>` as output directory |
| `FsLongitudinal.RowOutdirs` | freesurfer/fslongitudinal_runtime.py:68-72 | every row's output directory is its own subject's |
| `FsLongitudinal.AcceptedSubject` | freesurfer/fslongitudinal_runtime.py:63-72 | a kept subject has the session directory, and its output directory exists or is created |
| `FsLongitudinal.MadeDirOfSubject` | freesurfer/fslongitudinal_runtime.py:68-70 | a directory is created only for a kept subject whose output directory was missing |
| `FsLongitudinal.OutdirsExistAfterLoop` | freesurfer/fslongitudinal_runtime.py:68-70 | after the loop every kept subject's output directory existed or was created |
| `FsLongitudinal.CreatesOnlyMissingOutdirs` | freesurfer/fslongitudinal_runtime.py:68-70 | every created directory is a missing output directory of some row |
| `FsLongitudinal.SubjectOutdirShape` | freesurfer/fslongitudinal_runtime.py:68 | the output directory is named after the subject and sits in `<outdir>/<name>` |
| `FsLongitudinal.FsDirsPerTimepoint` | freesurfer/fslongitudinal_runtime.py:60-61 | the k-th cross-sectional directory is `<outdir>/freesurfer/<timepoint k>` |
| `FsLongitudinal.TimepointsRoundTrip` | freesurfer/fslongitudinal_runtime.py:110 | the timepoints argument is "ses-M00,ses-M03" and splits back into the two timepoints |
| `QcLookup.FirstIndex` | li2mni/qc2.py:18 | None iff the value is absent, otherwise the first position holding it |
| `QcLookup.Psc2ToSite` | li2mni/qc2.py:17-18 | the lookup succeeds iff the `<ses>_center` column exists and the id is listed, and then answers the column's cell at the id's first row; KeyError for a missing column, IndexError for a missing id |
| `QcLookup.LaterRowsIgnored` | li2mni/qc1.py:86-87 | appending a row never changes the answer for a listed id: the first row wins |
| `QcAnat.RenameColumns` | qc_anat.py:30-38 | the loop renames every column, keeping the order |
| `QcAnat.RenamedShape` | qc_anat.py:33-36 | a key column keeps its name; any other column is its old name followed by the suffix |
| `QcAnat.RenamedDistinct` | qc_anat.py:30-38 | distinct columns keep distinct names unless a renamed one lands on a key column's name |
| `QcAnat.RenamedCanClash` | qc_anat.py:33-36 | "participant" with suffix "_id" clashes with the kept "participant_id" |
| `QcAnat.Renamed` | qc_anat.py:33-36 | `participant_id`, `session`, `run` and `site` keep their name; any other column gets the suffix |
| `QcAnat.QcColumnsRenamed` | qc_anat.py:65-67 | the three `qc` columns become `qc_cat12`, `qc_quasiraw` and `qc_fs` |
| `QcAnat.Psc2ToPsc1` | qc_anat.py:17-18 | a non-integer id is a ValueError; an integer id fails only with IndexError |
| `QcAnat.Psc2ToPsc1Finds` | qc_anat.py:17-18 | the lookup succeeds iff the id parses and some row carries it as psc2, and answers the psc1 of the first such row |
| `QcAnat.Psc1s` | qc_anat.py:22-23 | every id is transcoded in order, or the error of one that cannot be |
| `QcAnat.SiteOfThousands` | qc_anat.py:24-25 | a psc1 of four digits or more has its thousands as site |
| `QcAnat.SiteOfSmall` | qc_anat.py:24-25 | a psc1 below 1000 has the empty site |
| `QcAnat.SiteOf` | qc_anat.py:24 | the site is `str(psc1)[0:-3]`, the text of the psc1 without its last three characters |
| `QcAnat.AddSite` | qc_anat.py:21-27 | one site per row, from its transcoded psc1, or the first lookup error |
| `QcAnat.CombineQc` | qc_anat.py:80-88 | the verdict is 0 or 1, and 1 iff no QC says 0 (a missing QC does not fail) |
| `QcAnat.PassesAll` | qc_anat.py:82-86 | a row passes unless its CAT12, FreeSurfer or quasi-raw QC equals 0 |
| `QcAnat.ParseAll` | qc_anat.py:98-99 | every site text parses, in order, or the ValueError of one that does not |
| `QcAnat.RowsAt` | qc_anat.py:102 | the rows of one site are exactly those with that site text, and there are as many as there are table positions holding that site |
| `QcAnat.RowsAtIndices` | qc_anat.py:102 | `df_site` is the site's rows in table order with their repeats: row k is the table row at position idx[k], the positions increase strictly, and they are all the positions of that site |
| `QcAnat.RowsAtCounts` | qc_anat.py:102-105 | `tot` is the number of table positions of the site, and `nbQC` the number of those whose qc is 1 |
| `QcAnat.Passing` | qc_anat.py:103-104 | the passing rows are exactly those with qc 1 |
| `QcAnat.Sheet` | qc_anat.py:101-107 | a site's sheet holds exactly the rows of that site, `tot` is the number of table positions of the site, `nbQC` the number of those with qc 1, and nbQC <= tot |
| `QcAnat.FilterMembership` | qc_anat.py:102-104 | a boolean mask keeps exactly the elements that satisfy its condition |
| `QcAnat.FilterIndices` | qc_anat.py:102-104 | a boolean mask keeps the selected elements in order and with their repeats, through a strictly increasing list of all the selected positions |
| `QcAnat.FilterCount` | qc_anat.py:103-105 | the length of a masked table is the number of selected positions |
| `QcAnat.FilterFilter` | qc_anat.py:103-104 | masking with one condition and then another is masking once with their conjunction, as `(site == s) & (qc == 1)` does |
| `QcAnat.FilterSnoc` | qc_anat.py:102-104 | masking a table with one more row masks that row last |
| `QcAnat.WriteSheets` | qc_anat.py:101-107 | the sheet loop equals its specification: the unique site texts parsed as integers and sorted, one sheet per site in that order, or the ValueError of a text that does not parse |
| `QcAnat.SheetsOf` | qc_anat.py:101-107 | the loop's sheets, one per sorted site |
| `QcAnat.SiteListAscending` | qc_anat.py:98-101 | the sites are visited in ascending order |
| `QcAnat.SheetsAscending` | qc_anat.py:101-106 | sheets come in ascending site order, each with passed <= total |
| `QcAnat.SiteListDistinct` | qc_anat.py:98-101 | sites written as `str()` writes integers are visited once each |
| `QcAnat.SheetsDistinct` | qc_anat.py:98-107 | then every site has exactly one sheet, in strictly ascending order |
| `QcAnat.SiteListHas` | qc_anat.py:98-101 | every row's site is visited |
| `QcAnat.SheetsCover` | qc_anat.py:101-107 | every row's site has a sheet |
| `QcAnat.DistinctParsesDistinct` | qc_anat.py:98-101 | distinct `str()` texts parse to distinct integers, so the sorted list has no repeat |
| `QcAnat.Written` | qc_anat.py:80-91 | each written row keeps the merged row's keys and QCs, has its site, and has qc 1 iff no QC says 0 |
| `QcAnat.Run` | qc_anat.py:74-107 | without transcoding: the written table with no site and no sheet; with it: the lookup error, or the table with sites and its per-site sheets, or the ValueError of those sheets |
| `QcAnat.ShortPsc1StopsSheets` | qc_anat.py:98-99 | an empty site (psc1 below 1000) makes the per-site sheets raise |
| `QcAnat.AddedSitesAreIntegers` | qc_anat.py:24-27 | a site from a psc1 of four digits or more is `str()` of its thousands |
| `LiQc2.ParticipantOfPath` | li2mni/qc2.py:36 | the subject of `<prefix>/<subject>/<a>/<b>` is `subject` |
| `LiQc2.Root` | li2mni/qc2.py:37 | the root is a prefix of the path holding no "hanat" |
| `LiQc2.RootOfHanatFile` | li2mni/qc2.py:37 | for `<d>/hanat...`, with no earlier "hanat", the root is `<d>/` |
| `LiQc2.FslCommands` | li2mni/qc2.py:38-48 | one fsleyes command per root, in order |
| `LiQc2.FsleyesRoundTrip` | li2mni/qc2.py:40 | the exported directory is the second `"`-field of the command |
| `LiQc2.FsleyesEndsWithTemplate` | li2mni/qc2.py:46 | the command ends with the template, or with nothing when none is given |
| `LiQc2.Fsleyes` | li2mni/qc2.py:40-46 | the command exports the quoted root as `TMP_DIR_FOR_FSL`, then opens the five registration images under it, followed by the template or by nothing |
| `LiQc2.FirstRows` | li2mni/qc2.py:50-53 | one row per image, before the site lookup |
| `LiQc2.VisitRow` | li2mni/qc2.py:56-60 | the loop body equals its step function |
| `LiQc2.SiteStep` | li2mni/qc2.py:57-60 | one row: its site is the `ses-M03Li_center` cell of its participant, or the lookup error is raised |
| `LiQc2.AssignSites` | li2mni/qc2.py:56-60 | the `iterrows` loop equals its scan |
| `LiQc2.MakeCsv` | li2mni/qc2.py:21-65 | `make_csv` writes the rows sorted by participant, or raises the first error |
| `LiQc2.Rows` | li2mni/qc2.py:35-60 | the subjects of the globbed paths (a too shallow path raises), one row per path, then the site loop when a participants table is given |
| `LiQc2.WrittenSorted` | li2mni/qc2.py:50-63 | the table `make_csv` writes has one row per image, is ordered by participant, and is a permutation of the image rows |
| `LiQc2.RowsOfPaths` | li2mni/qc2.py:35-62 | each image gives one row: its subject, "M03Li", the command of its root, no score, qc 1 and, with a participants table, its site; a shallow path raises |
| `LiQc2.SitedRows` | li2mni/qc2.py:56-60 | the site loop that completes sets every row's site from the table and changes nothing else; otherwise the lookup error of some row |
| `LiQc2.ParticipantsAccepted` | li2mni/qc2.py:36 | a comprehension that completes gives one subject per path |
| `LiQc1.GetAnat` | li2mni/qc1.py:78-83 | every line loses its newlines, and no line is added or dropped |
| `LiQc1.LineGivesPath` | li2mni/qc1.py:80-82 | a line read with its newline gives back the path |
| `LiQc1.Titles` | li2mni/qc1.py:28-39 | the titles are exactly the listed names the pattern keeps |
| `LiQc1.SelectTitles` | li2mni/qc1.py:28-39 | the listing loop collects the titles in listing order |
| `LiQc1.LithiumPngName` | li2mni/qc1.py:114 | `rstrip(".nii.gz")` also strips the "i" of "limri", giving the "limr" name that pattern "Li" keeps |
| `LiQc1.PngName` | li2mni/qc1.py:114 | the PNG name of an image is its basename with trailing ".", "n", "i", "g" and "z" characters stripped, in any order |
| `LiQc1.KeepPng` | li2mni/qc1.py:29-39 | pattern "Li" keeps the names ending in `ses-M03Li_acq-trufi_run-1_part-mag_limr.png`, pattern "T1wLi" the names ending in `.png`, any other pattern none |
| `LiQc1.LiTitlesAmongT1wLi` | li2mni/qc1.py:29-39 | every title kept by "Li" is kept by "T1wLi" |
| `LiQc1.FillNa` | li2mni/qc1.py:121 | `fillna(0)` leaves no empty cell and keeps every non-empty cell |
| `LiQc1.VisitTitle` | li2mni/qc1.py:126-134 | the loop body equals its step function |
| `LiQc1.RewriteStep` | li2mni/qc1.py:126-134 | one title: fewer than two "_" fields raise IndexError; the site is 0 without a participants table and otherwise the `<ses>_center` cell of psc2 after `fillna(0)`, its lookup error raising; pattern "T1wLi" also needs a "rec-" field; the row is `sub-<psc2>`, "M03Li", the site, the rec, score 0 and qc 1 |
| `LiQc1.RewriteRows` | li2mni/qc1.py:126-134 | the `iterrows` loop equals its scan |
| `LiQc1.Columns` | li2mni/qc1.py:138-143 | the table has a `rec` column iff the pattern is "T1wLi", between the fixed leading and trailing columns |
| `LiQc1.All` | li2mni/qc1.py:119-144 | `all` writes the rewritten rows under the pattern's columns, sorted by participant, or raises the first error |
| `LiQc1.TitleFields` | li2mni/qc1.py:127-132 | for `<psc2>_<ses>_<rest>`, a failed site lookup raises its error; an accepted row has participant "sub-<psc2>" and the site of psc2 in `<ses>_center` after `fillna(0)`, or "0" without a participants table |
| `LiQc1.RecOfTitle` | li2mni/qc1.py:133-134 | `rec` is the text between the first "rec-" and the next "_" |
| `LiQc1.RecOf` | li2mni/qc1.py:134 | `split("rec-")[1].split("_")[0]`, or IndexError when the title holds no "rec-" |
| `LiQc1.RowsConstants` | li2mni/qc1.py:123-136 | every row has session "M03Li", score 0 and qc 1; it has a `rec` iff the pattern is "T1wLi", and site "0" without a participants table |
| `LiQc1.OneRowPerTitle` | li2mni/qc1.py:126-134 | the rewrite keeps one row per title, in order, or raises at some title |
| `LiQc1.WrittenSorted` | li2mni/qc1.py:126-144 | the table `all` writes has one row per title, is ordered by participant, and is a permutation of the rewritten rows |

## Left out

- Dispatch. The `hopla` call, the PBS options, the log directory and the
  dated log file name are not modelled. The model ends with the lists the
  dispatcher would receive. TBSS also keeps its two command strings; the
  final one is built after the dispatch and is the `TypeError` of the join
  when a target is None.
- Console output. `print`, the `fire` command line and `tqdm` are not modelled.
  The preview lines are kept as values.
- The filesystem is a frozen snapshot. The calls that change it are not
  modelled, with three exceptions:
  - the output directories created by the FreeSurfer longitudinal driver;
  - the normalised images deleted by li2mni normalisation;
  - the TBSS copies, whose destinations are modelled but not the copying.
  Directory creation in the other drivers does not affect what they append.
- `glob` is a lookup of the pattern text in the snapshot. Pattern matching
  itself and the (unspecified) order of the results are inputs.
- `json.load` yields `str()` of each top-level value or a decode failure.
  The JSON grammar is not modelled.
- Snapshot.ReadSidecar: a globbed sidecar that the snapshot does not hold reads
  as undecodable, so its session is skipped. In `dmriprep/runtime.py` the
  `open` call (line 121) sits outside the `try`, so a file that cannot be
  opened raises `FileNotFoundError` and stops the run. The model assumes that
  every globbed sidecar can be opened.
- li2mni normalisation:
  - the limri brain-mask `assert` depends on the installed package and is
    not modelled;
  - the participants and phantom tables are parameters, already read;
  - the phantom table is kept as text, so `str(_center)` matches it as text.
- pandas is modelled only as far as the scripts use it. Tables are read as
  text; a missing cell is `None` (NaN). The following are parameters or not
  modelled: `read_csv`/`to_csv`/`to_excel`, and the two outer merges of
  `qc_anat.py` (the merged rows are the input of `QcAnat.Run`). Type
  inference is also not modelled. For example, a site read back as a float
  `1.0` would differ from the text "1" compared in `qc_anat.py`, and the
  model does not capture that.
- `Sorting.SortBy` models `sort_values` as a stable insertion sort. pandas'
  default sort is not stable, so the order of rows with equal
  participant ids may differ.
- `PyStr.ParseInt` models `int()` on an optionally signed run of ASCII digits.
  Surrounding whitespace, underscores and non-ASCII digits are not accepted.
- Image handling in `li2mni/qc1.py` is not modelled: `make_png`, the image
  and PDF parts of `create_pdf`, and the font. The model keeps the selection
  of the page titles and then takes the table of titles that `create_pdf`
  writes (one title per page, qc 1) as the input of `LiQc1.All`.
- `li2mni/make_mni_snapshot.py` and the other QC scripts are not part of this
  model.
- `Dmriprep.Run`: the outcome of the six-column length check is computed
  (`Dmriprep.CheckLengths`), but the run's contract states it through the
  list contents, which imply equal lengths.
- The `data` variable of dmriprep's sidecar loop survives from one session
  to the next, as Python scoping makes it. It is modelled as loop state.
  An undecodable first sidecar with no earlier `data` raises NameError
  (`UnboundVariable`).
