/** `get_best_anat`, the candidate selector that five drivers carry an identical
    copy of: one candidate is taken as is; among several, the single one whose
    path contains "yGC" wins; anything else is an error. */
module Selection {
  import opened Base
  import opened PyStr

  /** The hard-coded marker of the preferred (gradient-corrected) reconstruction. */
  const Marker: string := "yGC"

  /** `[path for path in files if "yGC" in path]` */
  function Marked(files: seq<string>): (r: seq<string>)
    ensures |r| <= |files|
    ensures forall p :: p in r <==> p in files && Contains(p, Marker)
    decreases |files|
  {
    if files == [] then []
    else
      var last := files[|files| - 1];
      Marked(files[..|files| - 1]) + (if Contains(last, Marker) then [last] else [])
  }

  /** `get_best_anat(files)`: ValueError on no file, AssertionError unless exactly
      one of several files carries the marker. */
  function GetBestAnat(files: seq<string>): (r: Result<string>)
    ensures r.Ok? ==> r.value in files
    ensures |files| == 0 ==> r == Err(NoAnatomicalFile)
    ensures |files| == 1 ==> r == Ok(files[0])
    ensures |files| > 1 ==> (r.Ok? <==> |Marked(files)| == 1)
    ensures |files| > 1 && r.Ok? ==> Contains(r.value, Marker)
    ensures |files| > 1 && r.Err? ==> r.error == AmbiguousAnatomicalFile(|Marked(files)|)
  {
    if |files| == 1 then Ok(files[0])
    else if |files| > 1 then
      var select := Marked(files);
      if |select| == 1 then Ok(select[0]) else Err(AmbiguousAnatomicalFile(|select|))
    else Err(NoAnatomicalFile)
  }

  lemma {:induction false} MarkedOnlyAt(files: seq<string>, i: nat)
    requires i < |files| && Contains(files[i], Marker)
    requires forall j :: 0 <= j < |files| && j != i ==> !Contains(files[j], Marker)
    ensures Marked(files) == [files[i]]
    decreases |files|
  {
    var n := |files| - 1;
    if i < n {
      MarkedOnlyAt(files[..n], i);
    } else {
      MarkedNone(files[..n]);
    }
  }

  lemma {:induction false} MarkedNone(files: seq<string>)
    requires forall j :: 0 <= j < |files| ==> !Contains(files[j], Marker)
    ensures Marked(files) == []
    decreases |files|
  {
    if files != [] {
      MarkedNone(files[..|files| - 1]);
    }
  }

  lemma {:induction false} MarkedAtLeastTwo(files: seq<string>, i: nat, j: nat)
    requires i < j < |files| && Contains(files[i], Marker) && Contains(files[j], Marker)
    ensures |Marked(files)| >= 2
    decreases |files|
  {
    var n := |files| - 1;
    if j < n {
      MarkedAtLeastTwo(files[..n], i, j);
    } else {
      assert files[..n][i] == files[i];
      assert files[i] in Marked(files[..n]);
    }
  }

  /** Among several candidates, a file that is the only one carrying the marker is
      the one selected. */
  lemma SelectsUniqueMarked(files: seq<string>, i: nat)
    requires |files| > 1 && i < |files| && Contains(files[i], Marker)
    requires forall j :: 0 <= j < |files| && j != i ==> !Contains(files[j], Marker)
    ensures GetBestAnat(files) == Ok(files[i])
  {
    MarkedOnlyAt(files, i);
  }

  /** Among several candidates, none carrying the marker is an error reporting 0 matches. */
  lemma RejectsUnmarked(files: seq<string>)
    requires |files| > 1
    requires forall j :: 0 <= j < |files| ==> !Contains(files[j], Marker)
    ensures GetBestAnat(files) == Err(AmbiguousAnatomicalFile(0))
  {
    MarkedNone(files);
  }

  /** Two candidates carrying the marker make the selection fail. */
  lemma RejectsTwoMarked(files: seq<string>, i: nat, j: nat)
    requires i < j < |files| && Contains(files[i], Marker) && Contains(files[j], Marker)
    ensures GetBestAnat(files).Err?
  {
    MarkedAtLeastTwo(files, i, j);
  }
}
