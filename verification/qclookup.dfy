/** The participants table the lithium QC scripts consult, and the lookup
    `psc2_to_site` they both define: the acquisition center of a subject for one
    session, read from the `<session>_center` column. */
module QcLookup {
  import opened Base

  /** The first position of `x` in `xs`: pandas' row filter `df[df[col] == x]` followed
      by `.values[0]`. None is the IndexError on an empty selection. */
  function FirstIndex<T(==)>(xs: seq<T>, x: T): (r: Option<nat>)
    ensures r.None? <==> x !in xs
    ensures r.Some? ==> r.value < |xs| && xs[r.value] == x
    ensures r.Some? ==> forall j :: 0 <= j < r.value ==> xs[j] != x
    decreases |xs|
  {
    if xs == [] then None
    else if xs[0] == x then Some(0)
    else
      match FirstIndex(xs[1..], x)
      case None => None
      case Some(k) => Some(k + 1)
  }

  /** participants.tsv read as text: the `participant_id` column and the other columns
      by name. */
  datatype Participants = Participants(ids: seq<string>, columns: map<string, seq<string>>)

  /** Every column holds one cell per participant. */
  predicate Valid(t: Participants) {
    forall c :: c in t.columns ==> |t.columns[c]| == |t.ids|
  }

  /** A participants table as read: every column as long as the id column. */
  type Table = t: Participants | Valid(t) witness Participants([], map[])

  /** `psc2_to_site(psc2, ses, df)`: the `<ses>_center` cell of the first row whose
      participant_id is `psc2`. A missing column is a KeyError; no matching row is the
      IndexError of `.values[0]`. */
  function Psc2ToSite(psc2: string, ses: string, t: Table): (r: Result<string>)
    ensures var col := ses + "_center";
      && (r.Ok? <==> col in t.columns && psc2 in t.ids)
      && (r.Err? ==> r.error == if col !in t.columns then NoSuchKey(col) else NoMatchingRow)
      && (r.Ok? ==> exists k :: 0 <= k < |t.ids| && t.ids[k] == psc2
                               && (forall j :: 0 <= j < k ==> t.ids[j] != psc2)
                               && r.value == t.columns[col][k])
  {
    var col := ses + "_center";
    if col !in t.columns then Err(NoSuchKey(col))
    else
      match FirstIndex(t.ids, psc2)
      case None => Err(NoMatchingRow)
      case Some(k) => Ok(t.columns[col][k])
  }

  /** When several rows carry the same id, the lookup answers with the earliest one:
      a later duplicate never changes the site. */
  lemma LaterRowsIgnored(psc2: string, ses: string, t: Table, id: string, cells: map<string, string>)
    requires psc2 in t.ids
    requires cells.Keys == t.columns.Keys
    ensures var t' := Participants(t.ids + [id], map c | c in t.columns :: t.columns[c] + [cells[c]]);
      Valid(t') && Psc2ToSite(psc2, ses, t') == Psc2ToSite(psc2, ses, t)
  {
    var t' := Participants(t.ids + [id], map c | c in t.columns :: t.columns[c] + [cells[c]]);
    var col := ses + "_center";
    var k := FirstIndex(t.ids, psc2).value;
    FirstIndexOfPrefix(t.ids, [id], psc2);
    if col in t.columns {
      assert t'.columns[col][k] == t.columns[col][k];
    }
  }

  lemma FirstIndexOfPrefix<T>(xs: seq<T>, ys: seq<T>, x: T)
    requires x in xs
    ensures FirstIndex(xs + ys, x) == FirstIndex(xs, x)
  {
    var k := FirstIndex(xs, x).value;
    assert (xs + ys)[k] == x;
    forall j | 0 <= j < k ensures (xs + ys)[j] != x {
      assert (xs + ys)[j] == xs[j];
    }
  }
}
