/** What every driver does around its scan loop: accept, skip or fail per input,
    keep the accepted rows in input order, cut to the first row in test mode, and
    preview the first and last row with the root prefixes replaced away. */
module Manifest {
  import opened Base
  import opened PyStr

  /** What one iteration of a scan loop does with its input: append a row,
      `continue`, or raise. */
  datatype Outcome<+R> = Accept(row: R) | Skip | Fail(error: Error)

  /** The rows a scan loop appends, in input order; the first raised error ends the scan. */
  function Scan<E, I, R>(env: E, items: seq<I>, step: (E, I) -> Outcome<R>): (r: Result<seq<R>>)
    ensures r.Ok? ==> |r.value| <= |items|
    decreases |items|
  {
    if items == [] then Ok([])
    else
      match Scan(env, items[..|items| - 1], step)
      case Err(e) => Err(e)
      case Ok(rows) =>
        match step(env, items[|items| - 1])
        case Accept(row) => Ok(rows + [row])
        case Skip => Ok(rows)
        case Fail(e) => Err(e)
  }

  /** One more loop iteration applied to what the loop has gathered so far; an error
      already raised stands. */
  function Extend<R>(acc: Result<seq<R>>, o: Outcome<R>): Result<seq<R>> {
    match acc
    case Err(e) => Err(e)
    case Ok(rows) =>
      match o
      case Accept(row) => Ok(rows + [row])
      case Skip => Ok(rows)
      case Fail(e) => Err(e)
  }

  /** A scan over one more input is one more iteration. */
  lemma ScanSnoc<E, I, R>(env: E, items: seq<I>, item: I, step: (E, I) -> Outcome<R>)
    ensures Scan(env, items + [item], step) == Extend(Scan(env, items, step), step(env, item))
  {
    assert (items + [item])[..|items|] == items;
  }

  /** A loop over a prefix of the inputs that takes one more input. */
  lemma ScanPrefixStep<E, I, R>(env: E, items: seq<I>, i: nat, step: (E, I) -> Outcome<R>)
    requires i < |items|
    ensures Scan(env, items[..i + 1], step) == Extend(Scan(env, items[..i], step), step(env, items[i]))
  {
    assert items[..i + 1] == items[..i] + [items[i]];
    ScanSnoc(env, items[..i], items[i], step);
  }

  /** A scan fails exactly when one of its inputs raises, and then with the error of
      the first input that does. */
  lemma {:induction false} ScanFailsAtFirstFailure<E, I, R>(env: E, items: seq<I>, step: (E, I) -> Outcome<R>)
    ensures Scan(env, items, step).Err? <==> exists i :: 0 <= i < |items| && step(env, items[i]).Fail?
    ensures Scan(env, items, step).Err? ==>
      exists i :: 0 <= i < |items| && step(env, items[i]) == Fail(Scan(env, items, step).error)
        && forall j :: 0 <= j < i ==> !step(env, items[j]).Fail?
    decreases |items|
  {
    if items != [] {
      var n := |items| - 1;
      ScanFailsAtFirstFailure(env, items[..n], step);
      assert forall i :: 0 <= i < n ==> items[..n][i] == items[i];
    }
  }

  /** Every row of a scan is the row some input was accepted with, and every accepted
      input's row is in the scan. */
  lemma {:induction false} ScanRowsAreAccepted<E, I, R>(env: E, items: seq<I>, step: (E, I) -> Outcome<R>)
    requires Scan(env, items, step).Ok?
    ensures var rows := Scan(env, items, step).value;
      && (forall k :: 0 <= k < |rows| ==> exists i :: 0 <= i < |items| && step(env, items[i]) == Accept(rows[k]))
      && (forall i :: 0 <= i < |items| && step(env, items[i]).Accept? ==> step(env, items[i]).row in rows)
    decreases |items|
  {
    if items != [] {
      var n := |items| - 1;
      ScanRowsAreAccepted(env, items[..n], step);
      assert forall i :: 0 <= i < n ==> items[..n][i] == items[i];
    }
  }

  /** Once a prefix of the inputs raises, the whole scan raises the same error. */
  lemma {:induction false} ScanErrPersists<E, I, R>(env: E, items: seq<I>, step: (E, I) -> Outcome<R>, k: nat)
    requires k <= |items| && Scan(env, items[..k], step).Err?
    ensures Scan(env, items, step) == Scan(env, items[..k], step)
    decreases |items|
  {
    if k < |items| {
      var n := |items| - 1;
      assert items[..n][..k] == items[..k];
      ScanErrPersists(env, items[..n], step, k);
    } else {
      assert items[..k] == items;
    }
  }

  // ---------------------------------------------------------------------------
  // What a scan loop does besides appending rows

  /** The side effects (a file deleted, say) of the iterations a scan loop runs, in
      order: every iteration up to and including the first that raises, and none after. */
  function Effects<E, I, R, X>(env: E, items: seq<I>, step: (E, I) -> Outcome<R>, effect: (E, I) -> seq<X>): seq<X>
    decreases |items|
  {
    if items == [] then []
    else
      var n := |items| - 1;
      Effects(env, items[..n], step, effect) + (if Scan(env, items[..n], step).Ok? then effect(env, items[n]) else [])
  }

  /** Once a prefix of the inputs raises, the later inputs have no effect. */
  lemma {:induction false} EffectsErrPersists<E, I, R, X>(env: E, items: seq<I>, step: (E, I) -> Outcome<R>, effect: (E, I) -> seq<X>, k: nat)
    requires k <= |items| && Scan(env, items[..k], step).Err?
    ensures Effects(env, items, step, effect) == Effects(env, items[..k], step, effect)
    decreases |items|
  {
    if k < |items| {
      var n := |items| - 1;
      assert items[..n][..k] == items[..k];
      ScanErrPersists(env, items[..n], step, k);
      EffectsErrPersists(env, items[..n], step, effect, k);
    } else {
      assert items[..k] == items;
    }
  }

  /** A scan that raises nothing has run every iteration: its effects are those of all
      its inputs. */
  lemma {:induction false} EffectsOfCompleteScan<E, I, R, X>(env: E, items: seq<I>, step: (E, I) -> Outcome<R>, effect: (E, I) -> seq<X>)
    requires Scan(env, items, step).Ok?
    ensures forall x :: x in Effects(env, items, step, effect) <==> exists i :: 0 <= i < |items| && x in effect(env, items[i])
    decreases |items|
  {
    if items != [] {
      var n := |items| - 1;
      assert forall i :: 0 <= i < n ==> items[..n][i] == items[i];
      EffectsOfCompleteScan(env, items[..n], step, effect);
    }
  }

  // ---------------------------------------------------------------------------
  // Nested loops: for every outer item, for every inner item

  /** The pairs `(x, y)` for `y` in `ys`, in order. */
  function PairWith<A, B>(x: A, ys: seq<B>): (r: seq<(A, B)>)
    ensures |r| == |ys|
    decreases |ys|
  {
    if ys == [] then [] else PairWith(x, ys[..|ys| - 1]) + [(x, ys[|ys| - 1])]
  }

  /** The pairs a nested loop visits: for each `x` in `xs`, for each `y` in `ys`. */
  function Pairs<A, B>(xs: seq<A>, ys: seq<B>): (r: seq<(A, B)>)
    ensures |r| == |xs| * |ys|
    decreases |xs|
  {
    if xs == [] then [] else Pairs(xs[..|xs| - 1], ys) + PairWith(xs[|xs| - 1], ys)
  }

  /** What the inner loop has gathered after its first `k` iterations for the outer
      item `x`, starting from what the outer loop had gathered before. */
  function ScanRow<E, A, B, R>(env: E, x: A, ys: seq<B>, acc: Result<seq<R>>, k: nat, step: (E, (A, B)) -> Outcome<R>): Result<seq<R>>
    requires k <= |ys|
  {
    if k == 0 then acc else Extend(ScanRow(env, x, ys, acc, k - 1, step), step(env, (x, ys[k - 1])))
  }

  /** What the nested loop has gathered after every inner iteration of every outer item. */
  function ScanNested<E, A, B, R>(env: E, xs: seq<A>, ys: seq<B>, step: (E, (A, B)) -> Outcome<R>): Result<seq<R>>
    decreases |xs|
  {
    if xs == [] then Ok([]) else ScanRow(env, xs[|xs| - 1], ys, ScanNested(env, xs[..|xs| - 1], ys, step), |ys|, step)
  }

  /** Once the inner loop has raised, its later iterations change nothing. */
  lemma {:induction false} ScanRowErrPersists<E, A, B, R>(env: E, x: A, ys: seq<B>, acc: Result<seq<R>>, j: nat, k: nat, step: (E, (A, B)) -> Outcome<R>)
    requires j <= k <= |ys| && ScanRow(env, x, ys, acc, j, step).Err?
    ensures ScanRow(env, x, ys, acc, k, step) == ScanRow(env, x, ys, acc, j, step)
    decreases k
  {
    if j < k {
      ScanRowErrPersists(env, x, ys, acc, j, k - 1, step);
    }
  }

  /** Once the outer loop has raised, its later items change nothing. */
  lemma {:induction false} ScanNestedErrPersists<E, A, B, R>(env: E, xs: seq<A>, ys: seq<B>, i: nat, step: (E, (A, B)) -> Outcome<R>)
    requires i <= |xs| && ScanNested(env, xs[..i], ys, step).Err?
    ensures ScanNested(env, xs, ys, step) == ScanNested(env, xs[..i], ys, step)
    decreases |xs|
  {
    if i < |xs| {
      var n := |xs| - 1;
      assert xs[..n][..i] == xs[..i];
      ScanNestedErrPersists(env, xs[..n], ys, i, step);
      ScanRowErrPersists(env, xs[n], ys, ScanNested(env, xs[..n], ys, step), 0, |ys|, step);
    } else {
      assert xs[..i] == xs;
    }
  }

  /** The inner loop continues the scan over the pairs of its outer item. */
  lemma {:induction false} ScanRowIsScan<E, A, B, R>(env: E, done: seq<(A, B)>, x: A, ys: seq<B>, k: nat, step: (E, (A, B)) -> Outcome<R>)
    requires k <= |ys|
    ensures Scan(env, done + PairWith(x, ys[..k]), step) == ScanRow(env, x, ys, Scan(env, done, step), k, step)
    decreases k
  {
    if k == 0 {
      assert done + PairWith(x, ys[..0]) == done;
    } else {
      ScanRowIsScan(env, done, x, ys, k - 1, step);
      assert ys[..k][..k - 1] == ys[..k - 1];
      assert done + PairWith(x, ys[..k]) == (done + PairWith(x, ys[..k - 1])) + [(x, ys[k - 1])];
      ScanSnoc(env, done + PairWith(x, ys[..k - 1]), (x, ys[k - 1]), step);
    }
  }

  /** A nested loop is a single scan over its pairs in order, so it fails exactly when
      some pair raises, with the first such error, and keeps the accepted rows in order. */
  lemma {:induction false} ScanNestedIsScan<E, A, B, R>(env: E, xs: seq<A>, ys: seq<B>, step: (E, (A, B)) -> Outcome<R>)
    ensures ScanNested(env, xs, ys, step) == Scan(env, Pairs(xs, ys), step)
    decreases |xs|
  {
    if xs != [] {
      var n := |xs| - 1;
      ScanNestedIsScan(env, xs[..n], ys, step);
      ScanRowIsScan(env, Pairs(xs[..n], ys), xs[n], ys, |ys|, step);
      assert ys[..|ys|] == ys;
    }
  }

  /** The rows of a scan come from strictly increasing input positions: row k is what
      the input at `idx[k]` was accepted with. */
  lemma {:induction false} ScanIndices<E, I, R>(env: E, items: seq<I>, step: (E, I) -> Outcome<R>) returns (idx: seq<nat>)
    requires Scan(env, items, step).Ok?
    ensures var rows := Scan(env, items, step).value;
      && |idx| == |rows|
      && (forall k :: 0 <= k < |idx| ==> idx[k] < |items| && step(env, items[idx[k]]) == Accept(rows[k]))
      && (forall k, l :: 0 <= k < l < |idx| ==> idx[k] < idx[l])
    decreases |items|
  {
    if items == [] {
      idx := [];
    } else {
      var n := |items| - 1;
      idx := ScanIndices(env, items[..n], step);
      assert forall i :: 0 <= i < n ==> items[..n][i] == items[i];
      if step(env, items[n]).Accept? {
        idx := idx + [n];
      }
    }
  }

  /** When no input is skipped or fails, there is one row per input, in order. */
  lemma {:induction false} ScanAcceptingAll<E, I, R>(env: E, items: seq<I>, step: (E, I) -> Outcome<R>)
    requires forall i :: 0 <= i < |items| ==> step(env, items[i]).Accept?
    ensures Scan(env, items, step).Ok?
    ensures |Scan(env, items, step).value| == |items|
    ensures forall i :: 0 <= i < |items| ==> Scan(env, items, step).value[i] == step(env, items[i]).row
    decreases |items|
  {
    if items != [] {
      var n := |items| - 1;
      assert forall i :: 0 <= i < n ==> items[..n][i] == items[i];
      ScanAcceptingAll(env, items[..n], step);
    }
  }

  // ---------------------------------------------------------------------------
  // Test mode and preview

  /** `xs[:1]` when the test flag is set, `xs` otherwise. */
  function TestCut<T>(xs: seq<T>, test: bool): seq<T> {
    if test then Take(xs, 1) else xs
  }

  /** Test mode keeps at most the first row; cutting twice is cutting once. */
  lemma TestCutKeepsFirst<T>(xs: seq<T>, test: bool)
    ensures test ==> |TestCut(xs, test)| <= 1
    ensures |TestCut(xs, test)| <= |xs| && TestCut(xs, test) == xs[..|TestCut(xs, test)|]
    ensures xs != [] ==> TestCut(xs, test) != [] && TestCut(xs, test)[0] == xs[0]
    ensures TestCut(TestCut(xs, test), test) == TestCut(xs, test)
  {
  }

  /** `s.replace(a, "").replace(b, "")`: how a preview strips the two roots. */
  function StripRoots(s: string, a: string, b: string): string {
    Replace(Replace(s, a, ""), b, "")
  }

  /** A path made of the first root followed by a remainder that holds neither
      root is previewed as that remainder. */
  lemma StripRootPrefix(a: string, rest: string, b: string)
    requires a != [] && b != []
    requires !Contains(rest, a) && !Contains(rest, b)
    ensures StripRoots(a + rest, a, b) == rest
  {
    ReplaceLeading(a, rest, "");
    ReplaceAbsent(rest, a, "");
    assert Replace(a + rest, a, "") == rest;
    ReplaceAbsent(rest, b, "");
  }

  /** The first and last line of a preview, one entry per column. */
  datatype Preview = Preview(first: seq<string>, last: seq<string>)

  /** `[item[0].replace(a, "").replace(b, "") for item in cols]` and the same with
      `item[-1]`: IndexError as soon as one column is empty. */
  function PreviewOf(cols: seq<seq<string>>, a: string, b: string): (r: Result<Preview>)
    ensures r.Ok? <==> forall c :: 0 <= c < |cols| ==> cols[c] != []
    ensures r.Err? ==> r.error == EmptyColumn
    ensures r.Ok? ==> |r.value.first| == |cols| && |r.value.last| == |cols|
  {
    if forall c :: 0 <= c < |cols| ==> cols[c] != [] then
      Ok(Preview(
        seq(|cols|, c requires 0 <= c < |cols| => StripRoots(cols[c][0], a, b)),
        seq(|cols|, c requires 0 <= c < |cols| => StripRoots(cols[c][|cols[c]| - 1], a, b))))
    else Err(EmptyColumn)
  }

  /** The preview of two non-empty columns, entry by entry. */
  lemma PreviewOfTwo(x: seq<string>, y: seq<string>, a: string, b: string)
    requires x != [] && y != []
    ensures PreviewOf([x, y], a, b) == Ok(Preview(
      [StripRoots(x[0], a, b), StripRoots(y[0], a, b)],
      [StripRoots(x[|x| - 1], a, b), StripRoots(y[|y| - 1], a, b)]))
  {
    var cols := [x, y];
    assert cols[0] == x && cols[1] == y;
    assert forall c :: 0 <= c < |cols| ==> cols[c] != [];
    var p := PreviewOf(cols, a, b).value;
    assert p.first == [StripRoots(x[0], a, b), StripRoots(y[0], a, b)];
    assert p.last == [StripRoots(x[|x| - 1], a, b), StripRoots(y[|y| - 1], a, b)];
  }

  /** The preview of three non-empty columns, entry by entry. */
  lemma PreviewOfThree(x: seq<string>, y: seq<string>, z: seq<string>, a: string, b: string)
    requires x != [] && y != [] && z != []
    ensures PreviewOf([x, y, z], a, b) == Ok(Preview(
      [StripRoots(x[0], a, b), StripRoots(y[0], a, b), StripRoots(z[0], a, b)],
      [StripRoots(x[|x| - 1], a, b), StripRoots(y[|y| - 1], a, b), StripRoots(z[|z| - 1], a, b)]))
  {
    var cols := [x, y, z];
    assert cols[0] == x && cols[1] == y && cols[2] == z;
    assert forall c :: 0 <= c < |cols| ==> cols[c] != [];
    var p := PreviewOf(cols, a, b).value;
    assert p.first == [StripRoots(x[0], a, b), StripRoots(y[0], a, b), StripRoots(z[0], a, b)];
    assert p.last == [StripRoots(x[|x| - 1], a, b), StripRoots(y[|y| - 1], a, b), StripRoots(z[|z| - 1], a, b)];
  }

  /** The preview of four non-empty columns, entry by entry. */
  lemma PreviewOfFour(w: seq<string>, x: seq<string>, y: seq<string>, z: seq<string>, a: string, b: string)
    requires w != [] && x != [] && y != [] && z != []
    ensures PreviewOf([w, x, y, z], a, b) == Ok(Preview(
      [StripRoots(w[0], a, b), StripRoots(x[0], a, b), StripRoots(y[0], a, b), StripRoots(z[0], a, b)],
      [StripRoots(w[|w| - 1], a, b), StripRoots(x[|x| - 1], a, b), StripRoots(y[|y| - 1], a, b),
       StripRoots(z[|z| - 1], a, b)]))
  {
    var cols := [w, x, y, z];
    assert cols[0] == w && cols[1] == x && cols[2] == y && cols[3] == z;
    assert forall c :: 0 <= c < |cols| ==> cols[c] != [];
    var p := PreviewOf(cols, a, b).value;
    assert p.first == [StripRoots(w[0], a, b), StripRoots(x[0], a, b), StripRoots(y[0], a, b), StripRoots(z[0], a, b)];
    assert p.last == [StripRoots(w[|w| - 1], a, b), StripRoots(x[|x| - 1], a, b), StripRoots(y[|y| - 1], a, b),
                      StripRoots(z[|z| - 1], a, b)];
  }

  /** The preview of six non-empty columns, entry by entry. */
  lemma PreviewOfSix(u: seq<string>, v: seq<string>, w: seq<string>, x: seq<string>, y: seq<string>, z: seq<string>,
                     a: string, b: string)
    requires u != [] && v != [] && w != [] && x != [] && y != [] && z != []
    ensures PreviewOf([u, v, w, x, y, z], a, b) == Ok(Preview(
      [StripRoots(u[0], a, b), StripRoots(v[0], a, b), StripRoots(w[0], a, b), StripRoots(x[0], a, b),
       StripRoots(y[0], a, b), StripRoots(z[0], a, b)],
      [StripRoots(u[|u| - 1], a, b), StripRoots(v[|v| - 1], a, b), StripRoots(w[|w| - 1], a, b),
       StripRoots(x[|x| - 1], a, b), StripRoots(y[|y| - 1], a, b), StripRoots(z[|z| - 1], a, b)]))
  {
    var cols := [u, v, w, x, y, z];
    assert cols[0] == u && cols[1] == v && cols[2] == w && cols[3] == x && cols[4] == y && cols[5] == z;
    assert forall c :: 0 <= c < |cols| ==> cols[c] != [];
    var p := PreviewOf(cols, a, b).value;
    assert p.first == [StripRoots(u[0], a, b), StripRoots(v[0], a, b), StripRoots(w[0], a, b), StripRoots(x[0], a, b),
                       StripRoots(y[0], a, b), StripRoots(z[0], a, b)];
    assert p.last == [StripRoots(u[|u| - 1], a, b), StripRoots(v[|v| - 1], a, b), StripRoots(w[|w| - 1], a, b),
                      StripRoots(x[|x| - 1], a, b), StripRoots(y[|y| - 1], a, b), StripRoots(z[|z| - 1], a, b)];
  }

  /** A one-row manifest shows the same row as its first and last line. */
  lemma PreviewOfOneRow(cols: seq<seq<string>>, a: string, b: string)
    requires forall c :: 0 <= c < |cols| ==> |cols[c]| == 1
    ensures PreviewOf(cols, a, b).Ok?
    ensures PreviewOf(cols, a, b).value.first == PreviewOf(cols, a, b).value.last
  {
  }
}
