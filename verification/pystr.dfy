/** The Python string, list-slice and `os.path` operations the drivers rely on,
    written out with Python's exact semantics: `str.replace` replaces every
    occurrence, `str.split(sep)` keeps empty fields, `str.rstrip(chars)` strips a
    character SET, and `os.path.join` restarts at an absolute component. */
module PyStr {
  import opened Base

  // ---------------------------------------------------------------------------
  // Predicates on strings

  /** `s.startswith(p)` */
  predicate StartsWith(s: string, p: string) {
    |p| <= |s| && s[..|p|] == p
  }

  /** `s.endswith(p)` */
  predicate EndsWith(s: string, p: string) {
    |p| <= |s| && s[|s| - |p|..] == p
  }

  /** `p in s`: p occurs somewhere in s (the empty string occurs everywhere). */
  predicate Contains(s: string, p: string)
    decreases |s|
  {
    StartsWith(s, p) || (|s| > 0 && Contains(s[1..], p))
  }

  lemma {:induction false} ContainsAt(s: string, p: string, k: nat)
    requires k + |p| <= |s| && s[k..k + |p|] == p
    ensures Contains(s, p)
    decreases k
  {
    if k > 0 {
      assert s[1..][k - 1..k - 1 + |p|] == s[k..k + |p|];
      ContainsAt(s[1..], p, k - 1);
    }
  }

  /** A one-character string that does not occur means the character is absent. */
  lemma CharNotContained(s: string, c: char)
    requires !Contains(s, [c])
    ensures c !in s
  {
  }

  // ---------------------------------------------------------------------------
  // str.replace, str.split, str.join

  /** `s.replace(pat, repl)`: every non-overlapping occurrence of `pat`, scanning left
      to right, becomes `repl`; an empty `pat` inserts `repl` around every character. */
  function Replace(s: string, pat: string, repl: string): string
    decreases |s|
  {
    if pat == [] then
      (if s == [] then repl else repl + [s[0]] + Replace(s[1..], pat, repl))
    else if StartsWith(s, pat) then
      repl + Replace(s[|pat|..], pat, repl)
    else if s == [] then []
    else [s[0]] + Replace(s[1..], pat, repl)
  }

  /** Joining a first part in front of at least one more. */
  lemma JoinCons(sep: string, x: string, rest: seq<string>)
    requires rest != []
    ensures Join(sep, [x] + rest) == x + (sep + Join(sep, rest))
  {
    assert ([x] + rest)[1..] == rest;
  }

  /** Joining eight parts puts the separator between each two neighbours. */
  lemma JoinEight(sep: string, a: string, b: string, c: string, d: string, e: string, f: string, g: string, h: string)
    ensures Join(sep, [a, b, c, d, e, f, g, h])
      == a + (sep + (b + (sep + (c + (sep + (d + (sep + (e + (sep + (f + (sep + (g + (sep + h)))))))))))))
  {
    assert [g, h] == [g] + [h];
    assert [f, g, h] == [f] + [g, h];
    assert [e, f, g, h] == [e] + [f, g, h];
    assert [d, e, f, g, h] == [d] + [e, f, g, h];
    assert [c, d, e, f, g, h] == [c] + [d, e, f, g, h];
    assert [b, c, d, e, f, g, h] == [b] + [c, d, e, f, g, h];
    assert [a, b, c, d, e, f, g, h] == [a] + [b, c, d, e, f, g, h];
    JoinCons(sep, g, [h]);
    JoinCons(sep, f, [g, h]);
    JoinCons(sep, e, [f, g, h]);
    JoinCons(sep, d, [e, f, g, h]);
    JoinCons(sep, c, [d, e, f, g, h]);
    JoinCons(sep, b, [c, d, e, f, g, h]);
    JoinCons(sep, a, [b, c, d, e, f, g, h]);
  }

  /** `s.split(sep)` for a non-empty separator (Python raises on an empty one). */
  function Split(s: string, sep: string): (parts: seq<string>)
    requires sep != []
    ensures |parts| >= 1
    decreases |s|
  {
    if StartsWith(s, sep) then [[]] + Split(s[|sep|..], sep)
    else if s == [] then [[]]
    else
      var rest := Split(s[1..], sep);
      [[s[0]] + rest[0]] + rest[1..]
  }

  /** `sep.join(parts)` */
  function Join(sep: string, parts: seq<string>): string
  {
    if parts == [] then []
    else if |parts| == 1 then parts[0]
    else parts[0] + sep + Join(sep, parts[1..])
  }

  /** Replacing is splitting on the pattern and joining with the replacement: an
      independent reference definition of `str.replace`. */
  lemma {:induction false} ReplaceIsJoinOfSplit(s: string, pat: string, repl: string)
    requires pat != []
    ensures Replace(s, pat, repl) == Join(repl, Split(s, pat))
    decreases |s|
  {
    if StartsWith(s, pat) {
      ReplaceIsJoinOfSplit(s[|pat|..], pat, repl);
      var rest := Split(s[|pat|..], pat);
      assert ([[]] + rest)[1..] == rest;
    } else if s == [] {
    } else {
      ReplaceIsJoinOfSplit(s[1..], pat, repl);
      var rest := Split(s[1..], pat);
      var parts := [[s[0]] + rest[0]] + rest[1..];
      if |rest| > 1 {
        assert parts[1..] == rest[1..];
        assert Join(repl, rest) == rest[0] + repl + Join(repl, rest[1..]);
      }
    }
  }

  /** Replacing a pattern by itself changes nothing. */
  lemma {:induction false} ReplaceBySelf(s: string, pat: string)
    ensures Replace(s, pat, pat) == s
    decreases |s|
  {
    if pat == [] {
      if s != [] {
        ReplaceBySelf(s[1..], pat);
        assert s == [s[0]] + s[1..];
      }
    } else if StartsWith(s, pat) {
      ReplaceBySelf(s[|pat|..], pat);
      assert s == pat + s[|pat|..];
    } else if s != [] {
      ReplaceBySelf(s[1..], pat);
      assert s == [s[0]] + s[1..];
    }
  }

  /** Joining the fields of a split with the separator gives the string back. */
  lemma SplitThenJoin(s: string, sep: string)
    requires sep != []
    ensures Join(sep, Split(s, sep)) == s
  {
    ReplaceIsJoinOfSplit(s, sep, sep);
    ReplaceBySelf(s, sep);
  }

  /** A string without the pattern is left unchanged by `replace`. */
  lemma {:induction false} ReplaceAbsent(s: string, pat: string, repl: string)
    requires pat != [] && !Contains(s, pat)
    ensures Replace(s, pat, repl) == s
    decreases |s|
  {
    if s != [] {
      ReplaceAbsent(s[1..], pat, repl);
      assert s == [s[0]] + s[1..];
    }
  }

  /** A pattern at the front is replaced, and so is every later occurrence. */
  lemma ReplaceLeading(pat: string, rest: string, repl: string)
    requires pat != []
    ensures Replace(pat + rest, pat, repl) == repl + Replace(rest, pat, repl)
  {
    assert (pat + rest)[..|pat|] == pat;
    assert (pat + rest)[|pat|..] == rest;
  }

  /** Replacing with the empty string leaves no occurrence of a one-character pattern. */
  lemma {:induction false} ReplaceCharRemovesAll(s: string, c: char)
    ensures !Contains(Replace(s, [c], []), [c])
    decreases |s|
  {
    if s != [] {
      ReplaceCharRemovesAll(s[1..], c);
      var r := Replace(s[1..], [c], []);
      if s[0] != c {
        assert Replace(s, [c], []) == [s[0]] + r;
        assert ([s[0]] + r)[1..] == r;
      } else {
        assert Replace(s, [c], []) == r;
      }
    }
  }

  /** The first field of `s.split(sep)` is the text before the first occurrence of
      `sep` (the whole string when there is none). */
  lemma {:induction false} SplitHead(s: string, sep: string)
    requires sep != []
    ensures var h := Split(s, sep)[0];
      && StartsWith(s, h)
      && !Contains(h, sep)
      && (Contains(s, sep) <==> StartsWith(s[|h|..], sep))
    decreases |s|
  {
    var h := Split(s, sep)[0];
    if StartsWith(s, sep) {
      assert h == [];
    } else if s == [] {
    } else {
      var t := s[1..];
      SplitHead(t, sep);
      var h' := Split(t, sep)[0];
      assert h == [s[0]] + h';
      assert h[1..] == h';
      assert s[|h|..] == t[|h'|..];
      assert s[..|h|] == [s[0]] + t[..|h'|];
    }
  }

  /** When a pattern occurs only at the very end of `s + pat`, replacing it rewrites
      just that last occurrence. */
  lemma {:induction false} ReplaceFinal(s: string, pat: string, repl: string)
    requires pat != [] && !Contains(s + pat[..|pat| - 1], pat)
    ensures Replace(s + pat, pat, repl) == s + repl
    decreases |s|
  {
    var t := s + pat;
    if s == [] {
      assert t == pat && t[|pat|..] == [];
    } else {
      var u := s + pat[..|pat| - 1];
      assert u[1..] == s[1..] + pat[..|pat| - 1];
      assert !StartsWith(t, pat) by {
        assert |pat| <= |u|;
        assert t[..|pat|] == u[..|pat|];
      }
      ReplaceFinal(s[1..], pat, repl);
      assert t[1..] == s[1..] + pat;
      ReplaceSkip(t, pat, repl);
      assert s == [s[0]] + s[1..];
      ConcatAssoc([s[0]], s[1..], repl);
    }
  }

  /** When a separator occurs first right after `a`, `str.split` yields `a` and then
      the fields of the rest. */
  lemma {:induction false} SplitFirst(a: string, sep: string, t: string)
    requires sep != [] && !Contains(a + sep[..|sep| - 1], sep)
    ensures Split(a + sep + t, sep) == [a] + Split(t, sep)
    decreases |a|
  {
    var s := a + sep + t;
    if a == [] {
      assert s == sep + t;
      assert s[..|sep|] == sep && s[|sep|..] == t;
    } else {
      var u := a + sep[..|sep| - 1];
      assert !StartsWith(s, sep) by {
        assert |sep| <= |u|;
        assert s[..|sep|] == u[..|sep|];
      }
      assert u[1..] == a[1..] + sep[..|sep| - 1];
      SplitFirst(a[1..], sep, t);
      assert s[1..] == a[1..] + sep + t;
      assert a == [a[0]] + a[1..];
    }
  }

  /** A string in which the separator does not occur splits into itself alone. */
  lemma {:induction false} SplitAbsent(s: string, sep: string)
    requires sep != [] && !Contains(s, sep)
    ensures Split(s, sep) == [s]
    decreases |s|
  {
    if s != [] {
      SplitAbsent(s[1..], sep);
      assert s == [s[0]] + s[1..];
    }
  }

  /** Where the pattern does not start, `str.replace` keeps the first character. */
  lemma ReplaceSkip(s: string, pat: string, repl: string)
    requires pat != [] && s != [] && !StartsWith(s, pat)
    ensures Replace(s, pat, repl) == [s[0]] + Replace(s[1..], pat, repl)
  {
  }

  /** Splitting on a one-character separator distributes over an occurrence of it. */
  lemma {:induction false} SplitAround(x: string, c: char, y: string)
    ensures Split(x + [c] + y, [c]) == Split(x, [c]) + Split(y, [c])
    decreases |x|
  {
    var s := x + [c] + y;
    var b := Split(y, [c]);
    if x == [] {
      assert s[1..] == y;
      SplitStep(s, c);
    } else {
      SplitAround(x[1..], c, y);
      var a := Split(x[1..], [c]);
      assert s[1..] == x[1..] + [c] + y;
      assert s[0] == x[0];
      SplitStep(s, c);
      SplitStep(x, c);
      if x[0] != c {
        assert (a + b)[0] == a[0];
        assert (a + b)[1..] == a[1..] + b;
      }
    }
  }

  /** One step of `str.split` on a one-character separator. */
  lemma SplitStep(s: string, c: char)
    requires s != []
    ensures s[0] == c ==> Split(s, [c]) == [[]] + Split(s[1..], [c])
    ensures s[0] != c ==> Split(s, [c]) == [[s[0]] + Split(s[1..], [c])[0]] + Split(s[1..], [c])[1..]
  {
    assert s[..1] == [s[0]];
  }

  /** A string without the separator splits into itself alone. */
  lemma {:induction false} SplitWithoutSep(y: string, c: char)
    requires c !in y
    ensures Split(y, [c]) == [y]
    decreases |y|
  {
    if y != [] {
      SplitWithoutSep(y[1..], c);
      assert y == [y[0]] + y[1..];
    }
  }

  /** `",".join([a, b]).split(",") == [a, b]` for fields without a comma. */
  /** In `a<c>b<c>rest`, with neither `a` nor `b` holding `c`, the first two fields of
      the split on `c` are `a` and `b`. */
  lemma LeadingTwoFields(a: string, b: string, rest: string, c: char)
    requires c !in a && c !in b
    ensures var fields := Split(a + [c] + b + [c] + rest, [c]);
      |fields| >= 2 && fields[0] == a && fields[1] == b
  {
    assert a + [c] + b + [c] + rest == a + [c] + (b + [c] + rest);
    SplitAround(a, c, b + [c] + rest);
    SplitAround(b, c, rest);
    SplitWithoutSep(a, c);
    SplitWithoutSep(b, c);
  }

  lemma JoinTwoThenSplit(a: string, b: string, c: char)
    requires c !in a && c !in b
    ensures Join([c], [a, b]) == a + [c] + b
    ensures Split(Join([c], [a, b]), [c]) == [a, b]
  {
    assert [a, b][1..] == [b];
    SplitAround(a, c, b);
    SplitWithoutSep(a, c);
    SplitWithoutSep(b, c);
  }

  /** No field of a split contains the separator. */
  lemma {:induction false} SplitFieldsAvoidSep(s: string, sep: string)
    requires sep != []
    ensures forall k :: 0 <= k < |Split(s, sep)| ==> !Contains(Split(s, sep)[k], sep)
    decreases |s|
  {
    var parts := Split(s, sep);
    SplitHead(s, sep);
    if StartsWith(s, sep) {
      SplitFieldsAvoidSep(s[|sep|..], sep);
      assert parts[1..] == Split(s[|sep|..], sep);
    } else if s != [] {
      SplitFieldsAvoidSep(s[1..], sep);
      assert parts[1..] == Split(s[1..], sep)[1..];
    }
    forall k | 1 <= k < |parts| ensures !Contains(parts[k], sep) {
      assert parts[k] == parts[1..][k - 1];
    }
  }

  // ---------------------------------------------------------------------------
  // str.rstrip with a character set

  /** The set of characters of `s`: what `str.rstrip(s)` strips. */
  function CharSet(s: string): set<char> {
    set c | c in s
  }

  /** `s.rstrip(chars)`: removes trailing characters as long as they belong to the
      set; it is not suffix removal. */
  function RStrip(s: string, chars: set<char>): (r: string)
    ensures StartsWith(s, r)
    ensures r == [] || r[|r| - 1] !in chars
    ensures forall k :: |r| <= k < |s| ==> s[k] in chars
    decreases |s|
  {
    if s != [] && s[|s| - 1] in chars then RStrip(s[..|s| - 1], chars) else s
  }

  /** Stripping a tail made only of characters of the set, in front of which stands a
      character outside the set, removes exactly that tail. */
  lemma {:induction false} RStripTail(s: string, t: string, chars: set<char>)
    requires forall k :: 0 <= k < |t| ==> t[k] in chars
    requires s != [] && s[|s| - 1] !in chars
    ensures RStrip(s + t, chars) == s
    decreases |t|
  {
    if t == [] {
      assert s + t == s;
    } else {
      var n := |t| - 1;
      assert (s + t)[..|s + t| - 1] == s + t[..n];
      RStripTail(s, t[..n], chars);
    }
  }

  // ---------------------------------------------------------------------------
  // Python list slicing and negative indexing

  /** `xs[-k]` for k >= 1; None is Python's IndexError. */
  function FromEnd<T>(xs: seq<T>, k: nat): (r: Option<T>)
    requires k >= 1
    ensures r.Some? <==> k <= |xs|
    ensures r.Some? ==> r.value == xs[|xs| - k]
  {
    if k <= |xs| then Some(xs[|xs| - k]) else None
  }

  /** `xs[:n]` */
  function Take<T>(xs: seq<T>, n: nat): (r: seq<T>)
    ensures |r| == if |xs| < n then |xs| else n
    ensures r == xs[..|r|]
  {
    if |xs| <= n then xs else xs[..n]
  }

  /** `xs[-n:]` for n >= 1 */
  function LastN<T>(xs: seq<T>, n: nat): (r: seq<T>)
    ensures |r| == if |xs| < n then |xs| else n
    ensures r == xs[|xs| - |r|..]
  {
    if |xs| <= n then xs else xs[|xs| - n..]
  }

  /** `s[0:-n]` for n >= 1 */
  function DropLast<T>(xs: seq<T>, n: nat): (r: seq<T>)
    ensures |r| == if |xs| <= n then 0 else |xs| - n
    ensures r == xs[..|r|]
  {
    if |xs| <= n then [] else xs[..|xs| - n]
  }

  // ---------------------------------------------------------------------------
  // os.path (POSIX)

  /** `os.path.join(a, b)`: an absolute `b` restarts the path; otherwise a single
      "/" is inserted unless `a` is empty or already ends with one. */
  function PathJoin(a: string, b: string): string {
    if StartsWith(b, "/") then b
    else if a == [] || EndsWith(a, "/") then a + b
    else a + "/" + b
  }

  /** `os.path.join(a, b, c)` */
  function PathJoin3(a: string, b: string, c: string): string {
    PathJoin(PathJoin(a, b), c)
  }

  /** `os.path.join(a, b, c, d)` */
  function PathJoin4(a: string, b: string, c: string, d: string): string {
    PathJoin(PathJoin3(a, b, c), d)
  }

  /** A path component as os.listdir returns it: non-empty, no separator. */
  predicate IsName(b: string) {
    b != [] && '/' !in b
  }

  /** Index just after the last "/" (0 when there is none). */
  function BaseStart(p: string): (i: nat)
    ensures i <= |p|
    ensures forall k :: i <= k < |p| ==> p[k] != '/'
    ensures i > 0 ==> p[i - 1] == '/'
    decreases |p|
  {
    if p == [] then 0
    else if p[|p| - 1] == '/' then |p|
    else BaseStart(p[..|p| - 1])
  }

  /** `os.path.basename(p)` */
  function Basename(p: string): string {
    p[BaseStart(p)..]
  }

  predicate AllSlashes(s: string) {
    forall k :: 0 <= k < |s| ==> s[k] == '/'
  }

  /** `os.path.dirname(p)`: the head up to the last "/", with trailing slashes
      removed unless the head is made of slashes only. */
  function Dirname(p: string): string {
    var head := p[..BaseStart(p)];
    if head != [] && !AllSlashes(head) then RStrip(head, {'/'}) else head
  }

  lemma {:induction false} BaseStartAfterSep(a: string, b: string)
    requires '/' !in b
    ensures BaseStart(a + "/" + b) == |a| + 1
    decreases |b|
  {
    var p := a + "/" + b;
    if b != [] {
      assert p[..|p| - 1] == a + "/" + b[..|b| - 1];
      BaseStartAfterSep(a, b[..|b| - 1]);
    } else {
      assert p[|p| - 1] == '/';
    }
  }

  /** Joining a directory that does not end in "/" with a plain name gives a path
      whose basename is that name and whose dirname is that directory. */
  lemma JoinThenSplitPath(d: string, b: string)
    requires IsName(b) && d != [] && d[|d| - 1] != '/'
    ensures PathJoin(d, b) == d + "/" + b
    ensures Basename(PathJoin(d, b)) == b
    ensures Dirname(PathJoin(d, b)) == d
  {
    assert !StartsWith(b, "/") by { assert b[0] in b; }
    assert !EndsWith(d, "/");
    var p := d + "/" + b;
    BaseStartAfterSep(d, b);
    assert p[|d| + 1..] == b;
    var head := p[..|d| + 1];
    assert head == d + "/";
    assert !AllSlashes(head) by { assert head[|d| - 1] == d[|d| - 1]; }
    assert head[..|head| - 1] == d;
  }

  /** A non-empty basename is a plain name. */
  lemma BasenameIsName(p: string)
    requires Basename(p) != []
    ensures IsName(Basename(p))
  {
    var b := Basename(p);
    forall k | 0 <= k < |b| ensures b[k] != '/' {
      assert b[k] == p[BaseStart(p) + k];
    }
  }

  /** A joined path with a plain last name never ends in "/". */
  lemma JoinEndsInName(a: string, b: string)
    requires IsName(b)
    ensures EndsWith(PathJoin(a, b), b)
    ensures var p := PathJoin(a, b); p != [] && p[|p| - 1] != '/'
  {
    assert !StartsWith(b, "/") by { assert b[0] in b; }
    assert b[|b| - 1] in b;
  }

  lemma SplitTwoNames(sub: string, ses: string)
    requires IsName(sub) && IsName(ses)
    ensures Split(sub + "/" + ses, "/") == [sub, ses]
  {
    SplitAround(sub, '/', ses);
    SplitWithoutSep(sub, '/');
    SplitWithoutSep(ses, '/');
  }

  lemma LastTwoAfterPrefix(prefix: string, sub: string, ses: string)
    requires IsName(sub) && IsName(ses)
    ensures LastN(Split(prefix + "/" + (sub + "/" + ses), "/"), 2) == [sub, ses]
  {
    SplitAround(prefix, '/', sub + "/" + ses);
    SplitTwoNames(sub, ses);
    var whole := Split(prefix, "/") + [sub, ses];
    assert whole[|whole| - 2..] == [sub, ses];
  }

  /** `os.path.join(d, sub)` is `sub` itself or `prefix + "/" + sub`. */
  lemma JoinNameShape(d: string, sub: string)
    requires IsName(sub) && d != []
    ensures exists prefix :: PathJoin(d, sub) == prefix + "/" + sub
  {
    assert !StartsWith(sub, "/") by { assert sub[0] in sub; }
    if EndsWith(d, "/") {
      assert PathJoin(d, sub) == d[..|d| - 1] + "/" + sub;
    } else {
      assert PathJoin(d, sub) == d + "/" + sub;
    }
  }

  /** The last two "/"-fields of `os.path.join(d, sub, ses)`, joined back with "/",
      are `sub + "/" + ses`, whatever the root `d`. */
  lemma LastTwoComponents(d: string, sub: string, ses: string)
    requires IsName(sub) && IsName(ses)
    ensures Join("/", LastN(Split(PathJoin3(d, sub, ses), "/"), 2)) == sub + "/" + ses
  {
    LastTwoFields(d, sub, ses);
    assert [sub, ses][1..] == [ses];
  }

  lemma LastTwoFields(d: string, sub: string, ses: string)
    requires IsName(sub) && IsName(ses)
    ensures LastN(Split(PathJoin3(d, sub, ses), "/"), 2) == [sub, ses]
  {
    var q := PathJoin3(d, sub, ses);
    JoinNameThenName(d, sub, ses);
    if d == [] {
      assert q == sub + "/" + ses;
      SplitTwoNames(sub, ses);
    } else {
      var prefix :| q == prefix + "/" + (sub + "/" + ses);
      LastTwoAfterPrefix(prefix, sub, ses);
    }
  }

  lemma JoinNameThenName(d: string, sub: string, ses: string)
    requires IsName(sub) && IsName(ses)
    ensures d == [] ==> PathJoin3(d, sub, ses) == sub + "/" + ses
    ensures d != [] ==> exists prefix :: PathJoin3(d, sub, ses) == prefix + "/" + (sub + "/" + ses)
  {
    var p := PathJoin(d, sub);
    JoinEndsInName(d, sub);
    JoinThenSplitPath(p, ses);
    if d == [] {
      assert p == sub by {
        assert !StartsWith(sub, "/") by { assert sub[..1][0] == sub[0] && sub[0] in sub; }
      }
    } else {
      JoinNameShape(d, sub);
      var prefix :| p == prefix + "/" + sub;
      ConcatAssoc(prefix + "/", sub, "/");
      ConcatAssoc(prefix + "/", sub + "/", ses);
    }
  }

  lemma ConcatAssoc(a: string, b: string, c: string)
    ensures a + b + c == a + (b + c)
  {
  }

  // ---------------------------------------------------------------------------
  // str(int) and int(str)

  function DigitChar(d: nat): char
    requires d < 10
  {
    "0123456789"[d]
  }

  predicate IsDigit(c: char) {
    '0' <= c <= '9'
  }

  function DigitValue(c: char): nat
    requires IsDigit(c)
  {
    (c as int - '0' as int) as nat
  }

  /** `str(n)` for a natural number. */
  function NatToStr(n: nat): string
    decreases n
  {
    if n < 10 then [DigitChar(n)] else NatToStr(n / 10) + [DigitChar(n % 10)]
  }

  /** `str(n)` for an integer. */
  function IntToStr(n: int): string {
    if n < 0 then "-" + NatToStr(-n) else NatToStr(n)
  }

  predicate AllDigits(s: string) {
    forall k :: 0 <= k < |s| ==> IsDigit(s[k])
  }

  function DigitsValue(s: string): nat
    requires AllDigits(s)
    decreases |s|
  {
    if s == [] then 0 else DigitsValue(s[..|s| - 1]) * 10 + DigitValue(s[|s| - 1])
  }

  /** `int(s)` on an optionally signed run of ASCII digits; None is ValueError. */
  function ParseInt(s: string): (r: Option<int>)
    ensures r.Some? ==> s != []
  {
    if s != [] && (s[0] == '-' || s[0] == '+') then
      (if s[1..] != [] && AllDigits(s[1..])
       then var v: int := DigitsValue(s[1..]); Some(if s[0] == '-' then -v else v)
       else None)
    else if s != [] && AllDigits(s) then Some(DigitsValue(s))
    else None
  }

  lemma {:induction false} NatToStrDigits(n: nat)
    ensures NatToStr(n) != [] && AllDigits(NatToStr(n))
    ensures DigitsValue(NatToStr(n)) == n
    decreases n
  {
    var s := NatToStr(n);
    if n >= 10 {
      NatToStrDigits(n / 10);
      assert s[..|s| - 1] == NatToStr(n / 10);
    }
  }

  /** `int(str(n)) == n` */
  lemma IntToStrRoundTrip(n: int)
    ensures ParseInt(IntToStr(n)) == Some(n)
  {
    NatToStrDigits(if n < 0 then -n else n);
    if n < 0 {
      assert IntToStr(n)[1..] == NatToStr(-n);
    } else {
      assert NatToStr(n)[0] != '-' && NatToStr(n)[0] != '+' by { assert IsDigit(NatToStr(n)[0]); }
    }
  }

  /** Dropping the last three characters of `str(n)` (Python's `[0:-3]`) gives
      `str(n // 1000)`, for n of at least four digits. */
  lemma NatToStrDropThree(n: nat)
    requires n >= 1000
    ensures DropLast(NatToStr(n), 3) == NatToStr(n / 1000)
  {
    assert (n / 10) / 10 == n / 100;
    assert (n / 100) / 10 == n / 1000;
    var t := NatToStr(n / 1000);
    assert NatToStr(n / 100) == t + [DigitChar((n / 100) % 10)];
    assert NatToStr(n / 10) == NatToStr(n / 100) + [DigitChar((n / 10) % 10)];
    var s := NatToStr(n);
    assert s == t + [DigitChar((n / 100) % 10), DigitChar((n / 10) % 10), DigitChar(n % 10)];
    assert t != [];
  }
}
