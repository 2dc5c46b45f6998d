/** Path normalisation: an in-place writer with a backtrack stack, against the
    fold over path components it stands for. */
module Path {

  // ----- components -----

  /** The pieces of a path between slashes, empty ones included. */
  function Split(s: string): (r: seq<string>)
    ensures r != []
  {
    if s == "" then [""]
    else if s[0] == '/' then [""] + Split(s[1..])
    else var r := Split(s[1..]); [[s[0]] + r[0]] + r[1..]
  }

  predicate Normal(c: string) { c != "" && c != "." && c != ".." && '/' !in c }

  ghost predicate AllNormal(stack: seq<string>) {
    forall i :: 0 <= i < |stack| ==> Normal(stack[i])
  }

  /** Entries of the backtrack array: PATH_MAX / 2. */
  const BACK: nat := 2048

  /** Components kept so far, how often ".." was met at the root, and whether a
      component was opened and closed too soon after the second such climb, or
      too deep for the backtrack array. */
  datatype Folded = Folded(stack: seq<string>, climbs: nat, fault: bool)

  function Fold(stack: seq<string>, climbs: nat, cs: seq<string>): Folded
    decreases |cs|
  {
    if cs == [] then Folded(stack, climbs, false)
    else if cs[0] == "" || cs[0] == "." then Fold(stack, climbs, cs[1..])
    else if cs[0] == ".." then
      if stack == [] then Fold(stack, climbs + 1, cs[1..]) else Fold(stack[..|stack| - 1], climbs, cs[1..])
    else if |cs| > 1 && (climbs >= 2 || |stack| + 1 >= BACK + climbs) then Folded(stack, climbs, true)
    else Fold(stack + [cs[0]], climbs, cs[1..])
  }

  /** "/c1/c2/.../cn/" */
  function Dirs(stack: seq<string>): string {
    if stack == [] then "/" else Dirs(stack[..|stack| - 1]) + stack[|stack| - 1] + "/"
  }

  function Render(stack: seq<string>, slash: bool): string {
    if stack == [] then "/"
    else if slash then Dirs(stack)
    else Dirs(stack[..|stack| - 1]) + stack[|stack| - 1]
  }

  predicate EndsInSlash(path: string) { path != "" && path[|path| - 1] == '/' }

  /** Two climbs above the root with a directory behind them are one too many;
      one climb, or two with nothing behind, are not. */
  lemma {:induction false} TwoClimbs()
    ensures Fold([], 0, ["", "..", "..", "a", "b"]).fault
    ensures Fold([], 0, ["", "..", "a", "b"]) == Folded(["a", "b"], 1, false)
    ensures Fold([], 0, ["", "..", "..", "b"]) == Folded(["b"], 2, false)
  {
    assert ["", "..", "..", "a", "b"][1..] == ["..", "..", "a", "b"];
    assert ["..", "..", "a", "b"][1..] == ["..", "a", "b"];
    assert ["..", "a", "b"][1..] == ["a", "b"] && ["a", "b"][1..] == ["b"] && ["b"][1..] == [];
    assert ["", "..", "a", "b"][1..] == ["..", "a", "b"];
    assert ["", "..", "..", "b"][1..] == ["..", "..", "b"];
    assert ["..", "..", "b"][1..] == ["..", "b"] && ["..", "b"][1..] == ["b"];
    assert Fold([], 2, ["a", "b"]).fault;
    assert Fold([], 1, ["..", "a", "b"]) == Fold([], 2, ["a", "b"]);
    assert Fold([], 0, ["..", "..", "a", "b"]) == Fold([], 1, ["..", "a", "b"]);
    assert Fold(["a", "b"], 1, []) == Folded(["a", "b"], 1, false);
    assert Fold(["a"], 1, ["b"]) == Fold(["a"] + ["b"], 1, []);
    assert Fold([], 1, ["a", "b"]) == Fold([] + ["a"], 1, ["b"]);
    assert Fold([], 2, ["b"]) == Fold([] + ["b"], 2, []);
    assert Fold([], 1, ["..", "b"]) == Fold([], 2, ["b"]);
  }

  // ----- facts about splitting -----

  predicate At(s: string, i: nat, c: char) { i < |s| && s[i] == c }

  /** The component at the front of s ends after n characters. */
  predicate EndsAfter(s: string, n: nat) { n == |s| || At(s, n, '/') }

  lemma {:induction false} SplitHeadIs(s: string, w: string)
    requires '/' !in w
    ensures Split(s)[0] == w <==> w <= s && EndsAfter(s, |w|)
    decreases |w|
  {
    if w != "" && s != "" && s[0] != '/' {
      SplitHeadIs(s[1..], w[1..]);
      var h := Split(s[1..])[0];
      assert Split(s)[0] == [s[0]] + h;
      assert ([s[0]] + h)[1..] == h;
      assert w == [w[0]] + w[1..] && s == [s[0]] + s[1..];
    }
  }

  lemma SplitHead(s: string)
    ensures Split(s)[0] == "" <==> EndsAfter(s, 0)
    ensures Split(s)[0] == "." <==> At(s, 0, '.') && EndsAfter(s, 1)
    ensures Split(s)[0] == ".." <==> At(s, 0, '.') && At(s, 1, '.') && EndsAfter(s, 2)
  {
    SplitHeadIs(s, "");
    SplitHeadIs(s, ".");
    SplitHeadIs(s, "..");
  }

  lemma SplitNoSlash(s: string)
    ensures forall i :: 0 <= i < |Split(s)| ==> '/' !in Split(s)[i]
  {
  }

  /** The pieces with a slash between each two of them. */
  function Joined(cs: seq<string>): string {
    if cs == [] then "" else if |cs| == 1 then cs[0] else cs[0] + "/" + Joined(cs[1..])
  }

  /** Nothing is lost: the pieces make up the path. */
  lemma {:induction false} SplitJoined(s: string)
    ensures Joined(Split(s)) == s
  {
    if s != "" {
      var r := Split(s[1..]);
      SplitJoined(s[1..]);
      if s[0] == '/' {
        assert ([""] + r)[1..] == r;
        assert "" + "/" + s[1..] == s;
      } else {
        var cs := [[s[0]] + r[0]] + r[1..];
        assert cs == Split(s) && cs[1..] == r[1..];
        assert forall i :: 0 < i < |cs| ==> cs[i] == r[i];
        if |r| > 1 {
          assert [s[0]] + r[0] + "/" + Joined(r[1..]) == [s[0]] + (r[0] + "/" + Joined(r[1..]));
        }
        assert [s[0]] + s[1..] == s;
      }
    }
  }

  lemma SplitAt(s: string, p: nat)
    requires p < |s|
    ensures s[p] == '/' ==> Split(s[p..]) == [""] + Split(s[p + 1..])
    ensures s[p] != '/' ==> Split(s[p..]) == [[s[p]] + Split(s[p + 1..])[0]] + Split(s[p + 1..])[1..]
  {
    assert s[p..][1..] == s[p + 1..];
  }

  lemma {:induction false} SplitComponent(c: string, rest: string)
    requires '/' !in c
    ensures Split(c + rest) == Unfolded(c, rest)
  {
    if c == "" {
      assert c + rest == rest;
      UnfoldedEmpty(rest);
    } else {
      var t := c[1..];
      assert (c + rest)[1..] == t + rest;
      SplitComponent(t, rest);
      assert [c[0]] + (t + Split(rest)[0]) == c + Split(rest)[0];
    }
  }

  // ----- normal forms -----

  /** Whatever is folded, only normal components are kept. */
  lemma {:induction false} FoldNormal(stack: seq<string>, climbs: nat, cs: seq<string>)
    requires AllNormal(stack) && forall i :: 0 <= i < |cs| ==> '/' !in cs[i]
    ensures AllNormal(Fold(stack, climbs, cs).stack)
    decreases |cs|
  {
    if cs != [] {
      var t := cs[1..];
      if cs[0] == "" || cs[0] == "." {
        FoldNormal(stack, climbs, t);
      } else if cs[0] == ".." {
        if stack == [] {
          FoldNormal(stack, climbs + 1, t);
        } else {
          FoldNormal(stack[..|stack| - 1], climbs, t);
        }
      } else if !(|cs| > 1 && (climbs >= 2 || |stack| + 1 >= BACK + climbs)) {
        FoldNormal(stack + [cs[0]], climbs, t);
      }
    }
  }

  /** What one more component means: "" and "." nothing, ".." one component less, if
      there is one, and any other is added. */
  lemma {:induction false} FoldSnoc(stack: seq<string>, climbs: nat, cs: seq<string>, c: string)
    requires !Fold(stack, climbs, cs + [c]).fault
    ensures var (f, g) := (Fold(stack, climbs, cs), Fold(stack, climbs, cs + [c]));
      && !f.fault
      && g.stack == (if c == "" || c == "." || (c == ".." && f.stack == []) then f.stack
                     else if c == ".." then f.stack[..|f.stack| - 1]
                     else f.stack + [c])
      && g.climbs == f.climbs + if c == ".." && f.stack == [] then 1 else 0
    decreases |cs|
  {
    var ds := cs + [c];
    if cs == [] {
      assert ds == [c] && ds[1..] == [];
    } else {
      assert ds[0] == cs[0] && ds[1..] == cs[1..] + [c];
      if cs[0] == "" || cs[0] == "." {
        FoldSnoc(stack, climbs, cs[1..], c);
      } else if cs[0] == ".." {
        if stack == [] { FoldSnoc(stack, climbs + 1, cs[1..], c); }
        else { FoldSnoc(stack[..|stack| - 1], climbs, cs[1..], c); }
      } else {
        FoldSnoc(stack + [cs[0]], climbs, cs[1..], c);
      }
    }
  }

  /** Folding a rendered directory prefix gives the directories back. */
  lemma {:induction false} FoldDirs(stack: seq<string>, rest: string)
    requires AllNormal(stack) && |stack| < BACK
    ensures Fold([], 0, Split(Dirs(stack) + rest)) == Fold(stack, 0, Split(rest))
    decreases |stack|
  {
    if stack == [] {
      var s := "/" + rest;
      assert s[1..] == rest;
      assert ([""] + Split(rest))[1..] == Split(rest);
    } else {
      var init, c := stack[..|stack| - 1], stack[|stack| - 1];
      var more := "/" + rest;
      assert Dirs(stack) + rest == Dirs(init) + (c + more);
      FoldDirs(init, c + more);
      SplitComponent(c, more);
      assert more[1..] == rest && c + "" == c;
      var cs := [c] + Split(rest);
      assert Unfolded(c, more) == cs by {
        assert ([""] + Split(rest))[1..] == Split(rest);
      }
      assert cs[1..] == Split(rest) && init + [c] == stack;
    }
  }

  /** Directories nested too deep overrun the backtrack array. */
  lemma {:induction false} FoldDeep(stack: seq<string>, rest: string)
    requires AllNormal(stack) && |stack| >= BACK
    ensures Fold([], 0, Split(Dirs(stack) + rest)).fault
    decreases |stack|
  {
    var init, c := stack[..|stack| - 1], stack[|stack| - 1];
    var more := "/" + rest;
    assert Dirs(stack) + rest == Dirs(init) + (c + more);
    if |stack| > BACK {
      FoldDeep(init, c + more);
    } else {
      FoldDirs(init, c + more);
      SplitComponent(c, more);
      assert more[1..] == rest && c + "" == c;
      assert Unfolded(c, more) == [c] + Split(rest) by {
        assert ([""] + Split(rest))[1..] == Split(rest);
      }
    }
  }

  /** A fold that does not overrun stays within the array, also with the last
      component if that is not kept. */
  lemma {:induction false} FoldBound(stack: seq<string>, climbs: nat, cs: seq<string>)
    requires |stack| < BACK + climbs && !Fold(stack, climbs, cs).fault
    ensures var f := Fold(stack, climbs, cs);
      && climbs <= f.climbs && |f.stack| <= BACK + f.climbs
      && (cs == [] || cs[|cs| - 1] == "" ==> |f.stack| < BACK + f.climbs)
    decreases |cs|
  {
    if cs != [] {
      var t := cs[1..];
      assert t != [] ==> t[|t| - 1] == cs[|cs| - 1];
      if cs[0] == "" || cs[0] == "." {
        FoldBound(stack, climbs, t);
      } else if cs[0] == ".." {
        if stack == [] {
          FoldBound(stack, climbs + 1, t);
        } else {
          FoldBound(stack[..|stack| - 1], climbs, t);
        }
      } else if t != [] {
        FoldBound(stack + [cs[0]], climbs, t);
      }
    }
  }

  /** How many components of a rendering are closed by a slash. */
  function Closed(stack: seq<string>, slash: bool): nat { if slash || stack == [] then |stack| else |stack| - 1 }

  /** Normalising is idempotent: a rendering folds to the components it was made
      of, never climbs, and ends in a slash as asked (or is the root). This is so
      exactly unless it is deep enough to overrun the backtrack array, which it
      is not if the path did not climb. */
  lemma {:induction false} RenderedIsNormal(path: string, slash: bool)
    requires !Fold([], 0, Split(path)).fault
    ensures var f := Fold([], 0, Split(path));
      && AllNormal(f.stack)
      && (Fold([], 0, Split(Render(f.stack, slash))) == Folded(f.stack, 0, false) <==> Closed(f.stack, slash) < BACK)
      && (f.climbs == 0 && slash == EndsInSlash(path) ==> Closed(f.stack, slash) < BACK)
      && (EndsInSlash(Render(f.stack, slash)) <==> slash || f.stack == [])
      && Render(f.stack, EndsInSlash(Render(f.stack, slash))) == Render(f.stack, slash)
  {
    hide Fold;
    SplitNoSlash(path);
    FoldNormal([], 0, Split(path));
    FoldBound([], 0, Split(path));
    SplitLast(path);
    var stack := Fold([], 0, Split(path)).stack;
    RenderedFolds(stack, slash);
    RenderedEnds(stack, slash);
  }

  lemma {:induction false} SplitLast(path: string)
    ensures EndsInSlash(path) ==> Split(path)[|Split(path)| - 1] == ""
  {
    if EndsInSlash(path) {
      var r := Split(path[1..]);
      if |path| > 1 { SplitLast(path[1..]); }
      if path[0] != '/' && |r| == 1 { SplitOne(path[1..]); }
    }
  }

  lemma {:induction false} SplitOne(path: string)
    requires |Split(path)| == 1
    ensures '/' !in path
  {
    if path != "" { SplitOne(path[1..]); }
  }

  lemma {:induction false} RenderedFolds(stack: seq<string>, slash: bool)
    requires AllNormal(stack)
    ensures Fold([], 0, Split(Render(stack, slash))) == Folded(stack, 0, false) <==> Closed(stack, slash) < BACK
  {
    if stack == [] {
      FoldDirs([], "");
      assert Dirs([]) + "" == "/";
    } else if slash {
      assert Dirs(stack) + "" == Dirs(stack);
      if |stack| < BACK { FoldDirs(stack, ""); } else { FoldDeep(stack, ""); }
    } else {
      var init, c := stack[..|stack| - 1], stack[|stack| - 1];
      if |init| >= BACK {
        FoldDeep(init, c);
      } else {
        FoldDirs(init, c);
        SplitComponent(c, "");
        assert c + "" == c && init + [c] == stack;
        assert Split(c) == [c];
        assert [c][1..] == [];
      }
    }
  }

  lemma {:induction false} RenderedEnds(stack: seq<string>, slash: bool)
    requires AllNormal(stack)
    ensures EndsInSlash(Render(stack, slash)) <==> slash || stack == []
  {
    if stack != [] {
      if slash {
        DirsLength(stack);
      } else {
        var c := stack[|stack| - 1];
        assert c[|c| - 1] in c;
      }
    }
  }

  // ----- the state of the writer -----

  /** The components still to be folded when cur was copied of the current one. */
  function Unfolded(cur: string, rest: string): seq<string> {
    [cur + Split(rest)[0]] + Split(rest)[1..]
  }

  lemma UnfoldedAt(path: string, p: nat, cur: string)
    requires p < |path|
    ensures path[p] == '/' ==> Unfolded(cur, path[p..]) == [cur] + Split(path[p + 1..])
    ensures path[p] != '/' ==> Unfolded(cur, path[p..]) == Unfolded(cur + [path[p]], path[p + 1..])
  {
    SplitAt(path, p);
    if path[p] == '/' {
      assert cur + "" == cur;
      assert ([""] + Split(path[p + 1..]))[1..] == Split(path[p + 1..]);
    } else {
      var r := Split(path[p + 1..]);
      var q := [[path[p]] + r[0]] + r[1..];
      assert q[1..] == r[1..];
      assert cur + ([path[p]] + r[0]) == cur + [path[p]] + r[0];
    }
  }

  lemma UnfoldedEmpty(rest: string)
    ensures Unfolded("", rest) == Split(rest)
  {
    assert "" + Split(rest)[0] == Split(rest)[0];
  }

  /** Folding skips empty and "." components and acts on "..". */
  lemma FoldSkips(stack: seq<string>, climbs: nat, path: string, p: nat)
    requires p <= |path|
    ensures At(path, p, '/') ==> Fold(stack, climbs, Split(path[p..])) == Fold(stack, climbs, Split(path[p + 1..]))
    ensures At(path, p, '.') && EndsAfter(path[p..], 1) ==>
      Fold(stack, climbs, Split(path[p..])) == Fold(stack, climbs, Split(path[p + 1..]))
    ensures At(path, p, '.') && At(path, p + 1, '.') && EndsAfter(path[p..], 2) ==>
      Fold(stack, climbs, Split(path[p..]))
      == if stack == [] then Fold(stack, climbs + 1, Split(path[p + 2..]))
         else Fold(stack[..|stack| - 1], climbs, Split(path[p + 2..]))
  {
    if p < |path| {
      var s := Split(path[p..]);
      SplitAt(path, p);
      SplitHead(path[p..]);
      SplitHead(path[p + 1..]);
      if path[p] == '/' {
        assert s[1..] == Split(path[p + 1..]);
      } else {
        assert s[1..] == Split(path[p + 1..])[1..];
        if At(path, p + 1, '.') && EndsAfter(path[p..], 2) {
          SplitAt(path, p + 1);
          SplitHead(path[p + 2..]);
          assert EndsAfter(path[p + 2..], 0);
          assert Split(path[p + 1..])[1..] == Split(path[p + 2..])[1..];
        }
        if EndsAfter(path[p..], 1) {
          assert EndsAfter(path[p + 1..], 0);
        }
      }
    }
  }

  // ----- slash positions -----

  /** Where the i-th directory's closing slash is. */
  function SlashPos(stack: seq<string>, i: nat): int
    requires i <= |stack|
  {
    |Dirs(stack[..i])| - 1
  }

  lemma DirsLength(stack: seq<string>)
    requires AllNormal(stack)
    ensures |Dirs(stack)| >= 2 * |stack| + 1
    ensures Dirs(stack)[0] == '/' && Dirs(stack)[|Dirs(stack)| - 1] == '/'
  {
    if stack != [] {
      DirsLength(stack[..|stack| - 1]);
    }
  }

  lemma DirsPrefix(stack: seq<string>, i: nat)
    requires i <= |stack|
    ensures Dirs(stack[..i]) <= Dirs(stack)
    ensures |Dirs(stack[..i])| >= 1
  {
    if i < |stack| {
      var init := stack[..|stack| - 1];
      DirsPrefix(init, i);
      assert init[..i] == stack[..i];
    } else {
      assert stack[..i] == stack;
    }
  }

  /** The backtrack stack: entry i - climbs holds slash position i. */
  ghost predicate Backs(back: seq<int>, n: int, stack: seq<string>, climbs: nat) {
    && n == |stack| + 1 - climbs && n <= |back|
    && (forall i :: 0 <= i && climbs <= i <= |stack| ==> back[i - climbs] == SlashPos(stack, i))
  }

  lemma BacksPush(back: seq<int>, n: int, stack: seq<string>, climbs: nat, cur: string)
    requires Backs(back, n, stack, climbs) && 0 <= n < |back|
    ensures SlashPos(stack + [cur], |stack| + 1) == |Dirs(stack)| + |cur|
    ensures Backs(back[n := |Dirs(stack)| + |cur|], n + 1, stack + [cur], climbs)
  {
    var stack' := stack + [cur];
    assert stack'[..|stack|] == stack && stack'[..|stack'|] == stack';
    var back' := back[n := |Dirs(stack)| + |cur|];
    assert Dirs(stack') == Dirs(stack) + cur + "/";
    forall i | 0 <= i && climbs <= i <= |stack'| ensures back'[i - climbs] == SlashPos(stack', i) {
      if i <= |stack| {
        assert stack'[..i] == stack[..i];
        assert back'[i - climbs] == back[i - climbs] == SlashPos(stack, i);
      } else {
        assert i - climbs == n && SlashPos(stack', i) == |Dirs(stack)| + |cur|;
      }
    }
  }

  lemma BacksPop(back: seq<int>, n: int, stack: seq<string>, climbs: nat)
    requires Backs(back, n, stack, climbs) && stack != []
    ensures Backs(back, n - 1, stack[..|stack| - 1], climbs)
    ensures n - 1 > 0 ==> back[n - 2] == |Dirs(stack[..|stack| - 1])| - 1
  {
    var init := stack[..|stack| - 1];
    forall i | climbs <= i <= |init| ensures SlashPos(init, i) == SlashPos(stack, i) {
      assert init[..i] == stack[..i];
    }
    if n - 1 > 0 {
      assert init[..|init|] == init;
      assert back[|init| - climbs] == SlashPos(stack, |init|);
    }
  }

  // ----- the normaliser -----

  /** TooLong is ENAMETOOLONG; Fault an access outside the backtrack array. */
  datatype Outcome = Ok(out: string) | TooLong | Fault

  /** The writer has just written a slash, and p is at the start of a component. */
  ghost predicate AtDir(path: string, p: int, out: string, back: seq<int>, n: int, stack: seq<string>, climbs: nat,
                        total: Folded) {
    && 0 <= p <= |path| && out == Dirs(stack) && Backs(back, n, stack, climbs)
    && AllNormal(stack) && (climbs <= 1 || stack == [])
    && Fold(stack, climbs, Split(path[p..])) == total
  }

  /** Same, with cur copied of a component that will be kept. */
  ghost predicate InDir(path: string, p: int, out: string, back: seq<int>, n: int, stack: seq<string>, climbs: nat,
                        total: Folded, cur: string) {
    && 0 < p <= |path| && out == Dirs(stack) + cur && Backs(back, n, stack, climbs)
    && AllNormal(stack) && (climbs <= 1 || stack == [])
    && Fold(stack, climbs, Unfolded(cur, path[p..])) == total
    && (p < |path| || cur != "" ==> Normal(Unfolded(cur, path[p..])[0]))
    && (cur != "" ==> path[p - 1] != '/')
  }

  lemma SkipState(path: string, p: nat, out: string, back: seq<int>, n: int, stack: seq<string>, climbs: nat,
                  total: Folded)
    requires AtDir(path, p, out, back, n, stack, climbs, total)
    requires At(path, p, '/') || (At(path, p, '.') && (p + 1 == |path| || path[p + 1] == '/'))
    ensures AtDir(path, p + 1, out, back, n, stack, climbs, total)
  {
    FoldSkips(stack, climbs, path, p);
  }

  lemma OutStarts(path: string, p: nat, out: string, back: seq<int>, n: int, stack: seq<string>, climbs: nat,
                  total: Folded)
    requires AtDir(path, p, out, back, n, stack, climbs, total)
    ensures |out| > 0 && out[0] == '/'
  {
    DirsLength(stack);
  }

  lemma PopState(path: string, p: nat, out: string, back: seq<int>, n: int, stack: seq<string>, climbs: nat,
                 total: Folded)
    requires AtDir(path, p, out, back, n, stack, climbs, total)
    requires At(path, p, '.') && At(path, p + 1, '.') && (p + 2 == |path| || path[p + 2] == '/')
    ensures var q := if n - 1 > 0 then back[n - 2] + 1 else 1;
      && 1 <= q <= |out| && |back| >= n && (n - 1 > 0 ==> back[n - 2] >= 0)
      && AtDir(path, p + 2, out[..q], back, n - 1, if stack == [] then [] else stack[..|stack| - 1],
               if stack == [] then climbs + 1 else climbs, total)
  {
    FoldSkips(stack, climbs, path, p);
    DirsLength(stack);
    if stack != [] {
      var init := stack[..|stack| - 1];
      BacksPop(back, n, stack, climbs);
      DirsPrefix(stack, |init|);
      DirsLength(init);
      if n - 1 <= 0 {
        assert init == [];
      }
    } else {
      assert out[..1] == "/";
    }
  }

  lemma PushState(path: string, p: nat, out: string, back: seq<int>, n: int, stack: seq<string>, climbs: nat,
                  total: Folded, cur: string)
    requires InDir(path, p, out, back, n, stack, climbs, total, cur) && At(path, p, '/')
    requires |back| == BACK
    ensures n < 0 || n >= BACK ==> total.fault
    ensures 0 <= n < BACK ==> AtDir(path, p + 1, out + "/", back[n := |out|], n + 1, stack + [cur], climbs, total)
  {
    UnfoldedAt(path, p, cur);
    var cs := [cur] + Split(path[p + 1..]);
    assert cs[1..] == Split(path[p + 1..]);
    DirsLength(stack);
    if 0 <= n < |back| {
      BacksPush(back, n, stack, climbs, cur);
      assert (stack + [cur])[..|stack|] == stack;
    }
  }

  lemma FirstSlash(path: string, back: seq<int>)
    requires At(path, 0, '/') && |back| > 0
    ensures AtDir(path, 1, "/", back[0 := 0], 1, [], 0, Fold([], 0, Split(path)))
  {
    FoldSkips([], 0, path, 0);
    assert path[0..] == path;
  }

  /** Leaving the skipping loop: what comes next is kept. */
  lemma KeepNext(path: string, p: nat, out: string, back: seq<int>, n: int, stack: seq<string>, climbs: nat,
                 total: Folded)
    requires p > 0 && AtDir(path, p, out, back, n, stack, climbs, total)
    requires Kept(path, p)
    ensures InDir(path, p, out, back, n, stack, climbs, total, "")
  {
    UnfoldedEmpty(path[p..]);
    SplitHead(path[p..]);
    SplitNoSlash(path[p..]);
    assert out + "" == out;
  }

  lemma CopyChar(path: string, p: nat, out: string, back: seq<int>, n: int, stack: seq<string>, climbs: nat,
                 total: Folded, cur: string)
    requires InDir(path, p, out, back, n, stack, climbs, total, cur) && p < |path| && path[p] != '/'
    ensures InDir(path, p + 1, out + [path[p]], back, n, stack, climbs, total, cur + [path[p]])
  {
    UnfoldedAt(path, p, cur);
    assert Dirs(stack) + cur + [path[p]] == Dirs(stack) + (cur + [path[p]]);
  }

  /** The writer's final strip gives the rendering. */
  lemma Finish(path: string, out: string, back: seq<int>, n: int, stack: seq<string>, climbs: nat, total: Folded,
               cur: string)
    requires InDir(path, |path|, out, back, n, stack, climbs, total, cur) && path[0] == '/'
    ensures !total.fault
    ensures var strip := |path| > 1 && path[|path| - 1] != '/' && |out| > 1 && out[|out| - 1] == '/';
      (if strip then out[..|out| - 1] else out) == Render(total.stack, EndsInSlash(path))
  {
    DirsLength(stack);
    assert Unfolded(cur, path[|path|..]) == [cur] by { assert cur + "" == cur; }
    assert Fold(stack, climbs, [cur]) == Folded(if cur == "" then stack else stack + [cur], climbs, false) by {
      assert [cur][1..] == [];
    }
    if cur != "" {
      assert (stack + [cur])[..|stack|] == stack;
      assert out[|out| - 1] == cur[|cur| - 1] && cur[|cur| - 1] in cur;
    } else {
      assert out == Dirs(stack);
      if stack != [] {
        assert out[..|out| - 1] == Dirs(stack[..|stack| - 1]) + stack[|stack| - 1];
      }
    }
  }

  datatype Step = Go | Stop(r: Outcome)

  /** skip_slashes: pass over slashes, "." and "..", backtracking on the latter. */
  method Skip(path: string, size: nat, buf: array<char>, back: array<int>, p0: nat, q0: nat, n0: int, ghost abs: bool,
              ghost stack0: seq<string>, ghost climbs0: nat, ghost total: Folded)
    returns (st: Step, p: nat, q: nat, n: int, ghost stack: seq<string>, ghost climbs: nat)
    requires buf.Length == size && back.Length == BACK
    requires 0 < p0 <= |path| && 0 < q0 < size && n0 <= BACK
    requires forall i :: 0 <= i < n0 ==> -1 <= back[i] < size - 1
    requires abs ==> AtDir(path, p0, buf[..q0], back[..], n0, stack0, climbs0, total) && q0 <= p0
    modifies buf, back
    ensures p0 <= p <= |path|
    ensures st.Stop? ==> !abs && !st.r.Ok?
    ensures st.Go? ==> 0 < q < size && n <= BACK && forall i :: 0 <= i < n ==> -1 <= back[i] < size - 1
    ensures abs ==> q <= p && InDir(path, p, buf[..q], back[..], n, stack, climbs, total, "")
  {
    hide AtDir, InDir;
    st, p, q, n, stack, climbs := Go, p0, q0, n0, stack0, climbs0;
    if abs {
      OutStarts(path, p, buf[..q], back[..], n, stack, climbs, total);
      assert buf[0] == buf[..q][0];
    }
    var again := true;
    while again
      invariant p0 <= p <= |path| && 0 < q < size && n <= BACK
      invariant abs ==> q <= p && buf[0] == '/'
      invariant forall i :: 0 <= i < n ==> -1 <= back[i] < size - 1
      invariant abs ==> AtDir(path, p, buf[..q], back[..], n, stack, climbs, total)
      invariant !again ==> Kept(path, p)
      decreases |path| - p, again
    {
      while p < |path| && path[p] == '/'
        modifies {}
        invariant p0 <= p <= |path| && (abs ==> q <= p)
        invariant abs ==> AtDir(path, p, buf[..q], back[..], n, stack, climbs, total)
      {
        if abs { SkipState(path, p, buf[..q], back[..], n, stack, climbs, total); }
        p := p + 1;
      }
      if p < |path| && path[p] == '.' && (p + 1 == |path| || path[p + 1] == '/') {
        if abs { SkipState(path, p, buf[..q], back[..], n, stack, climbs, total); }
        p := p + 1;
      } else if p + 1 < |path| && path[p] == '.' && path[p + 1] == '.' && (p + 2 == |path| || path[p + 2] == '/') {
        if abs {
          PopState(path, p, buf[..q], back[..], n, stack, climbs, total);
          climbs := if stack == [] then climbs + 1 else climbs;
          stack := if stack == [] then [] else stack[..|stack| - 1];
        }
        ghost var out0 := buf[..q];
        n := n - 1;
        if n > 0 {
          if back[n - 1] >= 0 { q := back[n - 1] + 1; }
        } else if q > 0 && buf[0] == '/' {
          q := 1;
        } else {
          if q + 4 >= size { return Stop(TooLong), p, q, n, stack, climbs; }
          buf[q], buf[q + 1], buf[q + 2] := '.', '.', '/';
          q := q + 3;
          if n < 0 { return Stop(Fault), p, q, n, stack, climbs; }
          back[n] := -1;
        }
        if abs { assert out0[..q] == buf[..q]; }
        p := p + 2;
      } else {
        again := false;
      }
    }
    if abs { KeepNext(path, p, buf[..q], back[..], n, stack, climbs, total); }
  }

  /** back[n++] = q - buf, and the slash itself. */
  method WriteSlash(buf: array<char>, back: array<int>, q: nat, n: nat)
    requires q < buf.Length && n < back.Length
    modifies buf, back
    ensures buf[..q + 1] == old(buf[..q]) + "/" && back[..] == old(back[..])[n := q]
    ensures q == 0 ==> buf[..q + 1] == "/"
  {
    back[n] := q;
    buf[q] := '/';
  }

  /** The component at p is one that Skip stops at. */
  predicate Kept(path: string, p: int) {
    0 <= p <= |path| && !At(path, p, '/')
    && !(At(path, p, '.') && (p + 1 == |path| || path[p + 1] == '/'))
    && !(At(path, p, '.') && At(path, p + 1, '.') && (p + 2 == |path| || path[p + 2] == '/'))
  }

  /** iot_normalize_path. For an absolute path the result is the rendering of the
      folded components; it is refused for lack of space only if the path would
      not fit the buffer unnormalised, and otherwise goes out of bounds of the
      backtrack array exactly if the fold does. */
  method Normalize(path: string, size: nat) returns (r: Outcome)
    ensures path == "" ==> r == if size > 0 then Ok("") else TooLong
    ensures At(path, 0, '/') ==>
      var f := Fold([], 0, Split(path));
      && (r.Ok? ==> !f.fault && r.out == Render(f.stack, EndsInSlash(path)) && |r.out| < size)
      && (r.TooLong? ==> size <= |path|)
      && (r.Fault? ==> f.fault)
      && (f.fault ==> !r.Ok?)
      && (size > |path| ==> (r.Fault? <==> f.fault))
  {
    hide AtDir, InDir, Fold, Render, Split;
    if path == "" {
      return if size > 0 then Ok("") else TooLong;
    }
    var buf, back := new char[size], new int[BACK];
    var p, q, n := 0, 0, 0;
    ghost var abs := path[0] == '/';
    ghost var total := Fold([], 0, Split(path));
    ghost var stack, climbs, cur := [], 0, "";
    while p < |path|
      invariant 0 <= p <= |path| && 0 <= q && (p > 0 ==> q < size) && n <= BACK
      invariant abs ==> q <= p
      invariant forall i :: 0 <= i < n ==> -1 <= back[i] < size - 1
      invariant p == 0 ==> q == 0 && n == 0 && climbs == 0
      invariant abs && p > 0 ==> InDir(path, p, buf[..q], back[..], n, stack, climbs, total, cur)
    {
      if q + 1 >= size { return TooLong; }
      if path[p] == '/' {
        if abs && p > 0 {
          PushState(path, p, buf[..q], back[..], n, stack, climbs, total, cur);
        } else if abs {
          FirstSlash(path, back[..]);
        }
        if n < 0 || n >= BACK { return Fault; }
        if abs { stack := if p > 0 then stack + [cur] else []; }
        WriteSlash(buf, back, q, n);
        p, q, n := p + 1, q + 1, n + 1;
        var st;
        st, p, q, n, stack, climbs := Skip(path, size, buf, back, p, q, n, abs, stack, climbs, total);
        if st.Stop? { return st.r; }
        cur := "";
      } else {
        ghost var out0 := buf[..q];
        buf[q] := path[p];
        assert buf[..q + 1] == out0 + [path[p]];
        if abs {
          CopyChar(path, p, out0, back[..], n, stack, climbs, total, cur);
        }
        cur := cur + [path[p]];
        p, q := p + 1, q + 1;
      }
    }
    if abs { Finish(path, buf[..q], back[..], n, stack, climbs, total, cur); }
    if p > 1 && path[p - 1] != '/' && q > 1 && buf[q - 1] == '/' {
      assert buf[..q][..q - 1] == buf[..q - 1];
      q := q - 1;
    }
    return Ok(buf[..q]);
  }
}
