/** Creating a directory hierarchy, all or nothing, over an abstract file system. */
module Mkdir {
  import opened Path

  // ----- file systems -----

  type Node = seq<string>
  datatype Kind = Dir | Other
  type Fs = map<Node, Kind>

  ghost predicate WellFormed(fs: Fs) {
    && [] in fs && fs[[]] == Dir
    && forall n :: n in fs && n != [] ==> n[..|n| - 1] in fs && fs[n[..|n| - 1]] == Dir
  }

  /** The components of a path, empty ones left out; "." and ".." count. */
  function Comps(s: string): seq<string> { NonEmpty(Split(s)) }

  function NonEmpty(cs: seq<string>): seq<string> {
    if cs == [] then [] else if cs[0] == "" then NonEmpty(cs[1..]) else [cs[0]] + NonEmpty(cs[1..])
  }

  function Step1(n: Node, c: string): Node {
    if c == "." then n
    else if c == ".." then if n == [] then [] else n[..|n| - 1]
    else n + [c]
  }

  /** Path resolution (without symbolic links). */
  function WalkTo(n: Node, cs: seq<string>): Node {
    if cs == [] then n else Step1(WalkTo(n, cs[..|cs| - 1]), cs[|cs| - 1])
  }

  function Base(cwd: Node, path: string): Node { if At(path, 0, '/') then [] else cwd }

  function Resolve(cwd: Node, path: string): Node { WalkTo(Base(cwd, path), Comps(path)) }

  ghost predicate HasChild(fs: Fs, n: Node) {
    exists m :: m in fs && m != [] && m[..|m| - 1] == n
  }

  // ----- components of growing paths -----

  lemma NonEmptyConcat(a: seq<string>, b: seq<string>)
    ensures NonEmpty(a + b) == NonEmpty(a) + NonEmpty(b)
  {
    if a == [] {
      assert a + b == b;
    } else {
      assert (a + b)[1..] == a[1..] + b;
      NonEmptyConcat(a[1..], b);
    }
  }

  lemma {:induction false} SplitSlash(a: string, b: string)
    ensures Split(a + "/" + b) == Split(a) + Split(b)
  {
    hide Split;
    var s := a + "/" + b;
    if a == "" {
      assert s == ['/'] + b;
      SplitCons('/', b);
      SplitEmpty();
    } else {
      var c, a', t := a[0], a[1..], a[1..] + "/" + b;
      SplitSlash(a', b);
      SplitCons(c, a');
      SplitCons(c, t);
      assert a == [c] + a';
      assert s == [c] + t;
      Assoc([""], Split(a'), Split(b));
      HeadTail(Split(a'), Split(b));
      Assoc([[c] + Split(a')[0]], Split(a')[1..], Split(b));
    }
  }

  lemma Assoc(x: seq<string>, y: seq<string>, z: seq<string>)
    ensures x + (y + z) == (x + y) + z
  {
  }

  lemma HeadTail(x: seq<string>, y: seq<string>)
    requires x != []
    ensures (x + y)[0] == x[0] && (x + y)[1..] == x[1..] + y
  {
  }

  lemma SplitEmpty()
    ensures Split("") == [""]
  {
  }

  lemma SplitCons(c: char, s: string)
    ensures Split([c] + s) == if c == '/' then [""] + Split(s) else [[c] + Split(s)[0]] + Split(s)[1..]
  {
    assert ([c] + s)[1..] == s;
  }

  lemma CompsSlash(a: string, b: string)
    ensures Comps(a + "/" + b) == Comps(a) + Comps(b)
  {
    SplitSlash(a, b);
    NonEmptyConcat(Split(a), Split(b));
  }

  lemma CompsOne(c: string)
    requires '/' !in c
    ensures Comps(c) == if c == "" then [] else [c]
  {
    SplitComponent(c, "");
    assert c + "" == c;
    var one := [c];
    assert Split(c) == one && one[1..] == [];
    assert NonEmpty(one) == if c == "" then [] else [c] + NonEmpty(one[1..]);
  }

  lemma WalkToAppend(n: Node, cs: seq<string>, c: string)
    ensures WalkTo(n, cs + [c]) == Step1(WalkTo(n, cs), c)
  {
    assert (cs + [c])[..|cs|] == cs;
  }

  // ----- creating and undoing -----

  ghost function AddAll(fs: Fs, created: seq<Node>): Fs {
    if created == [] then fs else AddAll(fs, created[..|created| - 1])[created[|created| - 1] := Dir]
  }

  /** Each node was created when it was missing and its parent was there. */
  ghost predicate CreatedInOrder(fs: Fs, created: seq<Node>) {
    created == [] ||
    var init, n := created[..|created| - 1], created[|created| - 1];
    CreatedInOrder(fs, init) && n !in AddAll(fs, init) && n != []
    && n[..|n| - 1] in AddAll(fs, init) && AddAll(fs, init)[n[..|n| - 1]] == Dir
  }

  lemma AddAllKeeps(fs: Fs, created: seq<Node>)
    requires CreatedInOrder(fs, created)
    ensures forall n :: n in fs ==> n in AddAll(fs, created) && AddAll(fs, created)[n] == fs[n]
    ensures forall n :: n in AddAll(fs, created) ==> n in fs || n in created
    ensures forall n :: n in created ==> n in AddAll(fs, created) && n !in fs
  {
    if created != [] {
      var init, n := created[..|created| - 1], created[|created| - 1];
      AddAllKeeps(fs, init);
      assert created == init + [n];
    }
  }

  lemma AddAllWellFormed(fs: Fs, created: seq<Node>)
    requires WellFormed(fs) && CreatedInOrder(fs, created)
    ensures WellFormed(AddAll(fs, created))
  {
    if created != [] {
      AddAllWellFormed(fs, created[..|created| - 1]);
    }
  }

  /** The directory created last is empty, and removing it undoes one step. */
  lemma LastIsEmpty(fs: Fs, created: seq<Node>)
    requires WellFormed(fs) && CreatedInOrder(fs, created) && created != []
    ensures var n := created[|created| - 1];
      && !HasChild(AddAll(fs, created), n)
      && AddAll(fs, created) - {n} == AddAll(fs, created[..|created| - 1])
  {
    var init, n := created[..|created| - 1], created[|created| - 1];
    var all := AddAll(fs, created);
    AddAllKeeps(fs, init);
    forall m | m in all && m != [] ensures m[..|m| - 1] != n {
      if m in fs {
        assert m[..|m| - 1] in fs;
      } else if m != n {
        assert m in init;
        ParentEarlier(fs, init, m);
      }
    }
  }

  lemma ParentEarlier(fs: Fs, created: seq<Node>, m: Node)
    requires CreatedInOrder(fs, created) && m in created
    ensures m != [] && m[..|m| - 1] in AddAll(fs, created)
  {
    var init, n := created[..|created| - 1], created[|created| - 1];
    assert created == init + [n];
    if m != n {
      ParentEarlier(fs, init, m);
    }
  }

  // ----- iot_mkdir -----

  /** What may go wrong at the k-th component. */
  datatype Failure = NoFailure | StatFails | MkdirFails | LabelFails

  datatype Result = Done | BadPath | TooLong | StatError | NotDir | MkdirError | LabelError

  const PATH_MAX: nat := 4096

  /** All directories from base down the components exist. */
  ghost predicate Reached(fs: Fs, base: Node, cs: seq<string>) {
    forall i :: 0 <= i <= |cs| ==> WalkTo(base, cs[..i]) in fs && fs[WalkTo(base, cs[..i])] == Dir
  }

  /** The failure of a system call that a result stands for. */
  ghost predicate Blames(r: Result, f: Failure, labels: bool) {
    && (r.StatError? ==> f == StatFails)
    && (r.MkdirError? ==> f == MkdirFails)
    && (r.LabelError? ==> f == LabelFails && labels)
  }

  /** Something on the way is there and is no directory. */
  ghost predicate Blocked(fs: Fs, cwd: Node, path: string) {
    exists n :: n in fs && fs[n] == Other && OnPath(cwd, path, n)
  }

  /** Something on the way is missing. */
  ghost predicate Lacking(fs: Fs, cwd: Node, path: string) {
    exists n :: n !in fs && OnPath(cwd, path, n)
  }

  /** What has to be so in the file system for a call to fail like this. */
  ghost predicate Causes(r: Result, fs: Fs, cwd: Node, path: string) {
    && (r.NotDir? ==> Blocked(fs, cwd, path))
    && (r.MkdirError? || r.LabelError? ==> Lacking(fs, cwd, path))
  }

  /** Check or create one prefix: stat, mkdir, label. */
  method Ensure(fs0: Fs, cwd: Node, text: string, labels: bool, f: Failure) returns (r: Result, fs: Fs, made: bool)
    ensures r == Done ==> Resolve(cwd, text) in fs && fs[Resolve(cwd, text)] == Dir
    ensures r == Done ==> (made <==> Resolve(cwd, text) !in fs0)
    ensures r != Done ==> !made
    ensures r.LabelError? || r.MkdirError? ==> Resolve(cwd, text) !in fs0
    ensures r.LabelError? ==> labels && f == LabelFails
    ensures r.LabelError? || made ==> fs == fs0[Resolve(cwd, text) := Dir]
    ensures !r.LabelError? && !made ==> fs == fs0
    ensures !r.TooLong? && !r.BadPath? && Blames(r, f, labels)
    ensures r.NotDir? ==> Resolve(cwd, text) in fs0 && fs0[Resolve(cwd, text)] == Other
  {
    fs, made := fs0, false;
    var n := Resolve(cwd, text);
    if f == StatFails { return StatError, fs, made; }
    if n !in fs {
      if f == MkdirFails { return MkdirError, fs, made; }
      fs := fs[n := Dir];
      if labels && f == LabelFails { return LabelError, fs, made; }
      return Done, fs, true;
    }
    return if fs[n] == Dir then Done else NotDir, fs, made;
  }

  /** rmdir: only of an empty directory. */
  method Rmdir(fs0: Fs, cwd: Node, text: string) returns (fs: Fs)
    ensures var n := Resolve(cwd, text);
      fs == if n in fs0 && fs0[n] == Dir && !HasChild(fs0, n) then fs0 - {n} else fs0
  {
    var n := Resolve(cwd, text);
    if n in fs0 && fs0[n] == Dir && !(exists m :: m in fs0 && m != [] && m[..|m| - 1] == n) {
      fs := fs0 - {n};
    } else {
      fs := fs0;
    }
  }

  /** The undo stack names, in buf, exactly the directories created. */
  ghost predicate Undos(cwd: Node, buf: string, undo: seq<nat>, created: seq<Node>) {
    && |undo| == |created|
    && (forall i :: 0 <= i < |undo| ==> undo[i] <= |buf| && Resolve(cwd, buf[..undo[i]]) == created[i])
  }

  /** Removing what the top of the undo stack names takes back one creation. */
  lemma UndoOne(fs: Fs, created: seq<Node>, n: nat, cwd: Node, buf: string, undo: seq<nat>)
    requires WellFormed(fs) && 0 < n <= |created| && CreatedInOrder(fs, created[..n]) && Undos(cwd, buf, undo, created)
    ensures undo[n - 1] <= |buf|
    ensures var all, m := AddAll(fs, created[..n]), Resolve(cwd, buf[..undo[n - 1]]);
      && m in all && all[m] == Dir && !HasChild(all, m) && all - {m} == AddAll(fs, created[..n - 1])
    ensures CreatedInOrder(fs, created[..n - 1])
  {
    hide WellFormed, HasChild, Resolve;
    var left := created[..n];
    assert left[|left| - 1] == created[n - 1] && left[..|left| - 1] == created[..n - 1];
    LastIsEmpty(fs, left);
  }

  /** The clean-up loop restores the file system. */
  method CleanUp(fs0: Fs, cwd: Node, buf: string, undo: seq<nat>, ghost before: Fs,
                 ghost created: seq<Node>) returns (fs: Fs)
    requires WellFormed(before) && CreatedInOrder(before, created) && Undos(cwd, buf, undo, created)
    requires fs0 == AddAll(before, created)
    ensures fs == before
  {
    hide WellFormed, CreatedInOrder, AddAll, HasChild, Resolve;
    fs := fs0;
    var n := |undo|;
    assert created[..n] == created;
    while n > 0
      invariant 0 <= n <= |undo| && CreatedInOrder(before, created[..n]) && fs == AddAll(before, created[..n])
    {
      UndoOne(before, created, n, cwd, buf, undo);
      n := n - 1;
      fs := Rmdir(fs, cwd, buf[..undo[n]]);
    }
    AddNone(before);
  }

  lemma AddNone(fs: Fs)
    ensures AddAll(fs, []) == fs
  {
  }

  /** The same loop after a directory could not be labelled: that directory is
      not on the undo stack, and stays. */
  method CleanUpLabelled(fs0: Fs, cwd: Node, buf: string, undo: seq<nat>, ghost before: Fs, ghost created: seq<Node>,
                         ghost stray: Node)
    returns (fs: Fs)
    requires Undos(cwd, buf, undo, created) && CreatedInOrder(before, created)
    requires stray in fs0 && stray !in created
    requires forall n :: n in before ==> n in fs0 && fs0[n] == before[n]
    ensures stray in fs
    ensures forall n :: n in before ==> n in fs && fs[n] == before[n]
  {
    fs := fs0;
    var n := |undo|;
    AddAllKeeps(before, created);
    while n > 0
      invariant 0 <= n <= |undo| && stray in fs
      invariant forall m :: m in before ==> m in fs && fs[m] == before[m]
    {
      n := n - 1;
      assert created[n] in created;
      fs := Rmdir(fs, cwd, buf[..undo[n]]);
    }
  }

  /** Where the copying loop is: done of the path is checked, then, behind a
      slash unless nothing was checked before, cur is copied of a component. */
  ghost predicate Copying(path: string, p: int, out: string, done: string, sep: bool, cur: string) {
    && 0 <= p <= |path| && out == (if sep then done + "/" + cur else cur)
    && (!sep ==> done == "")
    && '/' !in cur
    && Comps(path) == Comps(done) + Comps(cur + path[p..])
    && (sep && cur == "" ==> p < |path| && path[p] != '/')
    && (At(path, 0, '/') ==> if p == 0 then out == "" else At(out, 0, '/'))
    && (!At(path, 0, '/') ==> !At(out, 0, '/') && (!sep ==> |out| == p))
  }

  lemma Start(path: string)
    ensures Copying(path, 0, "", "", false, "")
  {
    assert path[0..] == path && "" + path == path;
    CompsOne("");
  }

  lemma CopyOn(path: string, p: nat, out: string, done: string, sep: bool, cur: string)
    requires Copying(path, p, out, done, sep, cur) && p < |path| && path[p] != '/'
    ensures Copying(path, p + 1, out + [path[p]], done, sep, cur + [path[p]])
  {
    assert cur + path[p..] == cur + [path[p]] + path[p + 1..];
    assert done + "/" + cur + [path[p]] == done + "/" + (cur + [path[p]]);
  }

  /** Behind a component: done is all of out, and slashes are skipped at p. */
  ghost predicate Between(path: string, p: int, out: string) {
    && 0 <= p <= |path| && Comps(path) == Comps(out) + Comps(path[p..])
    && (At(path, 0, '/') ==> out == "" || At(out, 0, '/'))
    && (!At(path, 0, '/') ==> out != "" && !At(out, 0, '/'))
  }

  /** At the end of a component, out reaches exactly one further than done. */
  lemma CopiedOne(cwd: Node, path: string, p: nat, out: string, done: string, sep: bool, cur: string)
    requires Copying(path, p, out, done, sep, cur) && (p == |path| || path[p] == '/') && out != ""
    ensures cur != "" && Comps(out) == Comps(done) + [cur]
    ensures Base(cwd, out) == Base(cwd, path)
    ensures |out| >= |done| + if sep then 2 else 1
  {
    CompsOne(cur);
    CompsSlash(done, cur);
    if !sep {
      CompsOne("");
      assert Comps("") + [cur] == [cur];
    }
  }

  lemma ToBetween(path: string, p: nat, out: string, done: string, sep: bool, cur: string)
    requires Copying(path, p, out, done, sep, cur) && (p == |path| || path[p] == '/') && path != ""
    ensures Between(path, p, out)
    ensures out == "" ==> done == ""
  {
    hide Comps;
    CompsSlash(done, cur);
    CompsOne("");
    assert Comps(out) == Comps(done) + Comps(cur) by {
      if !sep { assert Comps(done) + Comps(cur) == Comps(cur); }
    }
    assert Comps(cur + path[p..]) == Comps(cur) + Comps(path[p..]) by {
      if p < |path| {
        assert cur + path[p..] == cur + "/" + path[p + 1..];
        CompsSlash(cur, path[p + 1..]);
        SkipSlash(path, p);
      } else {
        assert cur + path[p..] == cur;
      }
    }
    Assoc(Comps(done), Comps(cur), Comps(path[p..]));
  }

  lemma SkipSlash(path: string, p: nat)
    requires At(path, p, '/')
    ensures Comps(path[p..]) == Comps(path[p + 1..])
  {
    assert path[p..] == "" + "/" + path[p + 1..];
    CompsSlash("", path[p + 1..]);
    CompsOne("");
  }

  lemma SkipOn(path: string, p: nat, out: string)
    requires Between(path, p, out) && At(path, p, '/')
    ensures Between(path, p + 1, out)
  {
    SkipSlash(path, p);
  }

  lemma Separate(path: string, p: nat, out: string)
    requires Between(path, p, out) && p < |path| && path[p] != '/'
    ensures p > 0 ==> Copying(path, p, out + "/", out, true, "")
  {
    assert "" + path[p..] == path[p..];
    assert out + "/" + "" == out + "/";
  }

  /** What is in the file system while the loop runs. */
  ghost predicate Progress(fs0: Fs, fs: Fs, cwd: Node, path: string, out: string, done: string, undo: seq<nat>,
                           created: seq<Node>) {
    && WellFormed(fs0) && CreatedInOrder(fs0, created) && fs == AddAll(fs0, created)
    && Undos(cwd, out, undo, created)
    && Comps(done) <= Comps(path) && Reached(fs, Base(cwd, path), Comps(done))
    && (forall n :: n in created ==> OnPath(cwd, path, n))
  }

  /** n is one of the directories the path leads through. */
  ghost predicate OnPath(cwd: Node, path: string, n: Node) {
    exists i :: 0 <= i <= |Comps(path)| && n == WalkTo(Base(cwd, path), Comps(path)[..i])
  }

  lemma Begin(fs: Fs, cwd: Node, path: string)
    requires WellFormed(fs) && cwd in fs && fs[cwd] == Dir
    ensures Progress(fs, fs, cwd, path, "", "", [], [])
  {
    CompsOne("");
  }

  lemma UndosExtend(cwd: Node, buf: string, buf': string, undo: seq<nat>, created: seq<Node>)
    requires Undos(cwd, buf, undo, created) && buf <= buf'
    ensures Undos(cwd, buf', undo, created)
  {
    forall i | 0 <= i < |undo| ensures undo[i] <= |buf'| && Resolve(cwd, buf'[..undo[i]]) == created[i] {
      assert buf'[..undo[i]] == buf[..undo[i]];
    }
  }

  lemma ProgressOn(fs0: Fs, fs: Fs, cwd: Node, path: string, out: string, out': string, done: string, undo: seq<nat>,
                   created: seq<Node>)
    requires Progress(fs0, fs, cwd, path, out, done, undo, created) && out <= out'
    ensures Progress(fs0, fs, cwd, path, out', done, undo, created)
  {
    UndosExtend(cwd, out, out', undo, created);
  }

  /** The prefix out was found to be a directory, or made one. */
  lemma Checked(fs0: Fs, fs: Fs, fs': Fs, made: bool, cwd: Node, path: string, out: string, done: string, cur: string,
                undo: seq<nat>, created: seq<Node>)
    requires Progress(fs0, fs, cwd, path, out, done, undo, created)
    requires cur != "" && Comps(out) == Comps(done) + [cur] && Comps(out) <= Comps(path)
    requires Base(cwd, out) == Base(cwd, path)
    requires var n := Resolve(cwd, out);
      n in fs' && fs'[n] == Dir && (made <==> n !in fs) && fs' == if made then fs[n := Dir] else fs
    ensures var n := Resolve(cwd, out);
      Progress(fs0, fs', cwd, path, out, out, if made then undo + [|out|] else undo,
        if made then created + [n] else created)
  {
    hide Comps, WalkTo, At, WellFormed, Reached, CreatedInOrder, AddAll, Undos;
    var base, n := Base(cwd, path), Resolve(cwd, out);
    CheckedReached(fs, fs', base, Comps(done), cur);
    UndosExtend(cwd, out, out, undo, created);
    if made {
      CheckedParent(fs0, fs, base, Comps(done), cur, created);
      CreatedOneMore(fs0, created, n);
      UndosOneMore(cwd, out, undo, created, n);
      assert OnPath(cwd, path, n) by { assert Comps(path)[..|Comps(out)|] == Comps(out); }
    }
  }

  lemma CreatedOneMore(fs: Fs, created: seq<Node>, n: Node)
    requires CreatedInOrder(fs, created) && n !in AddAll(fs, created) && n != []
    requires n[..|n| - 1] in AddAll(fs, created) && AddAll(fs, created)[n[..|n| - 1]] == Dir
    ensures CreatedInOrder(fs, created + [n]) && AddAll(fs, created + [n]) == AddAll(fs, created)[n := Dir]
  {
    assert (created + [n])[..|created|] == created;
  }

  lemma UndosOneMore(cwd: Node, out: string, undo: seq<nat>, created: seq<Node>, n: Node)
    requires Undos(cwd, out, undo, created) && n == Resolve(cwd, out)
    ensures Undos(cwd, out, undo + [|out|], created + [n])
  {
    hide Comps, WalkTo;
    assert out[..|out|] == out;
  }

  lemma CheckedReached(fs: Fs, fs': Fs, base: Node, cs: seq<string>, cur: string)
    requires Reached(fs, base, cs)
    requires var n := WalkTo(base, cs + [cur]); n in fs' && fs'[n] == Dir
    requires forall m :: m in fs ==> m in fs' && (fs[m] == Dir ==> fs'[m] == Dir)
    ensures Reached(fs', base, cs + [cur])
  {
    var ds := cs + [cur];
    forall i | 0 <= i <= |ds| ensures WalkTo(base, ds[..i]) in fs' && fs'[WalkTo(base, ds[..i])] == Dir {
      if i <= |cs| {
        assert ds[..i] == cs[..i];
      } else {
        assert ds[..i] == ds;
      }
    }
  }

  lemma CheckedParent(fs0: Fs, fs: Fs, base: Node, cs: seq<string>, cur: string, created: seq<Node>)
    requires WellFormed(fs0) && CreatedInOrder(fs0, created) && fs == AddAll(fs0, created)
    requires Reached(fs, base, cs) && WalkTo(base, cs + [cur]) !in fs
    ensures var n := WalkTo(base, cs + [cur]); n != [] && n[..|n| - 1] in fs && fs[n[..|n| - 1]] == Dir
  {
    AddAllWellFormed(fs0, created);
    WalkToAppend(base, cs, cur);
    assert cs[..|cs|] == cs;
    var prev, n := WalkTo(base, cs), WalkTo(base, cs + [cur]);
    assert prev in fs && fs[prev] == Dir;
    assert n == prev + [cur] && n[..|n| - 1] == prev;
  }

  /** All of the path is checked. */
  lemma AllDone(fs0: Fs, fs: Fs, cwd: Node, path: string, out: string, undo: seq<nat>, created: seq<Node>)
    requires Progress(fs0, fs, cwd, path, out, out, undo, created) && Between(path, |path|, out)
    ensures Reached(fs, Base(cwd, path), Comps(path))
    ensures forall n :: n in fs0 ==> n in fs && fs[n] == fs0[n]
    ensures forall n :: n in fs && n !in fs0 ==> OnPath(cwd, path, n)
  {
    AddAllKeeps(fs0, created);
    CompsOne("");
    assert Comps(path) == Comps(out);
  }

  /** What a call promises: on success all prefixes are directories and nothing
      but they was added; on failure nothing changed, unless labelling failed. */
  ghost predicate AllOrNothing(fs0: Fs, fs: Fs, cwd: Node, path: string, r: Result) {
    && (forall n :: n in fs0 ==> n in fs && fs[n] == fs0[n])
    && (r == Done ==>
          Reached(fs, Base(cwd, path), Comps(path)) && forall n :: n in fs && n !in fs0 ==> OnPath(cwd, path, n))
    && (r != Done ==> (fs == fs0 <==> r != LabelError))
  }

  ghost predicate Running(fs0: Fs, fs: Fs, cwd: Node, path: string, p: int, out: string, done: string, sep: bool,
                          cur: string, undo: seq<nat>, created: seq<Node>) {
    && Copying(path, p, out, done, sep, cur) && path != ""
    && Progress(fs0, fs, cwd, path, out, done, undo, created)
    && 2 * |undo| <= |done| + 1 && |done| <= |out|
  }

  lemma RunningStart(fs: Fs, cwd: Node, path: string)
    requires WellFormed(fs) && cwd in fs && fs[cwd] == Dir && path != ""
    ensures Running(fs, fs, cwd, path, 0, "", "", false, "", [], [])
  {
    Start(path);
    Begin(fs, cwd, path);
  }

  lemma RunningCopy(fs0: Fs, fs: Fs, cwd: Node, path: string, p: nat, out: string, done: string, sep: bool, cur: string,
                    undo: seq<nat>, created: seq<Node>)
    requires Running(fs0, fs, cwd, path, p, out, done, sep, cur, undo, created) && p < |path| && path[p] != '/'
    ensures Running(fs0, fs, cwd, path, p + 1, out + [path[p]], done, sep, cur + [path[p]], undo, created)
  {
    hide Copying, Progress;
    CopyOn(path, p, out, done, sep, cur);
    ProgressOn(fs0, fs, cwd, path, out, out + [path[p]], done, undo, created);
  }

  /** iot_mkdir. */
  method MakeDirs(fs0: Fs, cwd: Node, path: string, labels: bool, faults: nat -> Failure) returns (r: Result, fs: Fs)
    requires WellFormed(fs0) && cwd in fs0 && fs0[cwd] == Dir
    ensures AllOrNothing(fs0, fs, cwd, path, r)
    ensures r.BadPath? <==> path == ""
    ensures r.TooLong? ==> |path| >= PATH_MAX - 1
    ensures (exists k :: Blames(r, faults(k), labels)) && Causes(r, fs0, cwd, path)
  {
    fs := fs0;
    if path == "" {
      assert Blames(BadPath, faults(0), labels);
      return BadPath, fs;
    }
    r, fs := MakeAll(fs0, cwd, path, labels, faults);
  }

  method MakeAll(fs0: Fs, cwd: Node, path: string, labels: bool, faults: nat -> Failure) returns (r: Result, fs: Fs)
    requires WellFormed(fs0) && cwd in fs0 && fs0[cwd] == Dir && path != ""
    ensures AllOrNothing(fs0, fs, cwd, path, r) && !r.BadPath?
    ensures r.TooLong? ==> |path| >= PATH_MAX - 1
    ensures (exists k :: Blames(r, faults(k), labels)) && Causes(r, fs0, cwd, path)
  {
    hide Running, AllOrNothing, WellFormed, Blocked, Lacking;
    fs := fs0;
    var buf := new char[PATH_MAX];
    var undo: array<nat> := new nat[PATH_MAX / 2];
    var p, q, n, k := 0, 0, 0, 0;
    ghost var done, sep, cur, created := "", false, "", [];
    RunningStart(fs0, cwd, path);
    assert buf[..0] == "" && undo[..0] == [];
    while true
      invariant 0 <= q <= p <= |path| && q < PATH_MAX && 0 <= n <= undo.Length && 0 <= k
      invariant Running(fs0, fs, cwd, path, p, buf[..q], done, sep, cur, undo[..n], created)
      decreases |path| - p, q == 0
    {
      if q >= PATH_MAX - 1 {
        fs := Abandon(fs, cwd, path, p, buf[..q], done, sep, cur, undo[..n], fs0, created);
        assert Blames(Result.TooLong, faults(k), labels);
        return Result.TooLong, fs;
      }
      if p < |path| && path[p] != '/' {
        RunningCopy(fs0, fs, cwd, path, p, buf[..q], done, sep, cur, undo[..n], created);
        Put(buf, q, path[p]);
        cur, p, q := cur + [path[p]], p + 1, q + 1;
      } else {
        var more;
        more, r, fs, p, n, done, created := Boundary(fs0, fs, cwd, path, p, buf[..q], labels, faults(k), undo, n,
          done, sep, cur, created);
        if !more { return; }
        k := k + 1;
        Put(buf, q, '/');
        sep, cur, q := true, "", q + 1;
      }
    }
  }

  /** The end of a component: check it, then pass over slashes. */
  method Boundary(ghost fs0: Fs, fs: Fs, cwd: Node, path: string, p: nat, out: string, labels: bool, f: Failure,
                  undo: array<nat>, n: nat, ghost done: string, ghost sep: bool, ghost cur: string,
                  ghost created: seq<Node>)
    returns (more: bool, r: Result, fs': Fs, p': nat, n': nat, ghost done': string, ghost created': seq<Node>)
    requires |out| < PATH_MAX - 1 && undo.Length == PATH_MAX / 2 && n <= undo.Length
    requires p == |path| || (p < |path| && path[p] == '/')
    requires Running(fs0, fs, cwd, path, p, out, done, sep, cur, undo[..n], created)
    modifies undo
    ensures more ==> p < p' < |path|
    ensures more ==>
      n' <= undo.Length && Running(fs0, fs', cwd, path, p', out + "/", done', true, "", undo[..n'], created')
    ensures !more ==> AllOrNothing(fs0, fs', cwd, path, r)
    ensures !r.TooLong? && !r.BadPath? && Blames(r, f, labels) && Causes(r, fs0, cwd, path)
  {
    hide Copying, Progress, Between, Comps, Reached, AddAll, CreatedInOrder, WalkTo, Undos, WellFormed, OnPath, At,
      Resolve, Blocked, Lacking;
    more, r, fs', p', n', done', created' := false, Done, fs, p, n, out, created;
    ToBetween(path, p, out, done, sep, cur);
    if out != "" {
      r, fs', n', created' := CheckPrefix(fs0, fs, cwd, path, p, out, labels, f, undo, n, done, sep, cur, created);
      if r != Done { return; }
    }
    p' := SkipSlashes(path, p, out);
    if p' == |path| {
      AllDone(fs0, fs', cwd, path, out, undo[..n'], created');
      return;
    }
    Separate(path, p', out);
    ProgressOn(fs0, fs', cwd, path, out, out + "/", out, undo[..n'], created');
    more := true;
  }

  /** The clean-up of a failed call. */
  method Abandon(fs: Fs, cwd: Node, ghost path: string, ghost p: int, buf: string, ghost done: string,
                 ghost sep: bool, ghost cur: string, undo: seq<nat>, ghost fs0: Fs, ghost created: seq<Node>)
    returns (fs': Fs)
    requires Running(fs0, fs, cwd, path, p, buf, done, sep, cur, undo, created)
    ensures AllOrNothing(fs0, fs', cwd, path, Result.TooLong)
  {
    fs' := CleanUp(fs, cwd, buf, undo, fs0, created);
  }

  method Put(buf: array<char>, q: nat, c: char)
    requires q < buf.Length
    modifies buf
    ensures buf[..q + 1] == old(buf[..q]) + [c]
  {
    buf[q] := c;
  }

  method SkipSlashes(path: string, p0: nat, ghost done: string) returns (p: nat)
    requires Between(path, p0, done) && p0 <= |path|
    ensures p0 <= p <= |path| && Between(path, p, done)
    ensures p < |path| ==> path[p] != '/'
    ensures p0 < |path| && path[p0] == '/' ==> p0 < p
  {
    p := p0;
    while p < |path| && path[p] == '/'
      invariant p0 <= p <= |path| && Between(path, p, done) && (p == p0 || p0 < p)
    {
      SkipOn(path, p, done);
      p := p + 1;
    }
  }

  lemma PrefixFacts(fs0: Fs, fs: Fs, cwd: Node, path: string, p: nat, out: string, done: string, sep: bool, cur: string,
                    undo: seq<nat>, created: seq<Node>)
    requires Copying(path, p, out, done, sep, cur) && (p == |path| || path[p] == '/') && path != ""
    requires Progress(fs0, fs, cwd, path, out, done, undo, created)
    ensures Comps(out) <= Comps(path) && WellFormed(fs0) && CreatedInOrder(fs0, created)
    ensures Undos(cwd, out, undo, created)
    ensures fs == AddAll(fs0, created)
    ensures forall n :: n in fs0 ==> n in fs && fs[n] == fs0[n]
    ensures forall n :: n in created ==> n in fs && n !in fs0
    ensures !sep ==> done == ""
  {
    ToBetween(path, p, out, done, sep, cur);
    AddAllKeeps(fs0, created);
  }

  /** The component in out could not be made a directory. */
  method GiveUp(r: Result, ghost fs: Fs, fs1: Fs, cwd: Node, ghost path: string, out: string, undo: seq<nat>,
                ghost fs0: Fs, ghost created: seq<Node>) returns (fs': Fs)
    requires r != Done && WellFormed(fs0) && CreatedInOrder(fs0, created) && fs == AddAll(fs0, created)
    requires Undos(cwd, out, undo, created)
    requires Comps(out) <= Comps(path) && Base(cwd, out) == Base(cwd, path)
    requires r == LabelError || r == MkdirError ==> Resolve(cwd, out) !in fs
    requires r == LabelError ==> fs1 == fs[Resolve(cwd, out) := Dir]
    requires r != LabelError ==> fs1 == fs
    requires r.NotDir? ==> Resolve(cwd, out) in fs && fs[Resolve(cwd, out)] == Other
    ensures fs' == fs0 <==> r != LabelError
    ensures forall m :: m in fs0 ==> m in fs' && fs'[m] == fs0[m]
    ensures Causes(r, fs0, cwd, path)
  {
    hide Comps, AddAll, CreatedInOrder, WalkTo, Undos, WellFormed, OnPath, Resolve, Blocked, Lacking;
    if r == NotDir { BlockedHere(fs0, fs, cwd, path, out, created); }
    AddAllKeeps(fs0, created);
    if r == LabelError || r == MkdirError { LackingHere(fs0, cwd, path, out); }
    if r == LabelError {
      fs' := CleanUpLabelled(fs1, cwd, out, undo, fs0, created, Resolve(cwd, out));
    } else {
      fs' := CleanUp(fs1, cwd, out, undo, fs0, created);
    }
  }

  lemma BlockedHere(fs0: Fs, fs: Fs, cwd: Node, path: string, out: string, created: seq<Node>)
    requires CreatedInOrder(fs0, created) && fs == AddAll(fs0, created) && Comps(out) <= Comps(path)
    requires Base(cwd, out) == Base(cwd, path)
    requires Resolve(cwd, out) in fs && fs[Resolve(cwd, out)] == Other
    ensures Blocked(fs0, cwd, path)
  {
    var n := Resolve(cwd, out);
    AddAllKeeps(fs0, created);
    AddedDirs(fs0, created);
    assert n in fs0;
    assert Comps(out) == Comps(path)[..|Comps(out)|];
    assert OnPath(cwd, path, n);
  }

  lemma LackingHere(fs0: Fs, cwd: Node, path: string, out: string)
    requires Comps(out) <= Comps(path) && Base(cwd, out) == Base(cwd, path) && Resolve(cwd, out) !in fs0
    ensures Lacking(fs0, cwd, path)
  {
    assert Comps(out) == Comps(path)[..|Comps(out)|];
    assert OnPath(cwd, path, Resolve(cwd, out));
  }

  lemma AddedDirs(fs: Fs, created: seq<Node>)
    ensures forall n :: n in created ==> n in AddAll(fs, created) && AddAll(fs, created)[n] == Dir
  {
    if created != [] {
      AddedDirs(fs, created[..|created| - 1]);
      assert created == created[..|created| - 1] + [created[|created| - 1]];
    }
  }

  /** One component is complete in out: make it a directory, or clean up. */
  method CheckPrefix(ghost fs0: Fs, fs: Fs, cwd: Node, ghost path: string, ghost p: nat, out: string, labels: bool,
                     f: Failure, undo: array<nat>, n: nat, ghost done: string, ghost sep: bool, ghost cur: string,
                     ghost created: seq<Node>)
    returns (r: Result, fs': Fs, n': nat, ghost created': seq<Node>)
    requires out != "" && |out| < PATH_MAX - 1 && undo.Length == PATH_MAX / 2 && 2 * n <= |done| + 1
    requires Copying(path, p, out, done, sep, cur) && (p == |path| || path[p] == '/') && path != ""
    requires Progress(fs0, fs, cwd, path, out, done, undo[..n], created)
    modifies undo
    ensures r == Done ==>
      n' <= undo.Length && 2 * n' <= |out| + 1 && Progress(fs0, fs', cwd, path, out, out, undo[..n'], created')
    ensures r != Done ==> (fs' == fs0 <==> r != LabelError)
    ensures r != Done ==> forall m :: m in fs0 ==> m in fs' && fs'[m] == fs0[m]
    ensures !r.TooLong? && !r.BadPath? && Blames(r, f, labels) && Causes(r, fs0, cwd, path)
  {
    hide Copying, Progress, Between, Comps, Reached, AddAll, CreatedInOrder, WalkTo, Undos, WellFormed, OnPath, At,
      Resolve, Blames, Blocked, Lacking;
    n', created' := n, created;
    CopiedOne(cwd, path, p, out, done, sep, cur);
    PrefixFacts(fs0, fs, cwd, path, p, out, done, sep, cur, undo[..n], created);
    var made;
    r, fs', made := Ensure(fs, cwd, out, labels, f);
    if r != Done {
      fs' := GiveUp(r, fs, fs', cwd, path, out, undo[..n], fs0, created);
    } else {
      Checked(fs0, fs, fs', made, cwd, path, out, done, cur, undo[..n], created);
      if made {
        ghost var undo0 := undo[..n];
        undo[n] := |out|;
        assert undo[..n + 1] == undo0 + [|out|];
        n', created' := n + 1, created + [Resolve(cwd, out)];
      }
    }
  }
}
