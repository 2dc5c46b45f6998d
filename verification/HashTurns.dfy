/** Who comes first: the order in which an iteration visits the entries, told by
    when they were added. */
module HashTurns {
  import opened Seqs
  import opened HashLog
  import opened HashOrder

  /** The entries of cookies c and c' are in one bucket, and c was added first. */
  ghost predicate Ahead(cfg: Config, log: seq<Entry>, c: nat, c': nat)
    requires cfg.nbucket > 0
  {
    exists i, j :: 0 <= i < j < |log| && log[i].cookie == c && log[j].cookie == c'
                   && cfg.B(log[i].key) == cfg.B(log[j].key)
  }

  /** p has the entries of each bucket in the order in which they were added, or
      the other way round. */
  ghost predicate InTurn(cfg: Config, log: seq<Entry>, d: Dir, p: seq<nat>)
    requires cfg.nbucket > 0
  {
    forall a, b :: 0 <= a < |p| && 0 <= b < |p| && Ahead(cfg, log, p[a] + 1, p[b] + 1) ==>
      if d.Forward? then a < b else b < a
  }

  // ----- the log's order in a bucket -----

  lemma {:induction false} InBucket(cfg: Config, log: seq<Entry>, j: nat)
    requires cfg.nbucket > 0 && LogOk(log) && j < |log|
    ensures log[j].cookie - 1 in BucketOf(cfg, log, cfg.B(log[j].key))
  {
    if j > 0 { InBucket(cfg, log[1..], j - 1); }
  }

  lemma {:induction false} LaterInBucket(cfg: Config, log: seq<Entry>, i: nat, j: nat)
    requires cfg.nbucket > 0 && LogOk(log) && i < j < |log| && cfg.B(log[i].key) == cfg.B(log[j].key)
    ensures log[j].cookie - 1 in After<nat>(BucketOf(cfg, log, cfg.B(log[i].key)), log[i].cookie - 1)
  {
    var b, rest := cfg.B(log[i].key), log[1..];
    if i == 0 {
      InBucket(cfg, rest, j - 1);
      assert BucketOf(cfg, log, b)[1..] == BucketOf(cfg, rest, b);
    } else {
      LaterInBucket(cfg, rest, i - 1, j - 1);
      if cfg.B(log[0].key) == b { assert BucketOf(cfg, log, b)[1..] == BucketOf(cfg, rest, b); }
    }
  }

  // ----- and in an iteration -----

  /** What stands behind a in a list without repetitions has a later place. */
  lemma {:induction false} AfterPlaces(xs: seq<nat>, a: nat, b: nat)
    requires Distinct<nat>(xs) && a < |xs| && b < |xs| && xs[b] in After<nat>(xs, xs[a])
    ensures a < b
  {
    if a > 0 {
      assert Distinct<nat>(xs[1..]);
      AfterMembers<nat>(xs[1..], xs[a]);
      if b > 0 { AfterPlaces(xs[1..], a - 1, b - 1); }
    }
  }

  /** What stands behind an element is the end of the list. */
  lemma {:induction false} AfterIsEnd(xs: seq<nat>, e: nat)
    ensures var n := |After<nat>(xs, e)|; n <= |xs| && After<nat>(xs, e) == xs[|xs| - n..]
  {
    if xs != [] { AfterIsEnd(xs[1..], e); }
  }

  lemma ReverseAt(xs: seq<nat>, k: nat)
    requires k < |xs|
    ensures |Reverse<nat>(xs)| == |xs| && Reverse<nat>(xs)[|xs| - 1 - k] == xs[k]
  {
    ReverseMembers<nat>(xs);
    ReverseMembers<nat>(xs[1..]);
    if k > 0 { ReverseAt(xs[1..], k - 1); }
  }

  /** Forward, a bucket's entries come as they stand in its list. */
  lemma BehindForward(used: seq<nat>, bk: seq<seq<nat>>, b: nat, s: nat, t: nat)
    requires UsedOk(used, bk) && Disjoint(bk) && b < |bk| && s in bk[b] && t in After<nat>(bk[b], s)
    ensures t in After<nat>(IterOrder(Forward, used, bk), s)
  {
    AfterInOrder(Forward, used, bk, b, s);
  }

  lemma UsedInRange(used: seq<nat>, bk: seq<seq<nat>>)
    requires UsedOk(used, bk)
    ensures InRange(used, bk)
  {
  }

  lemma {:induction false} WholeInTurn(cfg: Config, log: seq<Entry>, used: seq<nat>, bk: seq<seq<nat>>, d: Dir)
    requires cfg.nbucket > 0 && LogOk(log) && UsedOk(used, bk) && Disjoint(bk) && |bk| == cfg.nbucket
    requires forall b: nat :: b < |bk| ==> bk[b] == BucketOf(cfg, log, b)
    ensures InTurn(cfg, log, d, IterOrder(d, used, bk))
  {
    hide UsedOk, Disjoint, LogOk, BucketOf, IterOrder, Reverse, After, Distinct;
    UsedInRange(used, bk);
    var p, q := IterOrder(d, used, bk), IterOrder(Forward, used, bk);
    PendingDistinct(Forward, NoPos, used, bk);
    IterOrderFlip(Forward, used, bk);
    forall a, b | 0 <= a < |p| && 0 <= b < |p| && Ahead(cfg, log, p[a] + 1, p[b] + 1)
      ensures if d.Forward? then a < b else b < a
    {
      EarlierFirst(cfg, log, used, bk, p[a], p[b]);
      if d.Forward? {
        AfterPlaces(q, a, b);
      } else {
        ReverseMembers<nat>(q);
        ReverseAt(q, |q| - 1 - a);
        ReverseAt(q, |q| - 1 - b);
        AfterPlaces(q, |q| - 1 - a, |q| - 1 - b);
      }
    }
  }

  lemma EarlierFirst(cfg: Config, log: seq<Entry>, used: seq<nat>, bk: seq<seq<nat>>, s: nat, t: nat)
    requires cfg.nbucket > 0 && LogOk(log) && UsedOk(used, bk) && Disjoint(bk) && |bk| == cfg.nbucket
    requires forall b: nat :: b < |bk| ==> bk[b] == BucketOf(cfg, log, b)
    requires Ahead(cfg, log, s + 1, t + 1)
    ensures t in After<nat>(IterOrder(Forward, used, bk), s)
  {
    var i, j :| 0 <= i < j < |log| && log[i].cookie == s + 1 && log[j].cookie == t + 1
                && cfg.B(log[i].key) == cfg.B(log[j].key);
    var b := cfg.B(log[i].key);
    InBucket(cfg, log, i);
    LaterInBucket(cfg, log, i, j);
    BehindForward(used, bk, b, s, t);
  }

  /** What is still to be visited is in turn as well. */
  lemma {:induction false} PendingInTurn(cfg: Config, log: seq<Entry>, pos: Pos, used: seq<nat>, bk: seq<seq<nat>>,
                                         d: Dir)
    requires cfg.nbucket > 0 && LogOk(log) && UsedOk(used, bk) && Disjoint(bk) && |bk| == cfg.nbucket
    requires forall b: nat :: b < |bk| ==> bk[b] == BucketOf(cfg, log, b)
    ensures InTurn(cfg, log, d, Pending(d, pos, used, bk))
  {
    hide UsedOk, Disjoint, LogOk, BucketOf, IterOrder, Ahead;
    UsedInRange(used, bk);
    WholeInTurn(cfg, log, used, bk, d);
    var q := IterOrder(d, used, bk);
    if pos.At? {
      AfterIsEnd(q, pos.e);
      var p := After<nat>(q, pos.e);
      var n := |q| - |p|;
      forall a, b | 0 <= a < |p| && 0 <= b < |p| && Ahead(cfg, log, p[a] + 1, p[b] + 1)
        ensures if d.Forward? then a < b else b < a
      {
        assert q[n + a] == p[a] && q[n + b] == p[b];
      }
    }
  }

  // ----- the order stays -----

  /** Adding, deleting and rebinding others leaves two entries in their order. */
  lemma AppendAhead(cfg: Config, log: seq<Entry>, e: Entry, c: nat, c': nat)
    requires cfg.nbucket > 0 && Ahead(cfg, log, c, c')
    ensures Ahead(cfg, log + [e], c, c')
  {
    var i, j :| 0 <= i < j < |log| && log[i].cookie == c && log[j].cookie == c'
                && cfg.B(log[i].key) == cfg.B(log[j].key);
    assert (log + [e])[i] == log[i] && (log + [e])[j] == log[j];
  }

  lemma RebindAhead(cfg: Config, log: seq<Entry>, x: nat, k: Key, o: Obj, c: nat, c': nat)
    requires cfg.nbucket > 0 && Ahead(cfg, log, c, c') && x != c && x != c'
    ensures Ahead(cfg, Rebind(log, x, k, o), c, c')
  {
    var i, j :| 0 <= i < j < |log| && log[i].cookie == c && log[j].cookie == c'
                && cfg.B(log[i].key) == cfg.B(log[j].key);
    var log' := Rebind(log, x, k, o);
    assert log'[i] == log[i] && log'[j] == log[j];
  }

  lemma DropAhead(cfg: Config, log: seq<Entry>, x: nat, c: nat, c': nat)
    requires cfg.nbucket > 0 && Ahead(cfg, log, c, c') && x != c && x != c'
    ensures Ahead(cfg, Drop(log, x), c, c')
  {
    var i, j :| 0 <= i < j < |log| && log[i].cookie == c && log[j].cookie == c'
                && cfg.B(log[i].key) == cfg.B(log[j].key);
    var i', j' := DropPlaces(log, x, i, j);
  }

  lemma {:induction false} DropPlace(log: seq<Entry>, x: nat, j: nat) returns (j': nat)
    requires j < |log| && log[j].cookie != x
    ensures j' < |Drop(log, x)| && Drop(log, x)[j'] == log[j]
  {
    if j == 0 {
      j' := 0;
    } else {
      j' := DropPlace(log[1..], x, j - 1);
      if log[0].cookie != x { j' := j' + 1; }
    }
  }

  lemma {:induction false} DropPlaces(log: seq<Entry>, x: nat, i: nat, j: nat) returns (i': nat, j': nat)
    requires i < j < |log| && log[i].cookie != x && log[j].cookie != x
    ensures i' < j' < |Drop(log, x)| && Drop(log, x)[i'] == log[i] && Drop(log, x)[j'] == log[j]
  {
    if i == 0 {
      i' := 0;
      j' := DropPlace(log[1..], x, j - 1);
      j' := j' + 1;
    } else {
      i', j' := DropPlaces(log[1..], x, i - 1, j - 1);
      if log[0].cookie != x { i', j' := i' + 1, j' + 1; }
    }
  }

  // ----- where a new entry joins -----

  /** s comes at place n: forwards, behind the last of its bucket's entries, or
      at the end if there is none; backwards, in front of it, or at the start. */
  ghost predicate JoinsAt(d: Dir, was: seq<nat>, order: seq<nat>, s: nat, mates: seq<nat>, n: int) {
    && 0 <= n <= |was| && order == was[..n] + [s] + was[n..]
    && if d.Forward? then (if mates == [] then n == |was| else 0 < n && was[n - 1] == mates[|mates| - 1])
       else if mates == [] then n == 0 else n < |was| && was[n] == mates[|mates| - 1]
  }

  ghost predicate Joins(d: Dir, was: seq<nat>, order: seq<nat>, s: nat, mates: seq<nat>) {
    exists n :: JoinsAt(d, was, order, s, mates, n)
  }

  lemma OrderElsewhere(dir: Dir, us: seq<nat>, bk: seq<seq<nat>>, b: nat, xs: seq<nat>)
    requires InRange(us, bk) && b < |bk| && b !in us
    ensures Order(dir, us, bk[b := xs]) == Order(dir, us, bk)
  {
    if us != [] { OrderElsewhere(dir, us[1..], bk, b, xs); }
  }

  /** A bucket's list with s at its end, in either direction. */
  lemma OrientedLink(dir: Dir, xs: seq<nat>, s: nat)
    ensures Oriented(dir, xs + [s]) == if dir.Forward? then xs + [s] else [s] + Reverse<nat>(xs)
    ensures xs != [] && dir.Backward? ==> Oriented(dir, xs) != [] && Oriented(dir, xs)[0] == xs[|xs| - 1]
    ensures dir.Forward? ==> Oriented(dir, xs) == xs
  {
    ReverseConcat<nat>(xs, [s]);
    assert Reverse<nat>([s]) == [s];
    if xs != [] { ReverseAt(xs, |xs| - 1); }
  }

  lemma {:induction false} OrderLink(dir: Dir, us: seq<nat>, bk: seq<seq<nat>>, b: nat, s: nat) returns (n: nat)
    requires InRange(us, bk) && Distinct<nat>(us) && b in us && bk[b] != []
    ensures JoinsAt(dir, Order(dir, us, bk), Order(dir, us, bk[b := bk[b] + [s]]), s, bk[b], n)
  {
    var rest, bk' := us[1..], bk[b := bk[b] + [s]];
    if us[0] == b {
      OrderElsewhere(dir, rest, bk, b, bk'[b]);
      OrientedLink(dir, bk[b], s);
      n := if dir.Forward? then |bk[b]| else 0;
    } else {
      assert Distinct<nat>(rest);
      var k := OrderLink(dir, rest, bk, b, s);
      n := JoinsLater(dir, Oriented(dir, bk[us[0]]), Order(dir, rest, bk), Order(dir, rest, bk'), s, bk[b], k);
    }
  }

  lemma JoinsLater(d: Dir, xs: seq<nat>, was: seq<nat>, order: seq<nat>, s: nat, mates: seq<nat>, k: nat)
    returns (n: nat)
    requires JoinsAt(d, was, order, s, mates, k) && mates != []
    ensures JoinsAt(d, xs + was, xs + order, s, mates, n)
  {
    n := |xs| + k;
    assert (xs + was)[..n] == xs + was[..k];
    assert (xs + was)[n..] == was[k..];
  }

  /** An entry added to an unused bucket is the last of a forward iteration, and
      the first of a backward one; one added to a used bucket comes next to the
      bucket's last. All others keep their order. */
  lemma {:induction false} LinkJoins(dir: Dir, used: seq<nat>, bk: seq<seq<nat>>, b: nat, s: nat)
    requires UsedOk(used, bk) && b < |bk|
    ensures var (used', bk') := Link(used, bk, b, s);
      InRange(used', bk') && Joins(dir, IterOrder(dir, used, bk), IterOrder(dir, used', bk'), s, bk[b])
  {
    OrientedMembers(dir, used);
    OrientedInRange(dir, used, bk);
    OrientedDistinct(dir, used);
    if b in used {
      var n := OrderLink(dir, Oriented(dir, used), bk, b, s);
    } else {
      assert bk[b] + [s] == [s];
      LinkUnused(dir, used, bk, b, s);
    }
  }

  lemma LinkUnused(dir: Dir, used: seq<nat>, bk: seq<seq<nat>>, b: nat, s: nat)
    requires UsedOk(used, bk) && b < |bk| && b !in used
    ensures InRange(used + [b], bk[b := [s]])
    ensures var was, order := IterOrder(dir, used, bk), IterOrder(dir, used + [b], bk[b := [s]]);
      && order == (if dir.Forward? then was + [s] else [s] + was)
      && JoinsAt(dir, was, order, s, [], if dir.Forward? then |was| else 0)
  {
    var us, bk' := Oriented(dir, used), bk[b := [s]];
    OrientedMembers(dir, used);
    OrientedInRange(dir, used, bk);
    OrientedLink(dir, used, b);
    OrderElsewhere(dir, us, bk, b, [s]);
    assert Order(dir, [b], bk') == [s] by { OrientedLink(dir, [], s); assert [] + [s] == [s]; }
    if dir.Forward? {
      OrderConcat(dir, us, [b], bk');
    } else {
      OrderConcat(dir, [b], us, bk');
    }
  }

  /** Two entries of one bucket: forwards the first comes first. */
  lemma FirstOfTwo()
    ensures var bk: seq<seq<nat>> := [[], [], [], [0, 1]];
      && Advance(Forward, NoPos, [3], bk) == Found(3, 0) && Advance(Forward, At(3, 0), [3], bk) == Found(3, 1)
      && Advance(Backward, NoPos, [3], bk) == Found(3, 1)
  {
    assert Reverse<nat>([0, 1]) == [1, 0] by {
      assert Reverse<nat>([1]) == [1];
      assert [0, 1][1..] == [1];
    }
    assert Reverse<nat>([3]) == [3];
    assert After<nat>([0, 1], 0) == [1];
  }
}
