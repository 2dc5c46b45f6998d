/** The order in which an iterator visits a hash table: used buckets one after
    the other, each bucket entry by entry, forwards or backwards. */
module HashOrder {
  import opened Seqs

  datatype Dir = Forward | Backward {
    function Flip(): Dir { if Forward? then Backward else Forward }
  }

  /** The shared iterator: on no bucket, or on an entry of a bucket. */
  datatype Pos = NoPos | At(b: nat, e: nat)

  function Oriented(dir: Dir, xs: seq<nat>): seq<nat> {
    if dir.Forward? then xs else Reverse<nat>(xs)
  }

  /** The element a list hook's next (or prev) pointer leads to, from the list
      head (None) or from an element; None when it leads back to the head. */
  function Step(dir: Dir, xs: seq<nat>, from: Option<nat>): Option<nat> {
    var rest := if from.None? then Oriented(dir, xs) else After<nat>(Oriented(dir, xs), from.value);
    if rest == [] then None else Some(rest[0])
  }

  ghost predicate InRange(us: seq<nat>, bk: seq<seq<nat>>) {
    forall i :: 0 <= i < |us| ==> us[i] < |bk|
  }

  /** Entries of the buckets us (already in visiting order). */
  ghost function Order(dir: Dir, us: seq<nat>, bk: seq<seq<nat>>): seq<nat>
    requires InRange(us, bk)
  {
    if us == [] then [] else Oriented(dir, bk[us[0]]) + Order(dir, us[1..], bk)
  }

  ghost predicate UsedOk(used: seq<nat>, bk: seq<seq<nat>>) {
    && Distinct<nat>(used) && InRange(used, bk)
    && (forall b :: 0 <= b < |bk| ==> (b in used <==> bk[b] != []))
  }

  /** Buckets never share an entry. */
  ghost predicate Disjoint(bk: seq<seq<nat>>) {
    && (forall b :: 0 <= b < |bk| ==> Distinct<nat>(bk[b]))
    && (forall b, c, s :: 0 <= b < |bk| && 0 <= c < |bk| && s in bk[b] && s in bk[c] ==> b == c)
  }

  ghost predicate PosOk(pos: Pos, used: seq<nat>, bk: seq<seq<nat>>) {
    pos.At? ==> pos.b < |bk| && pos.b in used && pos.e in bk[pos.b]
  }

  /** The whole iteration, and what an iterator at pos has still to visit. */
  ghost function IterOrder(dir: Dir, used: seq<nat>, bk: seq<seq<nat>>): seq<nat>
    requires InRange(used, bk)
  {
    OrientedInRange(dir, used, bk);
    Order(dir, Oriented(dir, used), bk)
  }

  ghost function Pending(dir: Dir, pos: Pos, used: seq<nat>, bk: seq<seq<nat>>): seq<nat>
    requires InRange(used, bk)
  {
    if pos.NoPos? then IterOrder(dir, used, bk) else After<nat>(IterOrder(dir, used, bk), pos.e)
  }

  lemma OrientedMembers(dir: Dir, xs: seq<nat>)
    ensures |Oriented(dir, xs)| == |xs|
    ensures forall y :: y in Oriented(dir, xs) <==> y in xs
  {
    ReverseMembers<nat>(xs);
  }

  lemma StepMember(dir: Dir, xs: seq<nat>, from: Option<nat>)
    ensures Step(dir, xs, from).Some? ==> Step(dir, xs, from).value in xs
  {
    OrientedMembers(dir, xs);
    if from.Some? {
      AfterMembers<nat>(Oriented(dir, xs), from.value);
    }
  }

  lemma OrientedInRange(dir: Dir, used: seq<nat>, bk: seq<seq<nat>>)
    requires InRange(used, bk)
    ensures InRange(Oriented(dir, used), bk)
  {
    OrientedMembers(dir, used);
    forall i | 0 <= i < |used| ensures Oriented(dir, used)[i] < |bk| {
      assert Oriented(dir, used)[i] in used;
    }
  }

  lemma OrientedWithout(dir: Dir, xs: seq<nat>, x: nat)
    ensures Oriented(dir, Without<nat>(xs, x)) == Without<nat>(Oriented(dir, xs), x)
  {
    WithoutReverse<nat>(xs, x);
  }

  lemma OrientedDistinct(dir: Dir, xs: seq<nat>)
    requires Distinct<nat>(xs)
    ensures Distinct<nat>(Oriented(dir, xs))
  {
    ReverseDistinct<nat>(xs);
  }

  lemma OrderMembers(dir: Dir, us: seq<nat>, bk: seq<seq<nat>>, s: nat)
    requires InRange(us, bk)
    ensures s in Order(dir, us, bk) <==> exists u :: u in us && s in bk[u]
  {
    if us != [] {
      OrderMembers(dir, us[1..], bk, s);
      OrientedMembers(dir, bk[us[0]]);
      assert us == [us[0]] + us[1..];
    }
  }

  lemma OrderDistinct(dir: Dir, us: seq<nat>, bk: seq<seq<nat>>)
    requires InRange(us, bk) && Distinct<nat>(us) && Disjoint(bk)
    ensures Distinct<nat>(Order(dir, us, bk))
  {
    if us != [] {
      assert Distinct<nat>(us[1..]);
      OrderDistinct(dir, us[1..], bk);
      OrientedDistinct(dir, bk[us[0]]);
      OrientedMembers(dir, bk[us[0]]);
      forall s | s in Oriented(dir, bk[us[0]]) ensures s !in Order(dir, us[1..], bk) {
        OrderMembers(dir, us[1..], bk, s);
      }
      DistinctConcat<nat>(Oriented(dir, bk[us[0]]), Order(dir, us[1..], bk));
    }
  }

  /** Looking behind an entry: the rest of its bucket, then the later buckets. */
  lemma AfterInOrder(dir: Dir, us: seq<nat>, bk: seq<seq<nat>>, b: nat, e: nat)
    requires InRange(us, bk) && Distinct<nat>(us) && Disjoint(bk) && b in us && e in bk[b]
    ensures InRange(After<nat>(us, b), bk)
    ensures After<nat>(Order(dir, us, bk), e) == After<nat>(Oriented(dir, bk[b]), e) + Order(dir, After<nat>(us, b), bk)
  {
    AfterMembers<nat>(us, b);
    OrientedMembers(dir, bk[us[0]]);
    AfterSplit<nat>(Oriented(dir, bk[us[0]]), Order(dir, us[1..], bk), e);
    if us[0] != b {
      assert e !in bk[us[0]];
      assert Distinct<nat>(us[1..]);
      AfterInOrder(dir, us[1..], bk, b, e);
    }
  }

  /** Emptying or thinning out bucket b removes just that entry from the order. */
  lemma OrderWithout(dir: Dir, us: seq<nat>, bk: seq<seq<nat>>, b: nat, s: nat)
    requires InRange(us, bk) && b < |bk|
    requires forall c :: 0 <= c < |bk| && c != b ==> s !in bk[c]
    ensures Order(dir, us, bk[b := Without<nat>(bk[b], s)]) == Without<nat>(Order(dir, us, bk), s)
  {
    if us != [] {
      OrderWithout(dir, us[1..], bk, b, s);
      WithoutConcat<nat>(Oriented(dir, bk[us[0]]), Order(dir, us[1..], bk), s);
      OrientedWithout(dir, bk[us[0]], s);
      if us[0] != b {
        WithoutAbsent<nat>(bk[us[0]], s);
      }
    }
  }

  /** Unlinking an empty bucket does not change the order. */
  lemma OrderDropEmpty(dir: Dir, us: seq<nat>, bk: seq<seq<nat>>, b: nat)
    requires InRange(us, bk) && b < |bk| && bk[b] == []
    ensures InRange(Without<nat>(us, b), bk)
    ensures Order(dir, Without<nat>(us, b), bk) == Order(dir, us, bk)
  {
    WithoutMembers<nat>(us, b);
    if us != [] {
      OrderDropEmpty(dir, us[1..], bk, b);
      if us[0] != b {
        assert Without<nat>(us, b)[1..] == Without<nat>(us[1..], b);
      }
    }
  }

  // ----- the iterator's step -----

  /** One pass of the next_bucket code: the bucket hook that follows at (None is
      the head of the used list), and its first entry in this direction. The
      pass that meets an empty bucket starts over with the same at. */
  datatype Pass = End | Found(b: nat, e: nat) | Again(at: Option<nat>)

  function NextBucket(dir: Dir, used: seq<nat>, bk: seq<seq<nat>>, at: Option<nat>): Pass
    requires forall i :: 0 <= i < |used| ==> used[i] < |bk|
  {
    StepMember(dir, used, at);
    match Step(dir, used, at)
    case None => End
    case Some(b) =>
      match Step(dir, bk[b], None)
      case None => Again(at)
      case Some(e) => Found(b, e)
  }

  /** The code gets past next_bucket iff the next used bucket is not empty: an
      empty one makes it repeat the same pass for ever. */
  lemma NextBucketProgress(dir: Dir, used: seq<nat>, bk: seq<seq<nat>>, at: Option<nat>)
    requires InRange(used, bk)
    ensures NextBucket(dir, used, bk, at).Again?
         <==> var next: Option<nat> := Step(dir, used, at); next.Some? && 0 <= next.value < |bk| && bk[next.value] == []
    ensures NextBucket(dir, used, bk, at).Again? ==> NextBucket(dir, used, bk, at).at == at
  {
    StepMember(dir, used, at);
    if Step(dir, used, at).Some? {
      OrientedMembers(dir, bk[Step(dir, used, at).value]);
    }
  }

  /** Where the iterator goes next; None is the end of the iteration. */
  function Advance(dir: Dir, pos: Pos, used: seq<nat>, bk: seq<seq<nat>>): Pass
    requires forall i :: 0 <= i < |used| ==> used[i] < |bk|
    requires pos.At? ==> pos.b < |bk|
  {
    if pos.NoPos? then
      (if used == [] then End else NextBucket(dir, used, bk, None))
    else
      match Step(dir, bk[pos.b], Some(pos.e))
      case Some(e) => Found(pos.b, e)
      case None => NextBucket(dir, used, bk, Some(pos.b))
  }

  lemma OrderHead(dir: Dir, us: seq<nat>, bk: seq<seq<nat>>)
    requires InRange(us, bk) && us != [] && bk[us[0]] != []
    ensures Oriented(dir, bk[us[0]]) != []
    ensures Order(dir, us, bk) != [] && Order(dir, us, bk)[0] == Oriented(dir, bk[us[0]])[0]
  {
    OrientedMembers(dir, bk[us[0]]);
  }

  lemma {:induction false} AdvanceFindsHead(dir: Dir, pos: Pos, used: seq<nat>, bk: seq<seq<nat>>)
    requires UsedOk(used, bk) && Disjoint(bk) && PosOk(pos, used, bk)
    ensures var p := Pending(dir, pos, used, bk);
      match Advance(dir, pos, used, bk)
      case Again(_) => false
      case End => p == []
      case Found(b, e) => p != [] && e == p[0] && PosOk(At(b, e), used, bk)
  {
    var us := Oriented(dir, used);
    OrientedMembers(dir, used);
    OrientedInRange(dir, used, bk);
    OrientedDistinct(dir, used);
    if pos.At? {
      AfterInOrder(dir, us, bk, pos.b, pos.e);
      AfterMembers<nat>(us, pos.b);
      AfterMembers<nat>(Oriented(dir, bk[pos.b]), pos.e);
      OrientedMembers(dir, bk[pos.b]);
      if After<nat>(Oriented(dir, bk[pos.b]), pos.e) == [] && After<nat>(us, pos.b) != [] {
        OrderHead(dir, After<nat>(us, pos.b), bk);
        OrientedMembers(dir, bk[After<nat>(us, pos.b)[0]]);
      }
    } else if used != [] {
      OrderHead(dir, us, bk);
      OrientedMembers(dir, bk[us[0]]);
    }
  }

  /** The linked-list walk visits exactly the head of what is pending. */
  lemma {:induction false} AdvanceTakesHead(dir: Dir, pos: Pos, used: seq<nat>, bk: seq<seq<nat>>)
    requires UsedOk(used, bk) && Disjoint(bk) && PosOk(pos, used, bk)
    ensures var p := Pending(dir, pos, used, bk);
      match Advance(dir, pos, used, bk)
      case Again(_) => false
      case End => p == []
      case Found(b, e) => && p != [] && e == p[0] && PosOk(At(b, e), used, bk)
                          && Pending(dir, At(b, e), used, bk) == p[1..]
  {
    AdvanceFindsHead(dir, pos, used, bk);
    OrientedInRange(dir, used, bk);
    OrientedDistinct(dir, used);
    OrderDistinct(dir, Oriented(dir, used), bk);
    var p := Pending(dir, pos, used, bk);
    hide Advance, Order, UsedOk, Disjoint, PosOk;
    if p != [] {
      if pos.At? {
        AfterOfAfter(IterOrder(dir, used, bk), pos.e);
      } else {
        assert After<nat>(p, p[0]) == p[1..];
      }
    }
  }

  lemma AfterOfAfter(xs: seq<nat>, e: nat)
    requires Distinct<nat>(xs) && After<nat>(xs, e) != []
    ensures After<nat>(xs, After<nat>(xs, e)[0]) == After<nat>(xs, e)[1..]
  {
    if xs[0] != e {
      assert Distinct<nat>(xs[1..]);
      AfterOfAfter(xs[1..], e);
      AfterMembers<nat>(xs[1..], e);
      assert After<nat>(xs, e)[0] in xs[1..];
    } else {
      assert After<nat>(xs[1..], xs[1]) == xs[2..];
    }
  }

  /** Stepping back and forth: if the entry in front of e (in direction dir) is
      f, everything pending behind f is e followed by what is pending behind e. */
  lemma {:induction false} AfterPredecessor(xs: seq<nat>, e: nat)
    requires Distinct<nat>(xs) && e in xs
    ensures var back := After<nat>(Reverse<nat>(xs), e);
      if back == [] then xs == [e] + After<nat>(xs, e)
      else back[0] in xs && back[0] != e && After<nat>(xs, back[0]) == [e] + After<nat>(xs, e)
  {
    var x, rest := xs[0], xs[1..];
    ReverseMembers<nat>(rest);
    AfterSplit<nat>(Reverse<nat>(rest), [x], e);
    assert Distinct<nat>(rest);
    if x == e {
      assert e !in rest;
    } else {
      AfterPredecessor(rest, e);
      var back := After<nat>(Reverse<nat>(rest), e);
      if back != [] {
        assert back[0] in rest && back[0] != x;
      }
    }
  }

  lemma OrderReversed(dir: Dir, us: seq<nat>, bk: seq<seq<nat>>)
    requires InRange(us, bk)
    ensures InRange(Reverse<nat>(us), bk)
    ensures Order(dir.Flip(), Reverse<nat>(us), bk) == Reverse<nat>(Order(dir, us, bk))
  {
    ReverseMembers<nat>(us);
    if us != [] {
      OrderReversed(dir, us[1..], bk);
      ReverseMembers<nat>(us[1..]);
      OrderConcat(dir.Flip(), Reverse<nat>(us[1..]), [us[0]], bk);
      assert Order(dir.Flip(), [us[0]], bk) == Oriented(dir.Flip(), bk[us[0]]);
      ReverseConcat<nat>(Oriented(dir, bk[us[0]]), Order(dir, us[1..], bk));
      ReverseTwice(bk[us[0]]);
    }
  }

  lemma ReverseTwice(xs: seq<nat>)
    ensures Reverse<nat>(Reverse<nat>(xs)) == xs
  {
    if xs != [] {
      ReverseTwice(xs[1..]);
      ReverseConcat<nat>(Reverse<nat>(xs[1..]), [xs[0]]);
      assert Reverse<nat>([xs[0]]) == [xs[0]];
    }
  }

  lemma {:induction false} OrderConcat(dir: Dir, us: seq<nat>, vs: seq<nat>, bk: seq<seq<nat>>)
    requires InRange(us, bk) && InRange(vs, bk)
    ensures Order(dir, us + vs, bk) == Order(dir, us, bk) + Order(dir, vs, bk)
  {
    if us == [] {
      assert us + vs == vs;
    } else {
      assert (us + vs)[1..] == us[1..] + vs;
      OrderConcat(dir, us[1..], vs, bk);
    }
  }

  lemma IterOrderFlip(dir: Dir, used: seq<nat>, bk: seq<seq<nat>>)
    requires InRange(used, bk)
    ensures IterOrder(dir.Flip(), used, bk) == Reverse<nat>(IterOrder(dir, used, bk))
  {
    var us := Oriented(dir, used);
    OrientedMembers(dir, used);
    OrientedInRange(dir, used, bk);
    OrderReversed(dir, us, bk);
    ReverseTwice(used);
  }

  /** The step delete takes when it removes the entry the iterator stands on:
      one place against the direction of travel, or off the list if there is none.
      Exactly the current entry becomes pending again in front of the others. */
  lemma {:induction false} StepBack(dir: Dir, pos: Pos, used: seq<nat>, bk: seq<seq<nat>>)
    requires UsedOk(used, bk) && Disjoint(bk) && PosOk(pos, used, bk) && pos.At?
    ensures var back := Advance(dir.Flip(), pos, used, bk);
      && !back.Again?
      && var pos' := if back.Found? then At(back.b, back.e) else NoPos;
      && PosOk(pos', used, bk) && (pos'.At? ==> pos'.e != pos.e)
      && Pending(dir, pos', used, bk) == [pos.e] + Pending(dir, pos, used, bk)
  {
    var xs := IterOrder(dir, used, bk);
    OrientedMembers(dir, used);
    OrientedInRange(dir, used, bk);
    OrientedDistinct(dir, used);
    OrderDistinct(dir, Oriented(dir, used), bk);
    OrderMembers(dir, Oriented(dir, used), bk, pos.e);
    AdvanceTakesHead(dir.Flip(), pos, used, bk);
    IterOrderFlip(dir, used, bk);
    AfterPredecessor(xs, pos.e);
  }

  /** A step in the direction of travel, from the entry the iterator stands on:
      the next entry is passed over, or the iteration starts again if there is
      none. */
  lemma {:induction false} StepOn(dir: Dir, pos: Pos, used: seq<nat>, bk: seq<seq<nat>>)
    requires UsedOk(used, bk) && Disjoint(bk) && PosOk(pos, used, bk) && pos.At?
    ensures var on := Advance(dir, pos, used, bk);
      && !on.Again?
      && var pos' := if on.Found? then At(on.b, on.e) else NoPos;
      && PosOk(pos', used, bk) && (pos'.At? ==> pos'.e != pos.e)
      && var p := Pending(dir, pos, used, bk);
      Pending(dir, pos', used, bk) == if p == [] then IterOrder(dir, used, bk) else p[1..]
  {
    AdvanceTakesHead(dir, pos, used, bk);
    PendingDistinct(dir, pos, used, bk);
  }

  /** Stepping off the current entry, seen by an iteration in either direction. */
  lemma {:induction false} StepOff(to: Dir, pos: Pos, used: seq<nat>, bk: seq<seq<nat>>)
    requires UsedOk(used, bk) && Disjoint(bk) && PosOk(pos, used, bk) && pos.At?
    ensures var a := Advance(to, pos, used, bk);
      && !a.Again?
      && var pos' := if a.Found? then At(a.b, a.e) else NoPos;
      && PosOk(pos', used, bk) && (pos'.At? ==> pos'.e != pos.e)
      && forall d: Dir :: Pending(d, pos', used, bk) == Off(d, to, pos, used, bk)
  {
    hide Advance, Pending, IterOrder, Disjoint;
    StepOn(to, pos, used, bk);
    StepBack(to.Flip(), pos, used, bk);
    var a := Advance(to, pos, used, bk);
    var pos' := if a.Found? then At(a.b, a.e) else NoPos;
    forall d: Dir ensures Pending(d, pos', used, bk) == Off(d, to, pos, used, bk) {
      assert d == to || d == to.Flip();
    }
  }

  /** What is pending in direction d after a step in direction `to`. */
  ghost function Off(d: Dir, to: Dir, pos: Pos, used: seq<nat>, bk: seq<seq<nat>>): seq<nat>
    requires InRange(used, bk) && pos.At?
  {
    var p := Pending(d, pos, used, bk);
    if to == d.Flip() then [pos.e] + p
    else if p == [] then IterOrder(d, used, bk)
    else p[1..]
  }

  // ----- updates -----

  ghost function Unlink(used: seq<nat>, bk: seq<seq<nat>>, b: nat, s: nat): (r: (seq<nat>, seq<seq<nat>>))
    requires b < |bk|
  {
    var bk' := bk[b := Without<nat>(bk[b], s)];
    (if bk'[b] == [] then Without<nat>(used, b) else used, bk')
  }

  lemma {:induction false} UnlinkOk(used: seq<nat>, bk: seq<seq<nat>>, b: nat, s: nat)
    requires UsedOk(used, bk) && Disjoint(bk) && b < |bk|
    ensures var (used', bk') := Unlink(used, bk, b, s);
      && |bk'| == |bk| && Disjoint(bk')
      && (s in bk[b] ==> UsedOk(used', bk'))
  {
    var (used', bk') := Unlink(used, bk, b, s);
    WithoutMembers<nat>(bk[b], s);
    WithoutDistinct<nat>(bk[b], s);
    WithoutMembers<nat>(used, b);
    WithoutDistinct<nat>(used, b);
    forall i | 0 <= i < |used'| ensures used'[i] < |bk'| {
      assert used'[i] in used;
    }
  }

  lemma {:induction false} IterOrderUnlink(dir: Dir, used: seq<nat>, bk: seq<seq<nat>>, b: nat, s: nat)
    requires UsedOk(used, bk) && Disjoint(bk) && b < |bk| && s in bk[b]
    ensures var (used', bk') := Unlink(used, bk, b, s);
      InRange(used', bk') && IterOrder(dir, used', bk') == Without<nat>(IterOrder(dir, used, bk), s)
  {
    UnlinkOk(used, bk, b, s);
    var us := Oriented(dir, used);
    OrientedInRange(dir, used, bk);
    OrderWithout(dir, us, bk, b, s);
    var bk' := bk[b := Without<nat>(bk[b], s)];
    if bk'[b] == [] {
      OrientedWithout(dir, used, b);
      OrderDropEmpty(dir, us, bk', b);
    }
  }

  /** Deleting any entry but the current one removes it from what is pending. */
  lemma {:induction false} PendingUnlink(dir: Dir, pos: Pos, used: seq<nat>, bk: seq<seq<nat>>, b: nat, s: nat)
    requires UsedOk(used, bk) && Disjoint(bk) && b < |bk| && s in bk[b] && PosOk(pos, used, bk)
    requires pos.At? ==> pos.e != s
    ensures var (used', bk') := Unlink(used, bk, b, s);
      && UsedOk(used', bk') && Disjoint(bk') && PosOk(pos, used', bk')
      && Pending(dir, pos, used', bk') == Without<nat>(Pending(dir, pos, used, bk), s)
  {
    UnlinkOk(used, bk, b, s);
    IterOrderUnlink(dir, used, bk, b, s);
    WithoutMembers<nat>(bk[b], s);
    WithoutMembers<nat>(used, b);
    if pos.At? {
      AfterWithout<nat>(IterOrder(dir, used, bk), s, pos.e);
    }
  }

  ghost function Link(used: seq<nat>, bk: seq<seq<nat>>, b: nat, s: nat): (seq<nat>, seq<seq<nat>>)
    requires b < |bk|
  {
    (if b in used then used else used + [b], bk[b := bk[b] + [s]])
  }

  /** Linking a new entry, then unlinking it again, leaves the lists as they were. */
  lemma {:induction false} LinkUnlink(used: seq<nat>, bk: seq<seq<nat>>, b: nat, s: nat)
    requires UsedOk(used, bk) && Disjoint(bk) && b < |bk|
    requires forall c :: 0 <= c < |bk| ==> s !in bk[c]
    ensures var (used', bk') := Link(used, bk, b, s);
      && UsedOk(used', bk') && Disjoint(bk') && s in bk'[b]
      && Unlink(used', bk', b, s) == (used, bk)
  {
    var (used', bk') := Link(used, bk, b, s);
    DistinctConcat<nat>(bk[b], [s]);
    if b !in used {
      DistinctConcat<nat>(used, [b]);
    }
    assert Unlink(used', bk', b, s) == (used, bk) by {
      WithoutConcat<nat>(bk[b], [s], s);
      WithoutAbsent<nat>(bk[b], s);
      assert Without<nat>([s], s) == [];
      assert Without<nat>(bk'[b], s) == bk[b] + [] == bk[b];
      assert bk'[b := bk[b]] == bk;
      if b !in used {
        assert bk[b] == [];
        WithoutConcat<nat>(used, [b], b);
        WithoutAbsent<nat>(used, b);
        assert Without<nat>([b], b) == [];
        assert Without<nat>(used', b) == used;
      } else {
        assert bk[b] != [];
      }
    }
  }

  /** Adding an entry never hides or repeats one that is still pending. */
  lemma {:induction false} PendingLink(dir: Dir, pos: Pos, used: seq<nat>, bk: seq<seq<nat>>, b: nat, s: nat)
    requires UsedOk(used, bk) && Disjoint(bk) && b < |bk| && PosOk(pos, used, bk)
    requires forall c :: 0 <= c < |bk| ==> s !in bk[c]
    ensures var (used', bk') := Link(used, bk, b, s);
      && UsedOk(used', bk') && Disjoint(bk') && PosOk(pos, used', bk')
      && Without<nat>(Pending(dir, pos, used', bk'), s) == Pending(dir, pos, used, bk)
  {
    LinkUnlink(used, bk, b, s);
    var (used', bk') := Link(used, bk, b, s);
    PendingUnlink(dir, pos, used', bk', b, s);
  }

  lemma PendingDistinct(dir: Dir, pos: Pos, used: seq<nat>, bk: seq<seq<nat>>)
    requires UsedOk(used, bk) && Disjoint(bk)
    ensures Distinct<nat>(Pending(dir, pos, used, bk))
    ensures forall s :: s in Pending(dir, pos, used, bk) ==> exists b :: 0 <= b < |bk| && s in bk[b]
    ensures pos.NoPos? ==> forall b, s :: 0 <= b < |bk| && s in bk[b] ==> s in Pending(dir, pos, used, bk)
  {
    var us := Oriented(dir, used);
    OrientedMembers(dir, used);
    OrientedInRange(dir, used, bk);
    OrientedDistinct(dir, used);
    OrderDistinct(dir, us, bk);
    var xs := IterOrder(dir, used, bk);
    forall s ensures s in xs <==> exists u :: u in us && s in bk[u] {
      OrderMembers(dir, us, bk, s);
    }
    if pos.At? {
      AfterDistinct<nat>(xs, pos.e);
      AfterMembers<nat>(xs, pos.e);
    }
  }

  /** PendingUnlink and PendingLink for iterations in either direction. */
  lemma UnlinkPending(pos: Pos, used: seq<nat>, bk: seq<seq<nat>>, b: nat, s: nat)
    requires UsedOk(used, bk) && Disjoint(bk) && b < |bk| && s in bk[b] && PosOk(pos, used, bk)
    requires pos.At? ==> pos.e != s
    ensures var (used', bk') := Unlink(used, bk, b, s);
      && UsedOk(used', bk') && Disjoint(bk') && PosOk(pos, used', bk')
      && forall d: Dir :: Pending(d, pos, used', bk') == Without<nat>(Pending(d, pos, used, bk), s)
  {
    hide Pending, Unlink, Disjoint;
    PendingUnlink(Forward, pos, used, bk, b, s);
    PendingUnlink(Backward, pos, used, bk, b, s);
    var (used', bk') := Unlink(used, bk, b, s);
    forall d: Dir ensures Pending(d, pos, used', bk') == Without<nat>(Pending(d, pos, used, bk), s) {
      assert d == Forward || d == Backward;
    }
  }

  lemma LinkPending(pos: Pos, used: seq<nat>, bk: seq<seq<nat>>, b: nat, s: nat)
    requires UsedOk(used, bk) && Disjoint(bk) && b < |bk| && PosOk(pos, used, bk)
    requires forall c :: 0 <= c < |bk| ==> s !in bk[c]
    ensures var (used', bk') := Link(used, bk, b, s);
      && UsedOk(used', bk') && Disjoint(bk') && PosOk(pos, used', bk')
      && forall d: Dir :: Without<nat>(Pending(d, pos, used', bk'), s) == Pending(d, pos, used, bk)
  {
    hide Pending, Link, Disjoint;
    PendingLink(Forward, pos, used, bk, b, s);
    PendingLink(Backward, pos, used, bk, b, s);
    var (used', bk') := Link(used, bk, b, s);
    forall d: Dir ensures Without<nat>(Pending(d, pos, used', bk'), s) == Pending(d, pos, used, bk) {
      assert d == Forward || d == Backward;
    }
  }
}
