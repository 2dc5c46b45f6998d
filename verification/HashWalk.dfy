/** A whole iteration over a hash table whose loop body deletes entries: the
    trace of what is yielded and deleted, as a function of the pending entries. */
module HashWalk {
  import opened Seqs
  import opened HashLog

  datatype Event = Yielded(s: nat) | Deleted(s: nat)

  /** A deletion asked for by a loop body: by key, or of the entry in a slot. */
  datatype Request = ByKey(key: Key) | BySlot(s: nat)

  /** What a body does after the entry it was just given: delete, then go on or stop. */
  datatype Response = Response(requests: seq<Request>, more: bool)

  /** Any loop body: it may look at everything that happened so far. */
  type Body = (seq<Event>, Entry) -> Response

  ghost function Asked(cfg: Config, log: seq<Entry>, r: Request): Option<Entry> {
    match r
    case ByKey(k) => First(cfg, log, k, NONE)
    case BySlot(s) => ByCookie(log, s + 1)
  }

  /** The list after a run of requests, and the slots they emptied in turn. */
  ghost function DropAll(cfg: Config, log: seq<Entry>, rs: seq<Request>): (r: (seq<Entry>, seq<nat>))
    requires LogOk(log)
    ensures LogOk(r.0)
    decreases rs
  {
    if rs == [] then (log, [])
    else
      match Asked(cfg, log, rs[0])
      case None => DropAll(cfg, log, rs[1..])
      case Some(e) =>
        AskedIsLive(cfg, log, rs[0]);
        DropOk(log, e.cookie);
        var (log', ds) := DropAll(cfg, Drop(log, e.cookie), rs[1..]);
        (log', [e.cookie - 1] + ds)
  }

  /** One more request deletes the earliest entry of its key, or the entry of its
      slot, from what is left then, and nothing if there is none. */
  lemma {:induction false} DropAllNext(cfg: Config, log: seq<Entry>, rs: seq<Request>, r: Request)
    requires LogOk(log)
    ensures var (was, ds) := DropAll(cfg, log, rs);
      var e := match r case ByKey(k) => First(cfg, was, k, NONE) case BySlot(s) => ByCookie(was, s + 1);
      && (e.Some? ==> e.value.cookie != NONE)
      && DropAll(cfg, log, rs + [r])
         == if e.None? then (was, ds) else (Drop(was, e.value.cookie), ds + [e.value.cookie - 1])
    decreases rs
  {
    hide First, ByCookie, Drop, LogOk;
    if rs == [] {
      assert rs + [r] == [r] && [r][1..] == [];
      var e := Asked(cfg, log, r);
      if e.Some? {
        AskedIsLive(cfg, log, r);
        DropOk(log, e.value.cookie);
        assert DropAll(cfg, Drop(log, e.value.cookie), []) == (Drop(log, e.value.cookie), []);
        assert [e.value.cookie - 1] + [] == [] + [e.value.cookie - 1];
      }
    } else {
      assert (rs + [r])[1..] == rs[1..] + [r];
      match Asked(cfg, log, rs[0])
      case None => DropAllNext(cfg, log, rs[1..], r);
      case Some(e) =>
        AskedIsLive(cfg, log, rs[0]);
        DropOk(log, e.cookie);
        DropAllNext(cfg, Drop(log, e.cookie), rs[1..], r);
        var (was, ds) := DropAll(cfg, Drop(log, e.cookie), rs[1..]);
        forall d: nat ensures [e.cookie - 1] + (ds + [d]) == [e.cookie - 1] + ds + [d] {}
    }
  }

  lemma AskedIsLive(cfg: Config, log: seq<Entry>, r: Request)
    requires LogOk(log) && Asked(cfg, log, r).Some?
    ensures Asked(cfg, log, r).value in log && Asked(cfg, log, r).value.cookie != NONE
  {
    match r
    case ByKey(k) => FirstIsMember(cfg, log, k, NONE);
    case BySlot(s) => ByCookieIsMember(log, s + 1);
  }

  ghost function WithoutAll(xs: seq<nat>, ds: seq<nat>): seq<nat>
    decreases |ds|
  {
    if ds == [] then xs else WithoutAll(Without<nat>(xs, ds[0]), ds[1..])
  }

  function Deletions(ds: seq<nat>): seq<Event> {
    seq(|ds|, i requires 0 <= i < |ds| => Deleted(ds[i]))
  }

  ghost predicate AllLive(log: seq<Entry>, xs: seq<nat>) {
    forall i :: 0 <= i < |xs| ==> ByCookie(log, xs[i] + 1).Some?
  }

  /** What happens from here on, when pending is still to be visited. */
  ghost function Walk(cfg: Config, log: seq<Entry>, pending: seq<nat>, body: Body, seen: seq<Event>): seq<Event>
    requires LogOk(log) && AllLive(log, pending)
    decreases |pending|
  {
    if pending == [] then []
    else
      var s := pending[0];
      var resp := body(seen + [Yielded(s)], ByCookie(log, s + 1).value);
      var (log', ds) := DropAll(cfg, log, resp.requests);
      var now := [Yielded(s)] + Deletions(ds);
      PendingStaysLive(cfg, log, pending[1..], resp.requests);
      WithoutAllShrinks(pending[1..], ds);
      now + if resp.more then Walk(cfg, log', WithoutAll(pending[1..], ds), body, seen + now) else []
  }

  /** The events still to come; none once the loop has stopped. */
  ghost function Remaining(cfg: Config, log: seq<Entry>, pending: seq<nat>, go: bool, body: Body,
                           seen: seq<Event>): seq<Event> {
    if go && LogOk(log) && AllLive(log, pending) then Walk(cfg, log, pending, body, seen) else []
  }

  lemma {:induction false} RemainingStep(cfg: Config, log: seq<Entry>, pending: seq<nat>, body: Body, seen: seq<Event>)
    requires LogOk(log) && AllLive(log, pending) && pending != []
    ensures ByCookie(log, pending[0] + 1).Some?
    ensures var resp := body(seen + [Yielded(pending[0])], ByCookie(log, pending[0] + 1).value);
      var (log', ds) := DropAll(cfg, log, resp.requests);
      var trace := seen + ([Yielded(pending[0])] + Deletions(ds));
      var rest := WithoutAll(pending[1..], ds);
      && LogOk(log') && AllLive(log', rest) && |rest| < |pending|
      && seen + Remaining(cfg, log, pending, true, body, seen)
         == trace + Remaining(cfg, log', rest, resp.more, body, trace)
  {
    var resp := body(seen + [Yielded(pending[0])], ByCookie(log, pending[0] + 1).value);
    PendingStaysLive(cfg, log, pending[1..], resp.requests);
    WithoutAllShrinks(pending[1..], DropAll(cfg, log, resp.requests).1);
  }

  lemma RemainingEnd(cfg: Config, log: seq<Entry>, pending: seq<nat>, go: bool, body: Body, seen: seq<Event>)
    ensures !go || pending == [] ==> Remaining(cfg, log, pending, go, body, seen) == []
  {
  }

  lemma WithoutAllShrinks(xs: seq<nat>, ds: seq<nat>)
    ensures |WithoutAll(xs, ds)| <= |xs|
    ensures forall s :: s in WithoutAll(xs, ds) <==> s in xs && s !in ds
    ensures Distinct<nat>(xs) ==> Distinct<nat>(WithoutAll(xs, ds))
    decreases |ds|
  {
    if ds != [] {
      WithoutLength(xs, ds[0]);
      WithoutMembers<nat>(xs, ds[0]);
      if Distinct<nat>(xs) { WithoutDistinct<nat>(xs, ds[0]); }
      WithoutAllShrinks(Without<nat>(xs, ds[0]), ds[1..]);
    }
  }

  lemma WithoutLength(xs: seq<nat>, x: nat)
    ensures |Without<nat>(xs, x)| <= |xs|
  {
  }

  lemma {:induction false} PendingStaysLive(cfg: Config, log: seq<Entry>, xs: seq<nat>, rs: seq<Request>)
    requires LogOk(log) && AllLive(log, xs)
    ensures var (log', ds) := DropAll(cfg, log, rs);
      AllLive(log', WithoutAll(xs, ds))
    decreases rs
  {
    if rs != [] {
      hide Drop, ByCookie, AllLive, LogOk;
      match Asked(cfg, log, rs[0])
      case None => PendingStaysLive(cfg, log, xs, rs[1..]);
      case Some(e) =>
        AskedIsLive(cfg, log, rs[0]);
        DropOk(log, e.cookie);
        DropLive(log, xs, e.cookie - 1);
        PendingStaysLive(cfg, Drop(log, e.cookie), Without<nat>(xs, e.cookie - 1), rs[1..]);
    }
  }

  lemma DropLive(log: seq<Entry>, xs: seq<nat>, d: nat)
    requires AllLive(log, xs)
    ensures AllLive(Drop(log, d + 1), Without<nat>(xs, d))
  {
    hide Drop, ByCookie, Without;
    WithoutMembers<nat>(xs, d);
    DropMembers(log, d + 1);
    var ys := Without<nat>(xs, d);
    forall i | 0 <= i < |ys| ensures ByCookie(Drop(log, d + 1), ys[i] + 1).Some? {
      assert ys[i] in ys && ys[i] in xs && ys[i] != d;
      ByCookieIsMember(log, ys[i] + 1);
      ByCookieIsMember(Drop(log, d + 1), ys[i] + 1);
    }
  }

  // ----- what an iteration guarantees -----

  /** Nothing is yielded twice, nothing is yielded after its deletion, and only
      pending entries are yielded. */
  ghost predicate Orderly(t: seq<Event>, pending: seq<nat>) {
    && (forall i, j :: 0 <= i < j < |t| && t[j].Yielded? ==> t[i] != t[j] && t[i] != Deleted(t[j].s))
    && (forall i :: 0 <= i < |t| && t[i].Yielded? ==> t[i].s in pending)
  }

  /** Every entry that is not deleted is yielded. */
  ghost predicate Exhaustive(t: seq<Event>, pending: seq<nat>) {
    forall s :: s in pending ==> Yielded(s) in t || Deleted(s) in t
  }

  /** The guarantee of deletion-safe iteration, for every loop body; the part
      that nothing is left out is for bodies that never stop the loop. */
  lemma {:induction false} DeletionSafe(cfg: Config, log: seq<Entry>, pending: seq<nat>, body: Body, seen: seq<Event>)
    requires LogOk(log) && Distinct<nat>(pending)
    requires AllLive(log, pending)
    ensures Orderly(Walk(cfg, log, pending, body, seen), pending)
    ensures (forall t, e :: body(t, e).more) ==> Exhaustive(Walk(cfg, log, pending, body, seen), pending)
    decreases |pending|
  {
    hide DropAll, Orderly, Exhaustive, WithoutAll, ByCookie, Deletions;
    if pending == [] {
      NothingMissing();
    } else {
      var s := pending[0];
      var resp := body(seen + [Yielded(s)], ByCookie(log, s + 1).value);
      var (log', ds) := DropAll(cfg, log, resp.requests);
      var now := [Yielded(s)] + Deletions(ds);
      var rest := WithoutAll(pending[1..], ds);
      PendingStaysLive(cfg, log, pending[1..], resp.requests);
      WithoutAllShrinks(pending[1..], ds);
      assert Distinct<nat>(pending[1..]);
      NothingSafe(rest);
      var tail := if resp.more then Walk(cfg, log', rest, body, seen + now) else [];
      if resp.more {
        DeletionSafe(cfg, log', rest, body, seen + now);
      }
      WalkStep(pending, s, ds, rest, tail);
      assert Walk(cfg, log, pending, body, seen) == now + tail;
    }
  }

  lemma NothingMissing()
    ensures Orderly([], []) && Exhaustive([], [])
  {
  }

  lemma NothingSafe(pending: seq<nat>)
    ensures Orderly([], pending)
  {
  }

  lemma {:induction false} WalkStep(pending: seq<nat>, s: nat, ds: seq<nat>, rest: seq<nat>, tail: seq<Event>)
    requires pending != [] && pending[0] == s && s !in rest
    requires forall x :: x in rest <==> x in pending[1..] && x !in ds
    requires Orderly(tail, rest)
    ensures var t := [Yielded(s)] + Deletions(ds) + tail;
      Orderly(t, pending) && (Exhaustive(tail, rest) ==> Exhaustive(t, pending))
  {
    var now := [Yielded(s)] + Deletions(ds);
    var t := now + tail;
    forall i, j | 0 <= i < j < |t| && t[j].Yielded? ensures t[i] != t[j] && t[i] != Deleted(t[j].s) {
      assert t[j] == tail[j - |now|] && t[j].s in rest;
    }
    forall i | 0 <= i < |t| && t[i].Yielded? ensures t[i].s in pending {
      if i >= |now| {
        assert t[i] == tail[i - |now|] && t[i].s in rest;
      }
    }
    if Exhaustive(tail, rest) {
      forall x | x in pending ensures Yielded(x) in t || Deleted(x) in t {
        if x == s {
          assert t[0] == Yielded(s);
        } else {
          assert x in pending[1..] by {
            var k :| 0 <= k < |pending| && pending[k] == x;
            assert pending[1..][k - 1] == x;
          }
          if x in ds {
            var k :| 0 <= k < |ds| && ds[k] == x;
            assert t[k + 1] == Deleted(x);
          }
        }
      }
    }
  }

  /** iot_htbl_foreach deletes by key after a callback asked for removal: that is
      the entry the callback was given iff no earlier entry compares equal. */
  lemma {:induction false} ForeachDeletesCurrent(cfg: Config, log: seq<Entry>, i: nat)
    requires LogOk(log) && i < |log| && cfg.comp(log[i].key, log[i].key) == 0
    ensures Asked(cfg, log, ByKey(log[i].key)) == Some(log[i])
       <==> forall j :: 0 <= j < i ==> cfg.comp(log[i].key, log[j].key) != 0
  {
    var key := log[i].key;
    FirstIsEarliest(cfg, log, key, NONE);
    assert cfg.Matches(log[i], key, NONE);
    var k :| EarliestAt(cfg, log, key, NONE, k) && Some(log[k]) == First(cfg, log, key, NONE);
    if k < i {
      assert cfg.comp(key, log[k].key) == 0;
    } else {
      assert k == i;
      forall j | 0 <= j < i ensures cfg.comp(key, log[j].key) != 0 {
        assert !cfg.Matches(log[j], key, NONE);
      }
    }
  }
}
