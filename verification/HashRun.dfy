/** Whole runs of a hash table: a client that minds which bucket a cookie belongs
    to, and which iteration is in progress, cannot tell the table from its view. */
module HashRun {
  import opened Seqs
  import opened HashLog
  import opened HashOrder
  import opened HashSlab
  import opened HashWalk
  import opened HashTurns
  import opened HashTable
  import opened HashView

  // ----- the view of a table -----

  ghost function Place(pos: Pos): Option<nat> { if pos.At? then Some(pos.e) else None }

  /** The view, with the iteration in direction d if there is one. */
  ghost function Shown(t: Table, d: Option<Dir>): View
    requires t.Lists()
    reads t
  {
    View(t.log, if d == None then None else Some(Tour(d.value, t.gen, Place(t.pos), t.ToVisit(d.value))))
  }

  /** v is a view of the table; its iteration goes in the stored direction. */
  ghost predicate Shows(t: Table, v: View)
    requires t.Lists()
    reads t
  {
    && (v.tour.None? ==> v == Shown(t, None))
    && (v.tour.Some? ==> t.dir == Some(v.tour.value.dir) && v == Shown(t, t.dir))
  }

  lemma ShownOk(t: Table)
    requires t.Lists()
    ensures forall d :: ViewOk(Shown(t, d)) && Sequenced(t.cfg, Shown(t, d))
  {
    hide InTurn, Consistent, Pending;
    t.Facts();
    forall d ensures ViewOk(Shown(t, d)) && Sequenced(t.cfg, Shown(t, d)) {
      if d.Some? {
        t.PendingLive(d.value);
        t.VisitsInTurn(d.value);
      }
    }
  }

  // ----- calls of a table -----

  /** Whether the table is sound after the call. */
  ghost predicate Keeps(t: Table, op: Op, env: Env)
    requires t.Lists()
    reads t, t.slab
  {
    match op
    case Insert(_, _) => t.Room(env) ==> t.hasBuckets || env.buckets
    case Remove(k, c) =>
      var f := Target(t.cfg, t.log, k, c);
      f.Some? ==> t.cfg.B(k) == t.cfg.B(f.value.key) || t.buckets[t.cfg.B(f.value.key)] != [f.value.cookie - 1]
    case Swap(k, c, _) =>
      var f := Target(t.cfg, t.log, k, c);
      if f.Some? then t.cfg.B(k) == t.cfg.B(f.value.key)
      else if c == NONE then t.Room(env) ==> t.hasBuckets || env.buckets
      else !t.Stores(c, env)
    case _ => true
  }

  /** One call: sound afterwards exactly if Keeps, and then a step of the view. */
  method Call(t: Table, op: Op, env: Env, ghost v: View) returns (a: Answer, ghost v': View)
    requires t.Valid() && Shows(t, v)
    modifies t, t.slab
    ensures t.Valid() <==> old(Keeps(t, op, env))
    ensures t.Valid() ==> Shows(t, v') && Effect(t.cfg, v, op, a, v')
  {
    hide Effect, Shows, Consistent, Slab.Valid, Target;
    match op {
      case Insert(k, o) => a, v' := InsertCall(t, k, o, env, v);
      case Find(k, c) => a, v' := FindCall(t, k, c, env, v);
      case Remove(k, c) => a, v' := RemoveCall(t, k, c, env, v);
      case Swap(k, c, o) => a, v' := SwapCall(t, k, c, o, env, v);
      case Begin(d) => a, v' := BeginCall(t, d, env, v);
      case Next(g, d) => a, v' := NextCall(t, g, d, env, v);
    }
  }

  method InsertCall(t: Table, k: Key, o: Obj, env: Env, ghost v: View) returns (a: Answer, ghost v': View)
    requires t.Valid() && Shows(t, v)
    modifies t, t.slab
    ensures t.Valid() <==> old(Keeps(t, Insert(k, o), env))
    ensures t.Valid() ==> Shows(t, v') && Effect(t.cfg, v, Insert(k, o), a, v')
  {
    hide Sequenced, First, Drop, ByCookie, SlabOk, LimitOk, Consistent, Slab.Valid;
    var c := t.Add(k, o, env);
    a, v' := Cookie(c), v;
    if t.Valid() {
      ShownOk(t);
      v' := Shown(t, if v.tour.Some? then t.dir else None);
      if c.Some? { NewCookie(t, old(t.log), Entry(k, o, c.value)); }
    }
  }

  method FindCall(t: Table, k: Key, c: nat, env: Env, ghost v: View) returns (a: Answer, ghost v': View)
    requires t.Valid() && Shows(t, v)
    modifies t, t.slab
    ensures t.Valid() && Shows(t, v') && Effect(t.cfg, v, Find(k, c), a, v')
  {
    hide Sequenced, First, ByCookie, SlabOk, LimitOk, Consistent, Slab.Valid;
    var r := t.Lookup(k, c, env);
    ShownOk(t);
    a, v' := Object(r), v;
  }

  method RemoveCall(t: Table, k: Key, c: nat, env: Env, ghost v: View) returns (a: Answer, ghost v': View)
    requires t.Valid() && Shows(t, v)
    modifies t, t.slab
    ensures t.Valid() <==> old(Keeps(t, Remove(k, c), env))
    ensures t.Valid() ==> Shows(t, v') && Effect(t.cfg, v, Remove(k, c), a, v')
  {
    hide Sequenced, Target, Drop, SlabOk, LimitOk, Consistent, Slab.Valid, Table.Stepped, Without, ViewOk, Pending;
    if t.dir.Some? { t.StepsBack(t.dir.value); }
    var r := t.Del(k, c, env);
    a, v' := Object(r), v;
    if t.Valid() {
      ShownOk(t);
      v' := Shown(t, if v.tour.Some? then t.dir else None);
    }
  }

  method SwapCall(t: Table, k: Key, c: nat, o: Obj, env: Env, ghost v: View) returns (a: Answer, ghost v': View)
    requires t.Valid() && Shows(t, v)
    modifies t, t.slab
    ensures t.Valid() <==> old(Keeps(t, Swap(k, c, o), env))
    ensures t.Valid() ==> Shows(t, v') && Effect(t.cfg, v, Swap(k, c, o), a, v')
  {
    hide Sequenced, Target, Rebind, ByCookie, SlabOk, LimitOk, Consistent, Slab.Valid, Table.Stepped, Without, ViewOk,
      Pending;
    if t.dir.Some? { t.StepsBack(t.dir.value); }
    var r;
    ghost var added;
    r, added := t.Replace(k, c, o, env);
    a, v' := Object(r), v;
    if t.Valid() {
      ShownOk(t);
      v' := Shown(t, if v.tour.Some? then t.dir else None);
      if added.Some? {
        NewCookie(t, old(t.log), Entry(k, o, added.value));
        assert Added(v, k, o, added.value, v');
      }
    }
  }

  method BeginCall(t: Table, d: Dir, env: Env, ghost v: View) returns (a: Answer, ghost v': View)
    requires t.Valid() && Shows(t, v)
    modifies t, t.slab
    ensures t.Valid() && Shows(t, v') && Effect(t.cfg, v, Op.Begin(d), a, v')
  {
    hide Sequenced, InTurn, ByCookie, Consistent, Slab.Valid, IterOrder, AllLive;
    var g := t.Begin(d);
    ShownOk(t);
    t.WholeOrder(d);
    forall c: nat | c != NONE && ByCookie(t.log, c).Some? ensures c - 1 in t.ToVisit(d) { t.CookieSlot(c); }
    a, v' := Gen(g), Shown(t, Some(d));
  }

  method NextCall(t: Table, g: nat, d: Dir, env: Env, ghost v: View) returns (a: Answer, ghost v': View)
    requires t.Valid() && Shows(t, v)
    modifies t, t.slab
    ensures t.Valid() && Shows(t, v') && Effect(t.cfg, v, Next(g, d), a, v')
  {
    hide Sequenced, InTurn, ByCookie, Consistent, Slab.Valid, IterOrder, AllLive;
    var s := t.Iter(g, d);
    ShownOk(t);
    t.PendingLive(d);
    if s.Some? { t.OnEntry(); }
    a := Visited(if s.Some? then Some(t.slots[s.value]) else None);
    v' := Shown(t, if s.Some? && Current(v, g, d) then Some(d) else None);
  }

  lemma NewCookie(t: Table, log: seq<Entry>, e: Entry)
    requires t.Lists() && t.log == log + [e]
    ensures e.cookie != NONE && ByCookie(log, e.cookie).None?
  {
    t.Facts();
    ByCookieIsMember(log, e.cookie);
    var n := |log|;
    assert t.log[n] == e;
    forall i | 0 <= i < n ensures log[i].cookie != e.cookie { assert t.log[i] == log[i]; }
  }

  /** What is found under a cookie and a key is what a deletion by that cookie
      takes, and in the bucket of the key. */
  lemma Issued(t: Table, key: Key, cookie: nat)
    requires t.Lists() && First(t.cfg, t.log, key, cookie).Some?
    ensures Target(t.cfg, t.log, key, cookie) == First(t.cfg, t.log, key, cookie)
    ensures t.cfg.nbucket > 0 && t.cfg.B(key) == t.cfg.B(First(t.cfg, t.log, key, cookie).value.key)
  {
    t.Facts();
    if cookie != NONE { FirstByCookie(t.cfg, t.log, key, cookie); }
    FirstIsMember(t.cfg, t.log, key, cookie);
  }

  /** Once the bucket array can be had, the client's care with entries is exactly
      what keeps the table sound, but for a replacement by a dead cookie that finds
      no slot to store the entry in. Asking for the next entry never harms. */
  lemma FairKeeps(t: Table, op: Op, env: Env, v: View)
    requires t.Valid() && (t.hasBuckets || env.buckets) && v.log == t.log
    ensures t.cfg.nbucket > 0 && LogOk(t.log)
    ensures Keeps(t, op, env) <==>
      Fair(t.cfg, v, op) || op.Next?
      || (op.Swap? && Target(t.cfg, t.log, op.key, op.cookie).None? && !t.Stores(op.cookie, env))
  {
    t.Facts();
    match op
    case Remove(k, c) =>
      t.HomeOfFirst(k);
      t.TargetCookie(k, c);
    case Swap(k, c, _) => t.HomeOfFirst(k);
    case _ =>
  }

  /** n calls of any disciplined client are a run of the view. Memory for chunks
      may fail at any call; memory for the bucket array has to be there as long
      as the array is not. */
  method Run(t: Table, client: Client, n: nat, envs: (nat, bool) -> Env, ghost v: View)
    returns (answers: seq<Answer>, ghost views: seq<View>)
    requires t.Valid() && t.cfg.nbucket > 0 && Shows(t, v) && Disciplined(t.cfg, v, client)
    requires forall i :: envs(i, false).buckets
    modifies t, t.slab
    ensures t.Valid() && |answers| == n
    ensures History(t.cfg, v, client, answers, views) && Shows(t, views[n])
  {
    hide Consistent, Slab.Valid, Effect, Fair, Keeps;
    answers, views := [], [v];
    for i := 0 to n
      invariant t.Valid() && |answers| == i
      invariant History(t.cfg, v, client, answers, views) && Shows(t, views[i])
    {
      var op, env := client(answers), envs(i, t.hasBuckets);
      FairKeeps(t, op, env, views[i]);
      var a;
      ghost var v';
      a, v' := Call(t, op, env, views[i]);
      HistoryOn(t.cfg, v, client, answers, views, a, v');
      answers, views := answers + [a], views + [v'];
    }
  }

  // ----- the iterator without a stored direction -----

  /** Two iterations are begun, and the outdated one is asked for an entry: that
      clears the stored direction. Then the live one gets the first entry. */
  method Confused(t: Table) returns (first: nat)
    requires t.Valid() && InRange(t.used, t.buckets) && IterOrder(Forward, t.used, t.buckets) != []
    modifies t`pos, t`dir, t`gen
    ensures t.Valid() && t.dir == None && t.pos.At? && t.pos.e == first
    ensures [first] + t.ToVisit(Forward) == IterOrder(Forward, t.used, t.buckets)
  {
    hide Table.Valid, InTurn, IterOrder, Consistent, Pending, AllLive;
    var oldGen := t.Begin(Forward);
    var gen := t.Begin(Forward);
    var none := t.Iter(oldGen, Forward);
    var a := t.Iter(gen, Forward);
    first := a.value;
  }

  /** With the first entry deleted the iteration goes on to the third: the second
      is passed over, and will not be visited, though it is live. */
  method PassedOver(t: Table, env: Env) returns (first: nat, later: nat)
    requires t.Valid() && InRange(t.used, t.buckets) && |IterOrder(Forward, t.used, t.buckets)| >= 3
    modifies t, t.slab
    ensures t.Valid()
    ensures var order := IterOrder(Forward, old(t.used), old(t.buckets));
      && first == order[0] && later == order[2]
      && ByCookie(t.log, order[1] + 1).Some? && order[1] !in t.ToVisit(Forward)
  {
    hide Slab.Valid, First, Drop, ByCookie, IterOrder, Consistent, Pending, Target, AllLive, Off, InRange, Distinct,
      InTurn;
    ghost var order := IterOrder(Forward, t.used, t.buckets);
    t.WholeOrder(Forward);
    first := Confused(t);
    PassingOver(t, order);
    var gen := t.gen;
    var e := t.slots[first];
    var gone := t.Del(e.key, first + 1, env);
    var next := t.Iter(gen, Forward);
    later := next.value;
    assert t.ToVisit(Forward) == ([order[2]] + t.ToVisit(Forward))[1..] == order[3..];
  }

  lemma PassingOver(t: Table, order: seq<nat>)
    requires t.Lists() && t.pos.At? && t.dir == None && |order| >= 3 && [t.pos.e] + t.ToVisit(Forward) == order
    requires Distinct<nat>(order) && AllLive(t.log, order) && forall s :: s in t.slots <==> s in order
    ensures var first := t.pos.e;
      && first == order[0] && first in t.slots
      && Target(t.cfg, t.log, t.slots[first].key, first + 1) == Some(t.slots[first])
      && t.slots[first].cookie == first + 1
      && Without<nat>(t.Stepped(Forward, first), first) == order[2..]
      && ByCookie(Drop(t.log, first + 1), order[1] + 1).Some?
    ensures order[2..] == [order[2]] + order[3..] && order[1] !in order[3..]
  {
    hide Consistent, Pending, IterOrder, Drop, ByCookie, Without;
    var first := t.pos.e;
    t.InReach();
    Behind(order, first, t.ToVisit(Forward));
    t.CookieSlot(first + 1);
    StillLive(t.log, first + 1, order[1] + 1);
  }

  lemma Behind(order: seq<nat>, first: nat, p: seq<nat>)
    requires [first] + p == order && Distinct<nat>(order) && |order| >= 3
    ensures first == order[0] && first in order && p != [] && order[1] != first && order[1] !in order[3..]
    ensures p[1..] == order[2..] == [order[2]] + order[3..] && Without<nat>(order[2..], first) == order[2..]
  {
    assert first !in order[2..];
    WithoutAbsent<nat>(order[2..], first);
  }

  lemma StillLive(log: seq<Entry>, gone: nat, cookie: nat)
    requires ByCookie(log, cookie).Some? && cookie != gone
    ensures ByCookie(Drop(log, gone), cookie).Some?
  {
    ByCookieIsMember(log, cookie);
    DropMembers(log, gone);
    ByCookieIsMember(Drop(log, gone), cookie);
  }
}
