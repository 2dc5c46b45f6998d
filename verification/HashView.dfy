/** The hash table as its callers see it: the entries in order of insertion, and
    what the iteration in progress, if any, has still to visit. */
module HashView {
  import opened Seqs
  import opened HashLog
  import opened HashOrder
  import opened HashTurns
  import opened HashWalk
  import opened HashTable

  /** The calls of the interface; a cookie may be NONE. */
  datatype Op =
    | Insert(key: Key, obj: Obj)
    | Find(key: Key, cookie: nat)
    | Remove(key: Key, cookie: nat)
    | Swap(key: Key, cookie: nat, obj: Obj)
    | Begin(dir: Dir)
    | Next(gen: nat, dir: Dir)

  datatype Answer = Cookie(c: Option<nat>) | Object(o: Option<Obj>) | Gen(g: nat) | Visited(e: Option<Entry>)

  /** An iteration: the place it is at, and those it has still to visit. */
  datatype Tour = Tour(dir: Dir, gen: nat, at: Option<nat>, pending: seq<nat>)

  datatype View = View(log: seq<Entry>, tour: Option<Tour>)

  ghost predicate TourOk(log: seq<Entry>, t: Tour) {
    Distinct<nat>(t.pending) && AllLive(log, t.pending) && (t.at.Some? ==> t.at.value !in t.pending)
  }

  ghost predicate ViewOk(v: View) { LogOk(v.log) && (v.tour.Some? ==> TourOk(v.log, v.tour.value)) }

  /** What is to be visited comes, in each bucket, in the order of insertion. */
  ghost predicate Sequenced(cfg: Config, v: View) {
    cfg.nbucket > 0 && (v.tour.Some? ==> InTurn(cfg, v.log, v.tour.value.dir, v.tour.value.pending))
  }

  function ObjOf(e: Option<Entry>): Option<Obj> { match e case None => None case Some(x) => Some(x.obj) }

  // ----- calls -----

  /** What one call does to the view, and answers. */
  ghost predicate Effect(cfg: Config, v: View, op: Op, a: Answer, v': View) {
    && ViewOk(v') && Sequenced(cfg, v')
    && match op
       case Insert(k, o) => a.Cookie? && if a.c.None? then v' == v else Added(v, k, o, a.c.value, v')
       case Find(k, c) => a == Object(ObjOf(First(cfg, v.log, k, c))) && v' == v
       case Remove(k, c) =>
         var f := Target(cfg, v.log, k, c);
         a == Object(ObjOf(f)) && if f.None? then v' == v else Removed(v, f.value.cookie, v')
       case Swap(k, c, o) =>
         var f := Target(cfg, v.log, k, c);
         a == Object(ObjOf(f))
         && if f.Some? then Swapped(v, f.value.cookie, k, o, v')
            else v' == v || (c == NONE && exists c' :: Added(v, k, o, c', v'))
       case Begin(d) => a.Gen? && Begun(v, d, a.g, v')
       case Next(g, d) => a.Visited? && Advanced(v, g, d, a.e, v')
  }

  /** A new last entry, under a cookie that no live entry has; an iteration may
      visit it or not, and goes on as before. */
  ghost predicate Added(v: View, k: Key, o: Obj, c: nat, v': View) {
    && c != NONE && ByCookie(v.log, c).None? && v'.log == v.log + [Entry(k, o, c)]
    && SameTour(v.tour, v'.tour, c)
    && (v.tour.Some? ==>
          v'.tour.value.at == v.tour.value.at && Without<nat>(v'.tour.value.pending, c - 1) == v.tour.value.pending)
  }

  /** The entry is gone, from the list and from what is to be visited. */
  ghost predicate Removed(v: View, c: nat, v': View) {
    && c != NONE && v'.log == Drop(v.log, c) && SameTour(v.tour, v'.tour, c)
    && (v.tour.Some? ==> v'.tour.value.pending == Without<nat>(v.tour.value.pending, c - 1))
  }

  /** The entry is bound anew in its place. If the iteration is at that place, it
      visits it once more. */
  ghost predicate Swapped(v: View, c: nat, k: Key, o: Obj, v': View) {
    && c != NONE && v'.log == Rebind(v.log, c, k, o) && SameTour(v.tour, v'.tour, c)
    && (v.tour.Some? ==>
          v'.tour.value.pending == (if v.tour.value.at == Some(c - 1) then [c - 1] else []) + v.tour.value.pending)
  }

  /** The same iteration, at the same place unless that is the entry's. */
  ghost predicate SameTour(t: Option<Tour>, t': Option<Tour>, c: nat)
    requires c != NONE
  {
    && (t.Some? <==> t'.Some?)
    && (t.Some? ==>
          && t'.value.dir == t.value.dir && t'.value.gen == t.value.gen
          && (t.value.at == Some(c - 1) || t'.value.at == t.value.at))
  }

  /** All live entries are to be visited, each once, in a new generation. */
  ghost predicate Begun(v: View, d: Dir, g: nat, v': View) {
    && v'.log == v.log && v'.tour.Some?
    && (v.tour.Some? ==> g != v.tour.value.gen)
    && v'.tour.value == Tour(d, g, None, v'.tour.value.pending)
    && forall c: nat :: c != NONE && ByCookie(v.log, c).Some? ==> c - 1 in v'.tour.value.pending
  }

  ghost predicate Current(v: View, g: nat, d: Dir) {
    v.tour.Some? && v.tour.value.gen == g && v.tour.value.dir == d
  }

  /** A call for the next entry belongs to the iteration in progress. */
  ghost predicate Asks(v: View, op: Op) { op.Next? ==> Current(v, op.gen, op.dir) }

  /** The next entry, or the end. No more is said of a call that does not belong
      to the iteration in progress than that it ends it. */
  ghost predicate Advanced(v: View, g: nat, d: Dir, e: Option<Entry>, v': View) {
    && v'.log == v.log
    && if !Current(v, g, d) then v'.tour == None
       else if v.tour.value.pending == [] then e == None && v'.tour == None
       else
         var p := v.tour.value.pending;
         e.Some? && e == ByCookie(v.log, p[0] + 1)
         && v'.tour == Some(v.tour.value.(at := Some(p[0]), pending := p[1..]))
  }

  /** What a client has to mind: it deletes by a cookie only through a key of the
      entry's bucket, or from a bucket that keeps another entry, replaces by the
      cookie of a live entry, with a key of its bucket, and asks only the
      iteration in progress for the next entry. */
  ghost predicate Fair(cfg: Config, v: View, op: Op)
    requires cfg.nbucket > 0 && LogOk(v.log)
  {
    match op
    case Remove(k, c) =>
      var f := Target(cfg, v.log, k, c);
      f.Some? ==> cfg.B(k) == cfg.B(f.value.key) || BucketOf(cfg, v.log, cfg.B(f.value.key)) != [c - 1]
    case Swap(k, c, _) =>
      var f := Target(cfg, v.log, k, c);
      if f.Some? then cfg.B(k) == cfg.B(f.value.key) else c == NONE
    case Next(_, _) => Asks(v, op)
    case _ => true
  }

  // ----- runs -----

  /** A client's next call may depend on all answers so far. */
  type Client = seq<Answer> -> Op

  /** What the table has been, and answered, along a run of the client. */
  ghost predicate History(cfg: Config, v: View, client: Client, answers: seq<Answer>, views: seq<View>) {
    && |views| == |answers| + 1 && views[0] == v
    && forall i :: 0 <= i < |answers| ==> Effect(cfg, views[i], client(answers[..i]), answers[i], views[i + 1])
  }

  /** The client's calls are fair, whatever it was answered. */
  ghost predicate Disciplined(cfg: Config, v: View, client: Client)
    requires cfg.nbucket > 0
  {
    forall answers, views: seq<View> :: History(cfg, v, client, answers, views) && LogOk(views[|answers|].log) ==>
      Fair(cfg, views[|answers|], client(answers))
  }

  lemma HistoryOn(cfg: Config, v: View, client: Client, answers: seq<Answer>, views: seq<View>, a: Answer, v': View)
    requires History(cfg, v, client, answers, views) && Effect(cfg, views[|answers|], client(answers), a, v')
    ensures History(cfg, v, client, answers + [a], views + [v'])
  {
    hide Effect;
    var as', vs' := answers + [a], views + [v'];
    forall i | 0 <= i < |as'| ensures Effect(cfg, vs'[i], client(as'[..i]), as'[i], vs'[i + 1]) {
      assert as'[..i] == answers[..i];
      assert answers[..|answers|] == answers;
    }
  }

  // ----- what an iteration visits, whatever else is called meanwhile -----

  /** The call begins no iteration, and neither deletes nor replaces the entry of
      cookie c. */
  ghost predicate Spares(cfg: Config, v: View, op: Op, c: nat) {
    && !op.Begin?
    && (op.Remove? || op.Swap? ==>
          var f := Target(cfg, v.log, op.key, op.cookie); f.Some? ==> f.value.cookie != c)
  }

  ghost function Pends(v: View, c: nat): nat {
    if v.tour.Some? && c != NONE && c - 1 in v.tour.value.pending then 1 else 0
  }

  function Yields(a: Answer, c: nat): nat { if a.Visited? && a.e.Some? && a.e.value.cookie == c then 1 else 0 }

  /** How often the entry of cookie c is visited in calls i to j. */
  function Visits(answers: seq<Answer>, c: nat, i: nat, j: nat): nat
    requires i <= j <= |answers|
    decreases j - i
  {
    if i == j then 0 else Visits(answers, c, i, j - 1) + Yields(answers[j - 1], c)
  }

  /** The run is spared from call i to call j: the entry of c is there and is left
      alone, and the iteration goes on. */
  ghost predicate LeftAlone(cfg: Config, client: Client, answers: seq<Answer>, views: seq<View>, c: nat, i: nat, j: nat)
    requires i <= j <= |answers| && |views| == |answers| + 1
  {
    && c != NONE && ViewOk(views[i]) && ByCookie(views[i].log, c).Some?
    && (forall k :: i <= k < j ==> Spares(cfg, views[k], client(answers[..k]), c))
    && (forall k :: i <= k <= j ==> views[k].tour.Some?)
  }

  /** A live entry that is left alone is visited if it was to be visited, and is
      no more to be visited then: an entry added meanwhile, at most once. Nothing
      else that is called makes a difference. */
  lemma {:induction false} Conserved(
    cfg: Config, v: View, client: Client, answers: seq<Answer>, views: seq<View>, c: nat, i: nat, j: nat)
    requires History(cfg, v, client, answers, views) && i <= j <= |answers|
    requires LeftAlone(cfg, client, answers, views, c, i, j)
    ensures Visits(answers, c, i, j) + Pends(views[j], c) == Pends(views[i], c)
    ensures ViewOk(views[j]) && ByCookie(views[j].log, c).Some?
    decreases j - i
  {
    hide Effect, ViewOk, Spares, Pends, Yields;
    if i < j {
      Conserved(cfg, v, client, answers, views, c, i, j - 1);
      EffectSpares(cfg, views[j - 1], client(answers[..j - 1]), answers[j - 1], views[j], c);
    }
  }

  /** From the beginning of an iteration to its end every entry that was there
      and is left alone is visited exactly once. */
  lemma VisitedOnce(
    cfg: Config, v: View, client: Client, answers: seq<Answer>, views: seq<View>, c: nat, i: nat, j: nat)
    requires History(cfg, v, client, answers, views) && i < j < |answers|
    requires client(answers[..i]).Begin? && c != NONE && ByCookie(views[i].log, c).Some?
    requires LeftAlone(cfg, client, answers, views, c, i + 1, j)
    requires Asks(views[j], client(answers[..j])) && client(answers[..j]).Next? && answers[j] == Visited(None)
    ensures Visits(answers, c, i + 1, j) == 1
  {
    hide ViewOk, LeftAlone;
    Conserved(cfg, v, client, answers, views, c, i + 1, j);
    assert Effect(cfg, views[i], client(answers[..i]), answers[i], views[i + 1]);
    assert Effect(cfg, views[j], client(answers[..j]), answers[j], views[j + 1]);
  }

  /** Nothing is visited that is not live, and the end comes when nothing is left. */
  lemma VisitedLive(cfg: Config, v: View, op: Op, a: Answer, v': View)
    requires Effect(cfg, v, op, a, v') && ViewOk(v) && op.Next? && Asks(v, op)
    ensures a.e.Some? ==> a.e.value in v.log && a.e == ByCookie(v.log, a.e.value.cookie)
    ensures a.e.None? <==> v.tour.value.pending == []
  {
    if v.tour.value.pending != [] { ByCookieIsMember(v.log, v.tour.value.pending[0] + 1); }
  }

  /** After the call that removed it an entry is never visited, by whatever
      iteration, until an entry is added under its cookie again. */
  lemma NeverAgain(
    cfg: Config, v: View, client: Client, answers: seq<Answer>, views: seq<View>, c: nat, i: nat, j: nat)
    requires History(cfg, v, client, answers, views) && i < j <= |answers|
    requires var op := client(answers[..i]);
      op.Remove? && var f := Target(cfg, views[i].log, op.key, op.cookie); f.Some? && f.value.cookie == c
    requires forall k :: i < k < j ==> Asks(views[k], client(answers[..k])) && !Reissued(views, c, k)
    ensures Visits(answers, c, i + 1, j) == 0 && ByCookie(views[j].log, c).None?
  {
    hide ViewOk, ByCookie, Drop, Target;
    var log := views[i].log;
    assert Effect(cfg, views[i], client(answers[..i]), answers[i], views[i + 1]);
    DropMembers(log, c);
    ByCookieIsMember(Drop(log, c), c);
    NotVisited(cfg, v, client, answers, views, c, i + 1, j);
  }

  /** Call k adds an entry under the cookie. */
  ghost predicate Reissued(views: seq<View>, c: nat, k: nat)
    requires k + 1 < |views|
  {
    ByCookie(views[k].log, c).None? && ByCookie(views[k + 1].log, c).Some?
  }

  lemma {:induction false} NotVisited(
    cfg: Config, v: View, client: Client, answers: seq<Answer>, views: seq<View>, c: nat, i: nat, j: nat)
    requires History(cfg, v, client, answers, views) && i <= j <= |answers|
    requires ViewOk(views[i]) && ByCookie(views[i].log, c).None?
    requires forall k :: i <= k < j ==> Asks(views[k], client(answers[..k])) && !Reissued(views, c, k)
    ensures Visits(answers, c, i, j) == 0 && ViewOk(views[j]) && ByCookie(views[j].log, c).None?
    decreases j - i
  {
    hide Effect, ViewOk, Asks, ByCookie, Yields;
    if i < j {
      NotVisited(cfg, v, client, answers, views, c, i, j - 1);
      assert !Reissued(views, c, j - 1);
      DeadStep(cfg, views[j - 1], client(answers[..j - 1]), answers[j - 1], views[j], c);
    }
  }

  lemma DeadStep(cfg: Config, v: View, op: Op, a: Answer, v': View, c: nat)
    requires Effect(cfg, v, op, a, v') && ViewOk(v) && ByCookie(v.log, c).None? && Asks(v, op)
    ensures Yields(a, c) == 0 && ViewOk(v')
  {
    hide ByCookie;
    if op.Next? { VisitedLive(cfg, v, op, a, v'); }
  }

  /** One call that leaves the entry alone. */
  lemma EffectSpares(cfg: Config, v: View, op: Op, a: Answer, v': View, c: nat)
    requires ViewOk(v) && Effect(cfg, v, op, a, v') && c != NONE && ByCookie(v.log, c).Some?
    requires Spares(cfg, v, op, c) && v.tour.Some? && v'.tour.Some?
    ensures ViewOk(v') && ByCookie(v'.log, c).Some? && Yields(a, c) + Pends(v', c) == Pends(v, c)
  {
    hide Drop, Rebind, ByCookie, First, Without, TourOk;
    var p, p' := v.tour.value.pending, v'.tour.value.pending;
    match op
    case Insert(k, o) => if a.c.Some? { AddSpares(v, k, o, a.c.value, v', c); }
    case Find(_, _) =>
    case Remove(k, c') =>
      var f := Target(cfg, v.log, k, c');
      if f.Some? {
        DropSpares(v.log, f.value.cookie, c);
        WithoutMembers<nat>(p, f.value.cookie - 1);
      }
    case Swap(k, c', o) =>
      var f := Target(cfg, v.log, k, c');
      if f.Some? {
        RebindSpares(v.log, f.value.cookie, k, o, c);
      } else if v' != v {
        var c'' :| Added(v, k, o, c'', v');
        AddSpares(v, k, o, c'', v', c);
      }
    case Next(g, d) =>
      ByCookieIsMember(v.log, p[0] + 1);
      HeadOf(v.log, v.tour.value);
  }

  lemma HeadOf(log: seq<Entry>, t: Tour)
    requires TourOk(log, t) && t.pending != []
    ensures t.pending[0] !in t.pending[1..] && t.pending == [t.pending[0]] + t.pending[1..]
  {
  }

  lemma AddSpares(v: View, k: Key, o: Obj, c': nat, v': View, c: nat)
    requires Added(v, k, o, c', v') && c != NONE && ByCookie(v.log, c).Some? && v.tour.Some?
    ensures ByCookie(v'.log, c).Some?
    ensures c - 1 in v'.tour.value.pending <==> c - 1 in v.tour.value.pending
  {
    hide Without, ByCookie;
    WithoutMembers<nat>(v'.tour.value.pending, c' - 1);
    ByCookieIsMember(v.log, c);
    var e := ByCookie(v.log, c).value;
    assert e in v'.log;
    ByCookieIsMember(v'.log, c);
  }

  lemma DropSpares(log: seq<Entry>, c': nat, c: nat)
    requires ByCookie(log, c).Some? && c' != c
    ensures ByCookie(Drop(log, c'), c).Some?
  {
    ByCookieIsMember(log, c);
    DropMembers(log, c');
    ByCookieIsMember(Drop(log, c'), c);
  }

  lemma RebindSpares(log: seq<Entry>, c': nat, k: Key, o: Obj, c: nat)
    requires ByCookie(log, c).Some? && c' != c
    ensures ByCookie(Rebind(log, c', k, o), c).Some?
  {
    ByCookieIsMember(log, c);
    var i :| 0 <= i < |log| && log[i] == ByCookie(log, c).value;
    var log' := Rebind(log, c', k, o);
    assert log'[i] == log[i] && log'[i] in log';
    ByCookieIsMember(log', c);
  }

  // ----- the order of visits -----

  /** Which of two entries of one bucket a direction comes to first. */
  ghost predicate Sooner(cfg: Config, log: seq<Entry>, d: Dir, c: nat, c': nat)
    requires cfg.nbucket > 0
  {
    if d.Forward? then Ahead(cfg, log, c, c') else Ahead(cfg, log, c', c)
  }

  /** Of two entries of one bucket that are there from the beginning of an
      iteration and left alone, the one added first has been visited when a
      forward iteration visits the other, and the other way round backwards.
      Whatever else is called meanwhile makes no difference. */
  lemma InsertionOrder(
    cfg: Config, v: View, client: Client, answers: seq<Answer>, views: seq<View>, d: Dir, c: nat, c': nat,
    i: nat, j: nat)
    requires cfg.nbucket > 0 && History(cfg, v, client, answers, views) && i < j < |answers|
    requires client(answers[..i]) == Op.Begin(d) && Sooner(cfg, views[i].log, d, c, c')
    requires LeftAlone(cfg, client, answers, views, c, i + 1, j) && LeftAlone(cfg, client, answers, views, c', i + 1, j)
    requires Asks(views[j], client(answers[..j])) && client(answers[..j]).Next? && Yields(answers[j], c') == 1
    ensures Visits(answers, c, i + 1, j) == 1
  {
    hide ViewOk, LeftAlone, Ahead, InTurn, Effect, Sooner;
    BeginsSooner(cfg, views[i], d, answers[i], views[i + 1], c, c');
    LiveThen(cfg, client, answers, views, c, i + 1, j);
    StaysSooner(cfg, v, client, answers, views, d, c, c', i + 1, j);
    Conserved(cfg, v, client, answers, views, c, i + 1, j);
    NotPassedOver(cfg, views[j], client(answers[..j]), answers[j], views[j + 1], d, c, c');
  }

  lemma LiveThen(cfg: Config, client: Client, answers: seq<Answer>, views: seq<View>, c: nat, i: nat, j: nat)
    requires i <= j <= |answers| && |views| == |answers| + 1
    requires LeftAlone(cfg, client, answers, views, c, i, j)
    ensures c != NONE && ViewOk(views[i]) && ByCookie(views[i].log, c).Some?
  {
  }

  lemma BeginsSooner(cfg: Config, v: View, d: Dir, a: Answer, v': View, c: nat, c': nat)
    requires cfg.nbucket > 0 && Effect(cfg, v, Op.Begin(d), a, v') && Sooner(cfg, v.log, d, c, c')
    ensures Sooner(cfg, v'.log, d, c, c') && Sequenced(cfg, v')
    ensures v'.tour.Some? && v'.tour.value.dir == d
    ensures c != NONE && ByCookie(v'.log, c).Some? ==> Pends(v', c) == 1
  {
    hide ViewOk, Ahead, InTurn;
  }

  lemma {:induction false} StaysSooner(
    cfg: Config, v: View, client: Client, answers: seq<Answer>, views: seq<View>, d: Dir, c: nat, c': nat,
    i: nat, j: nat)
    requires cfg.nbucket > 0 && History(cfg, v, client, answers, views) && i <= j <= |answers|
    requires Sooner(cfg, views[i].log, d, c, c') && Sequenced(cfg, views[i])
    requires views[i].tour.Some? && views[i].tour.value.dir == d
    requires LeftAlone(cfg, client, answers, views, c, i, j) && LeftAlone(cfg, client, answers, views, c', i, j)
    ensures Sooner(cfg, views[j].log, d, c, c') && Sequenced(cfg, views[j])
    ensures views[j].tour.Some? && views[j].tour.value.dir == d
    decreases j - i
  {
    hide Effect, ViewOk, Sequenced, Spares, Sooner;
    if i < j {
      StaysSooner(cfg, v, client, answers, views, d, c, c', i, j - 1);
      SoonerSpares(cfg, views[j - 1], client(answers[..j - 1]), answers[j - 1], views[j], d, c, c');
    }
  }

  /** One call that leaves both entries alone. */
  lemma SoonerSpares(cfg: Config, v: View, op: Op, a: Answer, v': View, d: Dir, c: nat, c': nat)
    requires cfg.nbucket > 0 && Effect(cfg, v, op, a, v') && Sooner(cfg, v.log, d, c, c')
    requires Spares(cfg, v, op, c) && Spares(cfg, v, op, c') && v.tour.Some? && v'.tour.Some?
    ensures Sooner(cfg, v'.log, d, c, c') && Sequenced(cfg, v') && v'.tour.value.dir == v.tour.value.dir
  {
    hide Drop, Rebind, ByCookie, First, Without, TourOk, Ahead, InTurn;
    var first, second := if d.Forward? then c else c', if d.Forward? then c' else c;
    match op
    case Insert(k, o) => if a.c.Some? { AppendAhead(cfg, v.log, Entry(k, o, a.c.value), first, second); }
    case Find(_, _) =>
    case Remove(k, x) =>
      var f := Target(cfg, v.log, k, x);
      if f.Some? { DropAhead(cfg, v.log, f.value.cookie, first, second); }
    case Swap(k, x, o) =>
      var f := Target(cfg, v.log, k, x);
      if f.Some? {
        RebindAhead(cfg, v.log, f.value.cookie, k, o, first, second);
      } else if v' != v {
        var x' :| Added(v, k, o, x', v');
        AppendAhead(cfg, v.log, Entry(k, o, x'), first, second);
      }
    case Next(_, _) =>
  }

  /** When one entry is visited, no sooner one is still to be visited. */
  lemma NotPassedOver(cfg: Config, v: View, op: Op, a: Answer, v': View, d: Dir, c: nat, c': nat)
    requires cfg.nbucket > 0 && Effect(cfg, v, op, a, v') && Sooner(cfg, v.log, d, c, c') && Sequenced(cfg, v)
    requires v.tour.Some? && v.tour.value.dir == d && op.Next? && Asks(v, op) && Yields(a, c') == 1
    ensures Pends(v, c) == 0
  {
    hide ByCookie, TourOk, InTurn, Sooner;
    var p := v.tour.value.pending;
    ByCookieIsMember(v.log, p[0] + 1);
    HeadSoonest(cfg, v.log, d, p, c);
  }

  lemma HeadSoonest(cfg: Config, log: seq<Entry>, d: Dir, p: seq<nat>, c: nat)
    requires cfg.nbucket > 0 && InTurn(cfg, log, d, p) && p != [] && Sooner(cfg, log, d, c, p[0] + 1)
    ensures forall k :: 0 <= k < |p| ==> p[k] + 1 != c
  {
    hide Ahead;
    forall k | 0 <= k < |p| ensures p[k] + 1 != c {
      assert !Sooner(cfg, log, d, p[k] + 1, p[0] + 1);
    }
  }
}
