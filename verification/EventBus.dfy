/** Event busses: re-entrant synchronous emission with delayed deletion of
    watches, and the queue of asynchronous events pumped by a deferred callback. */
module EventBus {
  import opened Seqs

  type Id = nat

  // ----- callbacks -----

  datatype Pending = Pending(bus: nat, id: nat, data: nat, json: bool)

  /** What a callback does: get a bus, add or delete a watch, emit synchronously on some
      bus, queue an event. An emission says what the callbacks it calls do, in
      the order of their being called. */
  datatype Act =
    | Get(bus: nat, ok: bool)
    | Add(bus: nat, mask: set<nat>)
    | Del(w: Id)
    | Emit(bus: nat, id: nat, data: nat, json: bool, replies: seq<Reply>)
    | Queue(p: Pending, ok: bool)
  datatype Reply = Reply(acts: seq<Act>)
  datatype Plan = Plan(replies: seq<Reply>)

  // ----- state -----

  datatype Bus = Bus(watches: seq<Id>, dead: set<Id>, ndead: nat, busy: nat)

  /** Emission em called w; w was deleted by its owner; w was unlinked and
      freed; a queued event began to be delivered. */
  datatype Event = Called(w: Id, em: nat, id: nat, data: nat) | Deleted(w: Id) | Freed(w: Id) | Delivered(p: Pending)

  /** The busses; home says which bus a watch is on. */
  datatype World = World(buses: map<nat, Bus>, home: map<Id, nat>, masks: map<Id, set<nat>>, count: nat)

  /** The event queue and the deferred lists; eventd, the pump, is deferred
      callback 0. The last three record all events ever queued, those delivered
      and unlinked, and the references held by running emissions. */
  datatype Line = Line(
    eventq: seq<Pending>, refs: multiset<nat>, deferred: seq<Id>, inactive: seq<Id>, active: bool,
    queued: seq<Pending>, done: seq<Pending>, held: multiset<nat>)

  datatype State = State(world: World, line: Line, log: seq<Event>, emissions: nat)

  const EVENTD: Id := 0

  ghost predicate BusOk(s: World, b: nat)
    requires b in s.buses
  {
    var x := s.buses[b];
    && Distinct<Id>(x.watches)
    && (forall i :: 0 <= i < |x.watches| ==> x.watches[i] in s.home && s.home[x.watches[i]] == b)
    && (forall w :: w in x.dead ==> w in x.watches)
    && (x.busy == 0 ==> x.dead == {})
    && (x.ndead == 0 <==> x.dead == {})
  }

  ghost predicate Bussed(s: World) {
    && (forall b :: b in s.buses ==> BusOk(s, b))
    && (forall w :: w in s.home ==> w < s.count && w in s.masks && s.home[w] in s.buses)
  }

  ghost predicate Linked(s: World, w: Id) {
    w in s.home && s.home[w] in s.buses && w in s.buses[s.home[w]].watches
  }

  ghost predicate Dying(s: World, w: Id) {
    w in s.home && s.home[w] in s.buses && w in s.buses[s.home[w]].dead
  }

  /** No call of a watch after its deletion, let alone its release, and no
      second release. */
  ghost predicate Lawful(log: seq<Event>) {
    forall i, j :: 0 <= i < j < |log| ==> !Breach(log[i], log[j])
  }

  ghost predicate Breach(first: Event, second: Event) {
    || ((first.Deleted? || first.Freed?) && second.Called? && first.w == second.w)
    || (first.Freed? && second.Freed? && first.w == second.w)
  }

  /** The log agrees with the busses: what was deleted is dying or gone, what
      is gone was deleted and then freed. */
  ghost predicate Logged(s: World, log: seq<Event>, emissions: nat) {
    && Lawful(log)
    && (forall k :: 0 <= k < |log| ==> Entry(s, log[k], emissions))
    && (forall w :: w in s.home && !Linked(s, w) ==> Deleted(w) in log && Freed(w) in log)
    && (forall w :: Dying(s, w) ==> Deleted(w) in log)
  }

  ghost predicate Entry(s: World, e: Event, emissions: nat) {
    match e
    case Called(w, em, _, _) => w in s.home && em < emissions
    case Deleted(w) => w in s.home && (Dying(s, w) || !Linked(s, w))
    case Freed(w) => w in s.home && !Linked(s, w)
    case Delivered(_) => true
  }

  function Datas(q: seq<Pending>): multiset<nat> {
    if q == [] then multiset{} else (if q[0].json then multiset{q[0].data} else multiset{}) + Datas(q[1..])
  }

  /** Events wait only while the pump is scheduled; each queued event is
      delivered or waiting, in order; references are exactly those of the
      waiting events and of the running emissions. */
  ghost predicate Lined(buses: set<nat>, q: Line) {
    && (q.eventq != [] ==> q.active && EVENTD in q.deferred)
    && (EVENTD in q.deferred <==> EVENTD !in q.inactive)
    && (forall i :: 0 <= i < |q.eventq| ==> q.eventq[i].bus in buses)
    && q.queued == q.done + q.eventq
    && q.refs == Datas(q.eventq) + q.held
  }

  ghost predicate Ok(s: State) {
    Bussed(s.world) && Logged(s.world, s.log, s.emissions) && Lined(s.world.buses.Keys, s.line)
  }

  // ----- readings of the log -----

  /** The watches that emission em called, in order. */
  ghost function CallsOf(log: seq<Event>, em: nat): seq<Id> {
    if log == [] then []
    else
      var e := log[|log| - 1];
      CallsOf(log[..|log| - 1], em) + if e.Called? && e.em == em then [e.w] else []
  }

  ghost function Deliveries(log: seq<Event>): seq<Pending> {
    if log == [] then []
    else
      var e := log[|log| - 1];
      Deliveries(log[..|log| - 1]) + if e.Delivered? then [e.p] else []
  }

  lemma LogAppend(log: seq<Event>, e: Event, em: nat)
    ensures CallsOf(log + [e], em) == CallsOf(log, em) + if e.Called? && e.em == em then [e.w] else []
    ensures Deliveries(log + [e]) == Deliveries(log) + if e.Delivered? then [e.p] else []
  {
    assert (log + [e])[..|log|] == log;
  }

  // ----- what any callback leaves alone -----

  /** A bus in use loses no watch and revives none. */
  ghost predicate Kept(s: World, t: World) {
    && (forall b :: b in s.buses ==> b in t.buses && t.buses[b].busy == s.buses[b].busy)
    && (forall b :: b in s.buses && s.buses[b].busy > 0 ==>
          s.buses[b].watches <= t.buses[b].watches && s.buses[b].dead <= t.buses[b].dead)
    && s.count <= t.count
    && (forall w :: w in s.home ==> w in t.home && t.home[w] == s.home[w])
    && (forall w :: w in s.masks && w in s.home ==> w in t.masks && t.masks[w] == s.masks[w])
  }

  ghost predicate Idle(s: World, w: Id) {
    w in s.home && s.home[w] in s.buses && s.buses[s.home[w]].busy == 0
  }

  /** Nothing was freed on a bus in use, nothing queued was delivered, and the
      emissions that had begun made no further calls. */
  ghost predicate Told(log: seq<Event>, log': seq<Event>, emissions: nat, t: World) {
    log <= log' && forall k :: |log| <= k < |log'| ==> Aside(log'[k], emissions, t)
  }

  ghost predicate Aside(e: Event, emissions: nat, t: World) {
    && (e.Freed? ==> Idle(t, e.w))
    && (e.Called? ==> e.em >= emissions)
    && !e.Delivered?
  }

  lemma {:induction false} ToldReadings(log: seq<Event>, log': seq<Event>, em: nat)
    requires log <= log' && forall k :: |log| <= k < |log'| ==> !(log'[k].Called? && log'[k].em == em)
    ensures CallsOf(log', em) == CallsOf(log, em)
  {
    if |log| < |log'| {
      ToldReadings(log, log'[..|log'| - 1], em);
    } else {
      assert log == log';
    }
  }

  ghost predicate Moved(s: State, t: State) {
    && Kept(s.world, t.world) && Told(s.log, t.log, s.emissions, t.world)
    && s.emissions <= t.emissions
    && s.line.eventq <= t.line.eventq && t.line.done == s.line.done && t.line.held == s.line.held
  }

  lemma MovedTrans(s: State, t: State, u: State)
    requires Moved(s, t) && Moved(t, u)
    ensures Moved(s, u)
  {
    forall k | |s.log| <= k < |u.log| ensures Aside(u.log[k], s.emissions, u.world) {
      if k < |t.log| { assert u.log[k] == t.log[k]; assert Aside(t.log[k], s.emissions, t.world); }
      else { assert Aside(u.log[k], t.emissions, u.world); }
    }
  }

  lemma MovedSame(s: State)
    ensures Moved(s, s)
  {
  }

  // ----- steps -----

  function WithBus(s: World, b: nat): World { s.(buses := s.buses[b := Bus([], {}, 0, 0)]) }

  function WithWatch(s: World, b: nat, mask: set<nat>): World
    requires b in s.buses
  {
    var buses := s.buses[b := s.buses[b].(watches := s.buses[b].watches + [s.count])];
    World(buses, s.home[s.count := b], s.masks[s.count := mask], s.count + 1)
  }

  /** A watch of a bus in use is only marked. */
  function Doomed(s: World, w: Id): World
    requires w in s.home && s.home[w] in s.buses
  {
    var b := s.home[w];
    s.(buses := s.buses[b := s.buses[b].(dead := s.buses[b].dead + {w}, ndead := s.buses[b].ndead + 1)])
  }

  function Dropped(s: World, w: Id): World
    requires w in s.home && s.home[w] in s.buses
  {
    var b := s.home[w];
    s.(buses := s.buses[b := s.buses[b].(watches := Without<Id>(s.buses[b].watches, w))])
  }

  function Entered(s: World, b: nat): World
    requires b in s.buses
  {
    s.(buses := s.buses[b := s.buses[b].(busy := s.buses[b].busy + 1)])
  }

  function Live(xs: seq<Id>, dead: set<Id>): seq<Id> {
    if xs == [] then [] else (if xs[0] in dead then [] else [xs[0]]) + Live(xs[1..], dead)
  }

  function Releases(xs: seq<Id>, dead: set<Id>): seq<Event> {
    if xs == [] then [] else (if xs[0] in dead then [Freed(xs[0])] else []) + Releases(xs[1..], dead)
  }

  /** What is left when an emission ends: the outermost one purges. */
  function Left(s: World, b: nat): World
    requires b in s.buses && s.buses[b].busy > 0
  {
    var x := s.buses[b];
    s.(buses := s.buses[b := if x.busy > 1 then x.(busy := x.busy - 1) else Bus(Live(x.watches, x.dead), {}, 0, 0)])
  }

  function Enqueued(q: Line, p: Pending): Line {
    q.(eventq := q.eventq + [p], refs := q.refs + Datas([p]), active := true,
       deferred := Without<Id>(q.deferred, EVENTD) + [EVENTD], inactive := Without<Id>(q.inactive, EVENTD),
       queued := q.queued + [p])
  }

  lemma LawfulAppend(log: seq<Event>, e: Event)
    requires Lawful(log) && forall i :: 0 <= i < |log| ==> !Breach(log[i], e)
    ensures Lawful(log + [e])
  {
  }

  // ----- every step keeps the invariant and leaves running emissions alone -----

  lemma WithBusOk(s: World, b: nat)
    requires Bussed(s) && b !in s.buses
    ensures var t := WithBus(s, b);
      Bussed(t) && Kept(s, t) && forall w ::
        w in s.home ==> (Linked(t, w) <==> Linked(s, w)) && (Dying(t, w) <==> Dying(s, w))
  {
    var t := WithBus(s, b);
    forall c | c in t.buses ensures BusOk(t, c) { if c != b { assert BusOk(s, c); } }
  }

  lemma WithBusMoved(s: State, b: nat)
    requires Ok(s) && b !in s.world.buses
    ensures var t := s.(world := WithBus(s.world, b)); Ok(t) && Moved(s, t)
  {
    hide Lawful, Datas, Bussed, Kept, Linked, Dying, CallsOf;
    WithBusOk(s.world, b);
    LoggedAgain(s.world, WithBus(s.world, b), s.log, s.emissions);
  }

  lemma WithWatchOk(s: World, b: nat, mask: set<nat>, log: seq<Event>, em: nat)
    requires Bussed(s) && Logged(s, log, em) && b in s.buses
    ensures var t := WithWatch(s, b, mask); Bussed(t) && Logged(t, log, em) && Kept(s, t)
  {
    hide Lawful, BusOk;
    var t := WithWatch(s, b, mask);
    WithWatchBus(s, b, mask);
    assert Linked(t, s.count);
    LoggedAgain(s, t, log, em);
  }

  lemma WithWatchBus(s: World, b: nat, mask: set<nat>)
    requires Bussed(s) && b in s.buses
    ensures forall c :: c in s.buses ==> BusOk(WithWatch(s, b, mask), c)
    ensures s.count !in s.home && !Dying(WithWatch(s, b, mask), s.count)
    ensures var t := WithWatch(s, b, mask);
      forall w :: w in s.home ==> (Linked(t, w) <==> Linked(s, w)) && (Dying(t, w) <==> Dying(s, w))
  {
    var t := WithWatch(s, b, mask);
    assert s.count !in s.home && s.count !in s.buses[b].watches by { assert BusOk(s, b); }
    DistinctConcat<Id>(s.buses[b].watches, [s.count]);
    forall c | c in s.buses ensures BusOk(t, c) { assert BusOk(s, c); }
  }

  /** The log stays in agreement when the watches it knows stay as they are. */
  lemma LoggedAgain(s: World, t: World, log: seq<Event>, em: nat)
    requires Logged(s, log, em)
    requires forall w ::
      w in s.home ==> w in t.home && (Linked(t, w) <==> Linked(s, w)) && (Dying(t, w) <==> Dying(s, w))
    requires forall w :: w in t.home && w !in s.home ==> Linked(t, w) && !Dying(t, w)
    ensures Logged(t, log, em)
  {
    hide Lawful, Linked, Dying;
    forall k | 0 <= k < |log| ensures Entry(t, log[k], em) { assert Entry(s, log[k], em); }
    forall w | Dying(t, w) ensures Deleted(w) in log { assert w in t.home by { DyingHome(t, w); } }
  }

  lemma DyingHome(s: World, w: Id)
    requires Dying(s, w)
    ensures w in s.home
  {
  }

  lemma DoomedOk(s: World, w: Id, log: seq<Event>, em: nat)
    requires Bussed(s) && Logged(s, log, em) && Linked(s, w) && s.buses[s.home[w]].busy > 0
    ensures var t := Doomed(s, w); Bussed(t) && Logged(t, log + [Deleted(w)], em) && Kept(s, t)
  {
    hide BusOk, Bussed, Lawful;
    DoomedBus(s, w);
    LawfulAppend(log, Deleted(w));
    DoomedLogged(s, w, log, em);
  }

  lemma DoomedBus(s: World, w: Id)
    requires Bussed(s) && Linked(s, w) && s.buses[s.home[w]].busy > 0
    ensures Bussed(Doomed(s, w))
  {
    var t := Doomed(s, w);
    forall c | c in s.buses ensures BusOk(t, c) { assert BusOk(s, c); }
  }

  lemma DoomedLogged(s: World, w: Id, log: seq<Event>, em: nat)
    requires Logged(s, log, em) && Linked(s, w) && Lawful(log + [Deleted(w)])
    ensures Logged(Doomed(s, w), log + [Deleted(w)], em)
  {
    hide Lawful;
    var t := Doomed(s, w);
    forall v ensures (Linked(t, v) <==> Linked(s, v)) && (Dying(t, v) <==> Dying(s, v) || v == w) {}
    forall k | 0 <= k < |log| ensures Entry(t, log[k], em) { assert Entry(s, log[k], em); }
  }

  lemma DroppedOk(s: World, w: Id, log: seq<Event>, em: nat)
    requires Bussed(s) && Logged(s, log, em) && Linked(s, w) && s.buses[s.home[w]].busy == 0
    ensures var t := Dropped(s, w); Bussed(t) && Logged(t, log + [Deleted(w), Freed(w)], em) && Kept(s, t)
  {
    hide Lawful, Without, BusOk;
    DroppedBus(s, w);
    DroppedLogged(s, w, log, em);
  }

  lemma DroppedBus(s: World, w: Id)
    requires Bussed(s) && Linked(s, w) && s.buses[s.home[w]].busy == 0
    ensures Bussed(Dropped(s, w))
    ensures var t := Dropped(s, w);
      forall v ::
        (Linked(t, v) <==> Linked(s, v) && v != w) && (Dying(t, v) <==> Dying(s, v)) && !(Dying(s, v) && v == w)
  {
    hide Without;
    var t := Dropped(s, w);
    var xs := s.buses[s.home[w]].watches;
    var ys := Without<Id>(xs, w);
    assert BusOk(s, s.home[w]);
    WithoutMembers<Id>(xs, w);
    WithoutDistinct<Id>(xs, w);
    forall i | 0 <= i < |ys| ensures ys[i] in xs { assert ys[i] in ys; }
    forall c | c in s.buses ensures BusOk(t, c) { assert BusOk(s, c); }
  }

  lemma DroppedLogged(s: World, w: Id, log: seq<Event>, em: nat)
    requires Logged(s, log, em) && Linked(s, w)
    requires var t := Dropped(s, w);
      forall v ::
        (Linked(t, v) <==> Linked(s, v) && v != w) && (Dying(t, v) <==> Dying(s, v)) && !(Dying(s, v) && v == w)
    ensures Logged(Dropped(s, w), log + [Deleted(w), Freed(w)], em)
  {
    hide Linked, Dying;
    LinkedHome(s, w);
    var t := Dropped(s, w);
    LawfulAppend(log, Deleted(w));
    forall i | 0 <= i < |log + [Deleted(w)]| ensures !Breach((log + [Deleted(w)])[i], Freed(w)) {
      if i < |log| { assert Entry(s, log[i], em); }
    }
    LawfulAppend(log + [Deleted(w)], Freed(w));
    var log' := log + [Deleted(w), Freed(w)];
    assert log' == log + [Deleted(w)] + [Freed(w)];
    assert log'[|log|] == Deleted(w) && log'[|log| + 1] == Freed(w);
    forall k | 0 <= k < |log'| ensures Entry(t, log'[k], em) { if k < |log| { assert Entry(s, log[k], em); } }
  }

  lemma LinkedHome(s: World, w: Id)
    requires Linked(s, w)
    ensures w in s.home && s.home[w] in s.buses
  {
  }

  lemma EnteredOk(s: World, b: nat, log: seq<Event>, em: nat)
    requires Bussed(s) && Logged(s, log, em) && b in s.buses
    ensures var t := Entered(s, b); Bussed(t) && Logged(t, log, em + 1)
  {
    hide Lawful, Linked, Dying, Bussed;
    var t := Entered(s, b);
    EnteredBus(s, b);
    LoggedAgain(s, t, log, em);
    forall k | 0 <= k < |log| ensures Entry(t, log[k], em + 1) { assert Entry(t, log[k], em); }
  }

  lemma EnteredBus(s: World, b: nat)
    requires Bussed(s) && b in s.buses
    ensures var t := Entered(s, b);
      Bussed(t) && t.home == s.home && forall w :: (Linked(t, w) <==> Linked(s, w)) && (Dying(t, w) <==> Dying(s, w))
  {
    var t := Entered(s, b);
    forall c | c in s.buses ensures BusOk(t, c) { assert BusOk(s, c); }
  }

  lemma CalledOk(s: World, w: Id, log: seq<Event>, em: nat, e: Event)
    requires Logged(s, log, em) && Linked(s, w) && !Dying(s, w) && e.Called? && e.w == w && e.em < em
    ensures Logged(s, log + [e], em)
  {
    forall i | 0 <= i < |log| ensures !Breach(log[i], e) { assert Entry(s, log[i], em); }
    LawfulAppend(log, e);
    hide Lawful, Dying;
    forall k | 0 <= k < |log| ensures Entry(s, log[k], em) {}
  }

  // ----- the purge -----

  lemma LiveFacts(xs: seq<Id>, dead: set<Id>)
    ensures forall w :: w in Live(xs, dead) <==> w in xs && w !in dead
    ensures forall w :: Freed(w) in Releases(xs, dead) <==> w in xs && w in dead
    ensures forall k :: 0 <= k < |Releases(xs, dead)| ==> Releases(xs, dead)[k].Freed?
  {
  }

  lemma LiveDistinct(xs: seq<Id>, dead: set<Id>)
    requires Distinct<Id>(xs)
    ensures Distinct<Id>(Live(xs, dead)) && Distinct<Event>(Releases(xs, dead))
  {
    if xs != [] {
      assert Distinct<Id>(xs[1..]);
      LiveDistinct(xs[1..], dead);
      LiveFacts(xs[1..], dead);
      assert xs[0] !in xs[1..];
      if xs[0] in dead { DistinctConcat<Event>([Freed(xs[0])], Releases(xs[1..], dead)); }
      else { DistinctConcat<Id>([xs[0]], Live(xs[1..], dead)); }
    }
  }

  lemma LiveConcat(xs: seq<Id>, w: Id, dead: set<Id>)
    ensures Live(xs + [w], dead) == Live(xs, dead) + if w in dead then [] else [w]
    ensures Releases(xs + [w], dead) == Releases(xs, dead) + if w in dead then [Freed(w)] else []
  {
    if xs == [] {
      assert xs + [w] == [w] && [w][1..] == [];
    } else {
      assert (xs + [w])[1..] == xs[1..] + [w];
      LiveConcat(xs[1..], w, dead);
    }
  }

  /** The end of an outermost emission frees exactly what died meanwhile. */
  lemma LeftOk(s: World, b: nat, log: seq<Event>, em: nat)
    requires Bussed(s) && Logged(s, log, em) && b in s.buses && s.buses[b].busy > 0
    ensures Bussed(Left(s, b)) && Logged(Left(s, b), LeftLog(s, b, log), em)
  {
    LeftBus(s, b);
    hide Lawful, Live, Releases, BusOk;
    var t := Left(s, b);
    if s.buses[b].busy > 1 {
      LoggedAgain(s, t, log, em);
    } else {
      LeftLogged(s, b, log, em);
    }
  }

  ghost function LeftLog(s: World, b: nat, log: seq<Event>): seq<Event>
    requires b in s.buses
  {
    if s.buses[b].busy > 1 then log else log + Releases(s.buses[b].watches, s.buses[b].dead)
  }

  lemma LeftBus(s: World, b: nat)
    requires Bussed(s) && b in s.buses && s.buses[b].busy > 0
    ensures Bussed(Left(s, b))
    ensures var t := Left(s, b); s.buses[b].busy == 1 ==>
      forall v ::
        && (Linked(t, v) <==> Linked(s, v) && !(Dying(s, v) && s.home[v] == b))
        && (Dying(t, v) <==> Dying(s, v) && s.home[v] != b)
  {
    hide Live, Releases;
    var t := Left(s, b);
    var x := s.buses[b];
    assert BusOk(s, b);
    LiveFacts(x.watches, x.dead);
    LiveDistinct(x.watches, x.dead);
    var ys := Live(x.watches, x.dead);
    forall i | 0 <= i < |ys| ensures ys[i] in x.watches { assert ys[i] in ys; }
    forall c | c in s.buses ensures BusOk(t, c) { assert BusOk(s, c); }
  }

  lemma LeftLogged(s: World, b: nat, log: seq<Event>, em: nat)
    requires Bussed(s) && Logged(s, log, em) && b in s.buses && s.buses[b].busy == 1
    requires var t := Left(s, b);
      forall v ::
        && (Linked(t, v) <==> Linked(s, v) && !(Dying(s, v) && s.home[v] == b))
        && (Dying(t, v) <==> Dying(s, v) && s.home[v] != b)
    ensures Logged(Left(s, b), LeftLog(s, b, log), em)
  {
    var t := Left(s, b);
    var x := s.buses[b];
    var fs := Releases(x.watches, x.dead);
    var log' := log + fs;
    assert BusOk(s, b);
    LiveFacts(x.watches, x.dead);
    LiveDistinct(x.watches, x.dead);
    hide Live, Releases;
    forall w | w in x.dead ensures Dying(s, w) && Linked(s, w) && Freed(w) in fs {}
    hide Bussed, BusOk;
    forall k | 0 <= k < |fs|
      ensures Dying(s, fs[k].w) && s.home[fs[k].w] == b && Linked(s, fs[k].w)
    {
      assert Freed(fs[k].w) in fs;
    }
    hide Linked, Dying;
    LawfulReleases(s, log, fs, em);
    forall k | 0 <= k < |log'| ensures Entry(t, log'[k], em) {
      if k < |log| { assert Entry(s, log[k], em); } else { assert log'[k] == fs[k - |log|]; DyingHome(s, log'[k].w); }
    }
  }

  lemma LawfulReleases(s: World, log: seq<Event>, fs: seq<Event>, em: nat)
    requires Logged(s, log, em) && Distinct<Event>(fs)
    requires forall k :: 0 <= k < |fs| ==> fs[k].Freed? && Linked(s, fs[k].w)
    ensures Lawful(log + fs)
  {
    hide Linked, Dying;
    forall i, j | 0 <= i < j < |log + fs| ensures !Breach((log + fs)[i], (log + fs)[j]) {
      if i < |log| { assert Entry(s, log[i], em); }
    }
  }

  // ----- the queue -----

  lemma {:induction false} DatasConcat(q: seq<Pending>, p: Pending)
    ensures Datas(q + [p]) == Datas(q) + Datas([p])
  {
    if q == [] {
      assert q + [p] == [p];
    } else {
      assert (q + [p])[1..] == q[1..] + [p];
      DatasConcat(q[1..], p);
    }
  }

  lemma EnqueuedOk(buses: set<nat>, q: Line, p: Pending)
    requires Lined(buses, q) && p.bus in buses
    ensures Lined(buses, Enqueued(q, p)) && q.eventq <= Enqueued(q, p).eventq
  {
    hide Without;
    WithoutMembers<Id>(q.deferred, EVENTD);
    WithoutMembers<Id>(q.inactive, EVENTD);
    DatasConcat(q.eventq, p);
  }

  function Popped(q: Line): Line
    requires q.eventq != []
  {
    q.(eventq := q.eventq[1..], refs := q.refs - Datas(q.eventq[..1]), done := q.done + q.eventq[..1])
  }

  lemma PoppedOk(buses: set<nat>, q: Line)
    requires Lined(buses, q) && q.eventq != []
    ensures Lined(buses, Popped(q))
  {
    assert Datas(q.eventq[..1]) == (if q.eventq[0].json then multiset{q.eventq[0].data} else multiset{}) by {
      assert q.eventq[..1][1..] == [];
    }
    assert q.done + q.eventq == q.done + q.eventq[..1] + q.eventq[1..];
  }

  // ----- one emission -----

  /** Emission em on bus b has dealt with the first n watches: idx are the
      places of those it called, each matching and in list order; the others do
      not match or were deleted before their turn. */
  ghost predicate Swept(s: State, b: nat, id: nat, data: nat, em: nat, from: seq<Id>, idx: seq<nat>, n: nat) {
    && b in s.world.buses && from <= s.world.buses[b].watches && n <= |s.world.buses[b].watches|
    && Picked(CallsOf(s.log, em), s.world.buses[b].watches, idx, n)
    && (forall i :: 0 <= i < |idx| && idx[i] < n ==> Watches(s.world, s.world.buses[b].watches[idx[i]], id))
    && (forall k | 0 <= k < n :: Watches(s.world, s.world.buses[b].watches[k], id) ==>
          k in idx || DeletedInTime(s.log, s.world.buses[b].watches, k, em))
    && (forall k ::
          0 <= k < |s.log| && s.log[k].Called? && s.log[k].em == em ==> s.log[k].id == id && s.log[k].data == data)
  }

  /** The k-th watch was deleted before emission em called any watch behind it. */
  ghost predicate DeletedInTime(log: seq<Event>, watches: seq<Id>, k: nat, em: nat)
    requires k < |watches|
  {
    exists p :: 0 <= p < |log| && log[p] == Deleted(watches[k]) && CallsInFront(log[..p], watches[..k], em)
  }

  ghost predicate CallsInFront(log: seq<Event>, watches: seq<Id>, em: nat) {
    forall q :: 0 <= q < |log| && log[q].Called? && log[q].em == em ==> log[q].w in watches
  }

  lemma DeletedStays(log: seq<Event>, log': seq<Event>, watches: seq<Id>, watches': seq<Id>, k: nat, em: nat)
    requires k < |watches| && log <= log' && watches <= watches' && DeletedInTime(log, watches, k, em)
    ensures DeletedInTime(log', watches', k, em)
  {
    assert watches'[..k] == watches[..k];
    var p :| 0 <= p < |log| && log[p] == Deleted(watches[k]) && CallsInFront(log[..p], watches[..k], em);
    assert log'[p] == log[p] && log'[..p] == log[..p];
  }

  lemma {:induction false} CallIsListed(log: seq<Event>, em: nat, q: nat)
    requires q < |log| && log[q].Called? && log[q].em == em
    ensures log[q].w in CallsOf(log, em)
  {
    if q < |log| - 1 {
      CallIsListed(log[..|log| - 1], em, q);
    }
  }

  /** A dead watch whose turn comes was deleted in time: so far only watches in
      front of it have been called. */
  lemma DeadInTime(log: seq<Event>, watches: seq<Id>, k: nat, em: nat, idx: seq<nat>)
    requires k < |watches| && Deleted(watches[k]) in log
    requires Picked(CallsOf(log, em), watches, idx, k)
    ensures DeletedInTime(log, watches, k, em)
  {
    hide CallsOf;
    var p :| 0 <= p < |log| && log[p] == Deleted(watches[k]);
    forall q | 0 <= q < p && log[..p][q].Called? && log[..p][q].em == em ensures log[..p][q].w in watches[..k] {
      CallIsListed(log, em, q);
      var i :| 0 <= i < |idx| && CallsOf(log, em)[i] == log[q].w;
      assert watches[idx[i]] == watches[..k][idx[i]];
    }
  }

  ghost predicate Watches(s: World, w: Id, id: nat) { w in s.masks && id in s.masks[w] }

  ghost predicate Picked(calls: seq<Id>, list: seq<Id>, idx: seq<nat>, n: nat) {
    && |calls| == |idx|
    && (forall i, j :: 0 <= i < j < |idx| ==> idx[i] < idx[j])
    && (forall i :: 0 <= i < |idx| ==> idx[i] < n && idx[i] < |list| && calls[i] == list[idx[i]])
  }

  lemma SweptMoved(s: State, t: State, b: nat, id: nat, data: nat, em: nat, from: seq<Id>, idx: seq<nat>, n: nat)
    requires Swept(s, b, id, data, em, from, idx, n) && Moved(s, t) && s.world.buses[b].busy > 0 && em < s.emissions
    requires Bussed(s.world) && Bussed(t.world)
    ensures Swept(t, b, id, data, em, from, idx, n) && CallsOf(t.log, em) == CallsOf(s.log, em)
  {
    hide CallsOf, DeletedInTime, Logged, Lined;
    SameWatches(s.world, t.world, b, id);
    var ws, ws' := s.world.buses[b].watches, t.world.buses[b].watches;
    SameCalls(s, t, em);
    hide Kept, Told, Bussed, Watches;
    forall k | 0 <= k < n && DeletedInTime(s.log, ws, k, em) ensures DeletedInTime(t.log, ws', k, em) {
      DeletedStays(s.log, t.log, ws, ws', k, em);
    }
  }

  lemma SameWatches(s: World, t: World, b: nat, id: nat)
    requires b in s.buses && s.buses[b].busy > 0 && Kept(s, t) && Bussed(s) && Bussed(t)
    ensures b in t.buses && s.buses[b].watches <= t.buses[b].watches
    ensures forall k :: 0 <= k < |s.buses[b].watches| ==>
      (Watches(t, t.buses[b].watches[k], id) <==> Watches(s, s.buses[b].watches[k], id))
  {
    assert BusOk(s, b);
    var ws := s.buses[b].watches;
    forall k | 0 <= k < |ws| ensures Watches(t, ws[k], id) <==> Watches(s, ws[k], id) { assert ws[k] in s.home; }
  }

  lemma SameCalls(s: State, t: State, em: nat)
    requires Moved(s, t) && em < s.emissions
    ensures s.log <= t.log && CallsOf(t.log, em) == CallsOf(s.log, em)
    ensures forall k :: |s.log| <= k < |t.log| ==> !(t.log[k].Called? && t.log[k].em == em)
  {
    assert forall k :: |s.log| <= k < |t.log| ==> Aside(t.log[k], s.emissions, t.world);
    ToldReadings(s.log, t.log, em);
  }

  lemma SweptSkip(s: State, b: nat, id: nat, data: nat, em: nat, from: seq<Id>, idx: seq<nat>, n: nat)
    requires Swept(s, b, id, data, em, from, idx, n) && n < |s.world.buses[b].watches| && Bussed(s.world)
    requires Logged(s.world, s.log, s.emissions)
    requires var w := s.world.buses[b].watches[n]; w in s.world.buses[b].dead || !Watches(s.world, w, id)
    ensures Swept(s, b, id, data, em, from, idx, n + 1)
  {
    hide CallsOf, Watches, DeletedInTime, Lawful, Entry;
    WatchAt(s.world, b, n);
    var w := s.world.buses[b].watches[n];
    if w in s.world.buses[b].dead {
      DeadInTime(s.log, s.world.buses[b].watches, n, em, idx);
    }
  }

  lemma SweptCall(s: State, b: nat, id: nat, data: nat, em: nat, from: seq<Id>, idx: seq<nat>, n: nat)
    requires Swept(s, b, id, data, em, from, idx, n) && n < |s.world.buses[b].watches|
    requires Watches(s.world, s.world.buses[b].watches[n], id)
    ensures var e := Called(s.world.buses[b].watches[n], em, id, data);
      && Swept(s.(log := s.log + [e]), b, id, data, em, from, idx + [n], n + 1)
      && CallsOf(s.log + [e], em) == CallsOf(s.log, em) + [e.w]
  {
    hide CallsOf, Watches, DeletedInTime;
    var e := Called(s.world.buses[b].watches[n], em, id, data);
    LogAppend(s.log, e, em);
    var ws := s.world.buses[b].watches;
    forall k | 0 <= k < n && DeletedInTime(s.log, ws, k, em) ensures DeletedInTime(s.log + [e], ws, k, em) {
      DeletedStays(s.log, s.log + [e], ws, ws, k, em);
    }
  }

  /** An emission's way along the list of its bus: the list as it was at the end,
      the places of the watches called, how far it went, and what came of the
      calls. */
  datatype Walk = Walk(list: seq<Id>, idx: seq<nat>, reach: nat, turns: seq<Course>)

  /** The states a callback goes through, from its being called on. */
  type Course = seq<State>

  /** What one emission did, from s to t: it called, in list order and each at
      most once, watches of the bus that match; and every watch that matches, of
      those there at the start and of those added that it came to, was called, or
      deleted before its turn. What was deleted is still listed while the bus is
      in use, and freed after. */
  ghost predicate Emitted(s: State, t: State, b: nat, id: nat, data: nat, k: Walk)
    requires b in s.world.buses && b in t.world.buses
  {
    && s.emissions < t.emissions && s.world.buses[b].watches <= k.list && Distinct<Id>(k.list)
    && |s.world.buses[b].watches| <= k.reach <= |k.list|
    && Reached(t.world, t.log, s.emissions, id, data, k.list, k.idx, k.reach)
    && Settled(t.world.buses[b], t.log, s.world.buses[b].busy, k.list)
  }

  ghost predicate Reached(t: World, log: seq<Event>, em: nat, id: nat, data: nat, list: seq<Id>, idx: seq<nat>,
                          n: nat) {
    && Picked(CallsOf(log, em), list, idx, n)
    && (forall i :: 0 <= i < |idx| && idx[i] < |list| ==> Watches(t, list[idx[i]], id))
    && (forall k :: 0 <= k < n && k < |list| && Watches(t, list[k], id) ==>
          k in idx || DeletedInTime(log, list, k, em))
    && (forall k :: 0 <= k < |log| && log[k].Called? && log[k].em == em ==> log[k].id == id && log[k].data == data)
  }

  ghost predicate Settled(x: Bus, log: seq<Event>, busy: nat, list: seq<Id>) {
    if busy > 0 then x.watches == list
    else x.dead == {} && forall i :: 0 <= i < |list| ==>
      (list[i] in x.watches <==> Freed(list[i]) !in log) && (Freed(list[i]) in log <==> Deleted(list[i]) in log)
  }

  /** The state as an emission on b finds it, with b in use. */
  function Inside(s: State, b: nat): State
    requires b in s.world.buses
  {
    s.(world := Entered(s.world, b))
  }

  function Begun(s: State, b: nat): State
    requires b in s.world.buses
  {
    State(Entered(s.world, b), s.line, s.log, s.emissions + 1)
  }

  ghost function Over(s: State, b: nat): State
    requires b in s.world.buses && s.world.buses[b].busy > 0
  {
    State(Left(s.world, b), s.line, LeftLog(s.world, b, s.log), s.emissions)
  }

  // ----- what callbacks do -----

  function LastOf(s: State, turns: seq<Course>): State {
    if turns == [] || turns[|turns| - 1] == [] then s
    else
      var ss := turns[|turns| - 1];
      ss[|ss| - 1]
  }

  function RefOf(p: Pending): multiset<nat> { if p.json then multiset{p.data} else multiset{} }

  /** A new watch, and nothing else: the last of its bus, alive, for just the
      events of its mask. */
  ghost predicate Hired(s: State, b: nat, mask: set<nat>, t: State)
    requires b in s.world.buses
  {
    var w := s.world.count;
    && t == s.(world := t.world) && w !in s.world.home && t.world.count == w + 1
    && b in t.world.buses && t.world.buses == s.world.buses[b := t.world.buses[b]]
    && t.world.buses[b] == s.world.buses[b].(watches := s.world.buses[b].watches + [w])
    && Linked(t.world, w) && !Dying(t.world, w) && (forall id :: Watches(t.world, w, id) <==> id in mask)
    && t.world.home.Keys == s.world.home.Keys + {w}
    && forall v :: v in s.world.home ==>
         t.world.home[v] == s.world.home[v] && forall id :: Watches(t.world, v, id) <==> Watches(s.world, v, id)
  }

  /** A linked watch deleted, and nothing else: only marked while its bus is in
      use, unlinked and freed otherwise. */
  ghost predicate Fired(s: State, w: Id, t: State) {
    && w in s.world.home && s.world.home[w] in s.world.buses && s.world.home[w] in t.world.buses
    && var b := s.world.home[w];
    var x, y := s.world.buses[b], t.world.buses[b];
    && t == s.(world := t.world, log := t.log) && t.world == s.world.(buses := s.world.buses[b := y])
    && if x.busy > 0 then
         y == x.(dead := y.dead, ndead := x.ndead + 1) && y.dead == x.dead + {w} && t.log == s.log + [Deleted(w)]
       else
         && y == x.(watches := y.watches) && t.log == s.log + [Deleted(w), Freed(w)]
         && exists k :: 0 <= k < |x.watches| && x.watches[k] == w && y.watches == x.watches[..k] + x.watches[k + 1..]
  }

  /** An event queued, with a reference to its data, and the pump scheduled, as
      the last of the deferred callbacks. */
  ghost predicate Waits(s: State, p: Pending, t: State) {
    && t == s.(line := t.line)
    && t.line == s.line.(eventq := s.line.eventq + [p], queued := s.line.queued + [p],
                         refs := s.line.refs + RefOf(p), active := true,
                         deferred := Without<Id>(s.line.deferred, EVENTD) + [EVENTD],
                         inactive := Without<Id>(s.line.inactive, EVENTD))
  }

  /** One act of a callback, and no more, leads from s to t. */
  ghost predicate Did(s: State, a: Act, t: State)
    decreases a
  {
    match a
    case Get(b, ok) =>
      if b in s.world.buses || !ok then t == s
      else t == s.(world := s.world.(buses := s.world.buses[b := Bus([], {}, 0, 0)]))
    case Add(b, mask) => if b in s.world.buses then Hired(s, b, mask, t) else t == s
    case Del(w) => if Linked(s.world, w) then Fired(s, w, t) else t == s
    case Queue(p, ok) => if p.bus in s.world.buses && ok then Waits(s, p, t) else t == s
    case Emit(b, id, data, json, replies) =>
      if b !in s.world.buses then t == s
      else
        var ref := RefOf(Pending(b, id, data, json));
        && b in t.world.buses
        && exists k ::
             Emitted(s, t, b, id, data, k) && Scripted(Holding(s, ref), b, id, data, replies, k, Holding(t, ref))
  }

  /** The acts of a callback, one after the other, lead from state to state. */
  ghost predicate Ran(acts: seq<Act>, ss: Course)
    decreases acts
  {
    |ss| == |acts| + 1 && forall k :: 0 <= k < |acts| ==> Did(ss[k], acts[k], ss[k + 1])
  }

  /** The n-th call of emission em is that of w, in state s, and what w does then is
      what the script says, or nothing if it says nothing. */
  ghost predicate Turn(s: State, w: Id, em: nat, id: nat, data: nat, replies: seq<Reply>, n: nat, ss: Course)
    decreases replies, 0
  {
    && ss != [] && ss[0] == CallOf(s, w, em, id, data)
    && if n < |replies| then Ran(replies[n].acts, ss) else |ss| == 1
  }

  /** Emission em called ws in turn; each call comes when the acts of the last one
      are done. */
  ghost predicate Played(s: State, em: nat, id: nat, data: nat, ws: seq<Id>, replies: seq<Reply>, turns: seq<Course>)
    decreases replies, 1
  {
    && |turns| == |ws|
    && forall i :: 0 <= i < |turns| ==> Turn(LastOf(s, turns[..i]), ws[i], em, id, data, replies, i, turns[i])
  }

  function CallOf(s: State, w: Id, em: nat, id: nat, data: nat): State {
    s.(log := s.log + [Called(w, em, id, data)])
  }

  /** The emission is nothing but its calls and their acts, between the bus being
      taken in use and being left. */
  ghost predicate Scripted(s: State, b: nat, id: nat, data: nat, replies: seq<Reply>, k: Walk, t: State)
    requires b in s.world.buses
    decreases replies, 2
  {
    && Played(Begun(s, b), s.emissions, id, data, CallsOf(t.log, s.emissions), replies, k.turns)
    && Halted(b, k.list, k.idx, k.reach, k.turns)
    && var u := LastOf(Begun(s, b), k.turns);
    b in u.world.buses && u.world.buses[b].busy > 0 && t == Over(u, b)
  }

  /** The walk has come to the end of the list. It goes on behind a watch it has
      called if there was a next one before the callback: what the callback of the
      last watch adds is passed over. */
  ghost predicate Halted(b: nat, list: seq<Id>, idx: seq<nat>, reach: nat, turns: seq<Course>) {
    && |turns| == |idx|
    && (forall i :: 0 <= i < |idx| ==> if idx[i] + 1 == reach then Listing(turns[i], b) == reach
                                       else idx[i] + 1 < reach && idx[i] + 1 < Listing(turns[i], b))
    && (idx == [] || idx[|idx| - 1] + 1 < reach ==> |list| == reach)
  }

  /** How many watches the bus has when a callback begins. */
  ghost function Listing(ss: Course, b: nat): nat {
    if ss != [] && b in ss[0].world.buses then |ss[0].world.buses[b].watches| else 0
  }

  /** All watches called so far had a next one. */
  ghost predicate Onward(b: nat, idx: seq<nat>, n: nat, turns: seq<Course>) {
    |turns| == |idx| && forall i :: 0 <= i < |idx| ==> idx[i] + 1 <= n && idx[i] + 1 < Listing(turns[i], b)
  }

  /** The same with one more reference held. */
  function Holding(s: State, ref: multiset<nat>): State {
    s.(line := s.line.(refs := s.line.refs + ref, held := s.line.held + ref))
  }

  /** A queued event and its emission: from its coming to the front of the queue
      to its leaving it. */
  datatype Delivery = Delivery(p: Pending, front: State, done: State, back: State, walk: Walk)

  ghost predicate Handed(d: Delivery, replies: seq<Reply>) {
    && d.front.line.eventq != [] && d.p == d.front.line.eventq[0]
    && d.p.bus in d.front.world.buses && d.p.bus in d.back.world.buses
    && Emitted(d.front, d.back, d.p.bus, d.p.id, d.p.data, d.walk)
    && Scripted(d.front.(log := d.front.log + [Delivered(d.p)]), d.p.bus, d.p.id, d.p.data, replies, d.walk, d.done)
    && var q := d.done.line;
    && q.eventq != [] && q.eventq[0] == d.p
    && d.back == d.done.(line := q.(eventq := q.eventq[1..], refs := q.refs - RefOf(d.p), done := q.done + [d.p]))
  }

  function RepliesOf(plans: seq<Plan>, k: nat): seq<Reply> { if k < |plans| then plans[k].replies else [] }

  function Events(ds: seq<Delivery>): seq<Pending> { seq(|ds|, k requires 0 <= k < |ds| => ds[k].p) }

  function EndOf(s: State, ds: seq<Delivery>): State { if ds == [] then s else ds[|ds| - 1].back }

  /** One delivery after the other. */
  ghost predicate Pumped(s: State, ds: seq<Delivery>, plans: seq<Plan>) {
    forall k :: 0 <= k < |ds| ==> ds[k].front == EndOf(s, ds[..k]) && Handed(ds[k], RepliesOf(plans, k))
  }

  lemma PumpedNone(s: State, plans: seq<Plan>)
    ensures Pumped(s, [], plans) && EndOf(s, []) == s && Events([]) == []
  {
  }

  lemma PumpedNext(s: State, ds: seq<Delivery>, plans: seq<Plan>, d: Delivery)
    requires Pumped(s, ds, plans) && d.front == EndOf(s, ds) && Handed(d, RepliesOf(plans, |ds|))
    ensures Pumped(s, ds + [d], plans) && EndOf(s, ds + [d]) == d.back && Events(ds + [d]) == Events(ds) + [d.p]
  {
    hide Handed;
    var ds' := ds + [d];
    assert ds'[..|ds|] == ds;
    forall k | 0 <= k < |ds| ensures ds'[..k] == ds[..k] {}
  }

  /** The emissions of the events are numbered in the order of the queue. */
  lemma {:induction false} PumpedInOrder(s: State, ds: seq<Delivery>, plans: seq<Plan>, i: nat, j: nat)
    requires Pumped(s, ds, plans) && i < j < |ds|
    ensures ds[i].front.emissions < ds[i].back.emissions <= ds[j].front.emissions
    decreases j
  {
    hide Scripted, Reached, Settled;
    assert ds[..j][j - 1] == ds[j - 1];
    if i < j - 1 { PumpedInOrder(s, ds, plans, i, j - 1); }
  }

  lemma {:induction false} HaltedHere(b: nat, was: State, list: seq<Id>, idx: seq<nat>, n: nat, turns: seq<Course>,
                                      ss: Course)
    requires Onward(b, idx, n, turns) && ss != [] && ss[0].world == was.world && b in was.world.buses
    ensures |was.world.buses[b].watches| == n + 1 ==> Halted(b, list, idx + [n], n + 1, turns + [ss])
    ensures |was.world.buses[b].watches| > n + 1 ==> Onward(b, idx + [n], n + 1, turns + [ss])
  {
  }

  lemma HaltedThere(b: nat, list: seq<Id>, idx: seq<nat>, n: nat, turns: seq<Course>)
    requires Onward(b, idx, n, turns) && (idx != [] ==> idx[|idx| - 1] < n)
    requires forall i, j :: 0 <= i < j < |idx| ==> idx[i] < idx[j]
    ensures |list| == n + 1 ==> Halted(b, list, idx, n + 1, turns)
    ensures Onward(b, idx, n + 1, turns)
  {
  }

  lemma HaltedNone(b: nat, list: seq<Id>)
    ensures Onward(b, [], 0, []) && (list == [] ==> Halted(b, list, [], 0, []))
  {
  }

  lemma {:induction false} TurnIs(
    s: State, t: State, w: Id, em: nat, id: nat, data: nat, replies: seq<Reply>, n: nat, ss: Course)
    requires t == CallOf(s, w, em, id, data) && ss != [] && ss[0] == t
    requires if n < |replies| then Ran(replies[n].acts, ss) else |ss| == 1
    ensures Turn(s, w, em, id, data, replies, n, ss)
  {
  }

  lemma PlayedNone(s: State, em: nat, id: nat, data: nat, replies: seq<Reply>)
    ensures Played(s, em, id, data, [], replies, []) && LastOf(s, []) == s
  {
  }

  lemma {:induction false} PlayedNext(
    s: State, em: nat, id: nat, data: nat, ws: seq<Id>, replies: seq<Reply>, turns: seq<Course>, w: Id, ss: Course)
    requires Played(s, em, id, data, ws, replies, turns)
    requires ss != [] && Turn(LastOf(s, turns), w, em, id, data, replies, |turns|, ss)
    ensures Played(s, em, id, data, ws + [w], replies, turns + [ss]) && LastOf(s, turns + [ss]) == ss[|ss| - 1]
  {
    hide Turn;
    var turns' := turns + [ss];
    assert turns'[..|turns|] == turns;
    forall i | 0 <= i < |turns| ensures turns'[..i] == turns[..i] {}
  }

  lemma SweptNone(s: State, b: nat, id: nat, data: nat)
    requires Ok(s) && b in s.world.buses
    ensures Ok(Begun(s, b)) && Swept(Begun(s, b), b, id, data, s.emissions, s.world.buses[b].watches, [], 0)
    ensures CallsOf(s.log, s.emissions) == []
  {
    hide Lined, BusOk, Bussed, Lawful, CallsOf;
    EnteredOk(s.world, b, s.log, s.emissions);
    assert Entered(s.world, b).buses.Keys == s.world.buses.Keys;
    forall k | 0 <= k < |s.log|
      ensures !(s.log[k].Called? && s.log[k].em == s.emissions)
    {
      assert Entry(s.world, s.log[k], s.emissions);
    }
    NoCalls(s.log, s.emissions);
  }

  lemma NoCalls(log: seq<Event>, em: nat)
    requires forall k :: 0 <= k < |log| ==> !(log[k].Called? && log[k].em == em)
    ensures CallsOf(log, em) == []
  {
  }

  lemma OverOk(t: State, b: nat)
    requires Ok(t) && b in t.world.buses && t.world.buses[b].busy > 0
    ensures Ok(Over(t, b))
  {
    hide Bussed, Logged, Lined, LeftLog;
    LeftOk(t.world, b, t.log, t.emissions);
    assert Left(t.world, b).buses.Keys == t.world.buses.Keys;
  }

  /** The end of the emission, seen from before its start. */
  lemma OverMoved(s: State, t: State, b: nat)
    requires b in s.world.buses && Moved(Inside(s, b), t) && Ok(t)
    ensures Moved(s, Over(t, b))
  {
    OverKept(s.world, t.world, b);
    OverTold(s, t, b);
    hide Kept, Told, Bussed, Logged, Lined, Left;
  }

  lemma OverKept(s: World, t: World, b: nat)
    requires b in s.buses && Kept(Entered(s, b), t)
    ensures b in t.buses && t.buses[b].busy == s.buses[b].busy + 1 && Kept(s, Left(t, b))
  {
    hide Live;
    assert Entered(s, b).buses[b].watches == s.buses[b].watches;
    forall c | c in s.buses ensures c in t.buses && t.buses[c].busy == s.buses[c].busy + if c == b then 1 else 0 {
      assert t.buses[c].busy == Entered(s, b).buses[c].busy;
    }
    forall c | c in s.buses && s.buses[c].busy > 0
      ensures s.buses[c].watches <= t.buses[c].watches && s.buses[c].dead <= t.buses[c].dead
    {
      assert Entered(s, b).buses[c].busy > 0;
    }
  }

  lemma OverTold(s: State, t: State, b: nat)
    requires b in s.world.buses && b in t.world.buses && t.world.buses[b].busy > 0 && Bussed(t.world)
    requires Told(s.log, t.log, s.emissions, t.world)
    ensures Told(s.log, LeftLog(t.world, b, t.log), s.emissions, Left(t.world, b))
  {
    hide Live, Releases;
    var x := t.world.buses[b];
    var log' := LeftLog(t.world, b, t.log);
    LiveFacts(x.watches, x.dead);
    assert BusOk(t.world, b);
    forall k | |s.log| <= k < |log'| ensures Aside(log'[k], s.emissions, Left(t.world, b)) {
      if k < |t.log| {
        assert log'[k] == t.log[k] && Aside(t.log[k], s.emissions, t.world);
      } else {
        var e := log'[k];
        assert e == Releases(x.watches, x.dead)[k - |t.log|] && e in Releases(x.watches, x.dead) && e.Freed?;
        assert Freed(e.w) in Releases(x.watches, x.dead);
        assert e.w in x.watches && t.world.home[e.w] == b;
      }
    }
  }

  lemma OverEmitted(s: State, t: State, b: nat, id: nat, data: nat, idx: seq<nat>, n: nat)
    requires Ok(s) && b in s.world.buses && Moved(Inside(s, b), t) && Ok(t) && Ok(Over(t, b))
    requires s.emissions < t.emissions
    requires Swept(t, b, id, data, s.emissions, s.world.buses[b].watches, idx, n) && |s.world.buses[b].watches| <= n
    ensures forall turns :: Emitted(s, Over(t, b), b, id, data, Walk(t.world.buses[b].watches, idx, n, turns))
    ensures CallsOf(Over(t, b).log, s.emissions) == CallsOf(t.log, s.emissions)
  {
    OverKept(s.world, t.world, b);
    OverReached(t, b, id, data, s.emissions, s.world.buses[b].watches, idx, n);
    OverSettled(t, b, s.world.buses[b].busy);
    assert BusOk(t.world, b);
    hide Reached, Settled, Logged, Lined, Left, LeftLog, Told, Kept;
  }

  lemma OverReached(t: State, b: nat, id: nat, data: nat, em: nat, from: seq<Id>, idx: seq<nat>, n: nat)
    requires b in t.world.buses && t.world.buses[b].busy > 0 && Logged(t.world, t.log, t.emissions)
    requires Swept(t, b, id, data, em, from, idx, n) && Bussed(t.world)
    ensures Reached(Left(t.world, b), LeftLog(t.world, b, t.log), em, id, data, t.world.buses[b].watches, idx, n)
    ensures CallsOf(LeftLog(t.world, b, t.log), em) == CallsOf(t.log, em)
  {
    hide Live, Releases, CallsOf, Lawful, Entry, Linked;
    var x := t.world.buses[b];
    var log' := LeftLog(t.world, b, t.log);
    LiveFacts(x.watches, x.dead);
    forall k | |t.log| <= k < |log'|
      ensures log'[k].Freed?
    {
      assert log'[k] == Releases(x.watches, x.dead)[k - |t.log|];
    }
    ToldReadings(t.log, log', em);
    assert BusOk(t.world, b);
    forall w | w in x.dead ensures Deleted(w) in log' { assert Dying(t.world, w); }
  }

  lemma OverSettled(t: State, b: nat, busy: nat)
    requires b in t.world.buses && t.world.buses[b].busy == busy + 1 && Ok(t) && Ok(Over(t, b))
    ensures var u := Over(t, b); Settled(u.world.buses[b], u.log, busy, t.world.buses[b].watches)
  {
    hide Live, Releases, Lawful, Entry, Lined, Dying;
    if busy == 0 {
      var u := Over(t, b);
      var x := t.world.buses[b];
      assert BusOk(t.world, b) && BusOk(u.world, b);
      forall i | 0 <= i < |x.watches|
        ensures (x.watches[i] in u.world.buses[b].watches <==> Freed(x.watches[i]) !in u.log)
        ensures (Freed(x.watches[i]) in u.log <==> Deleted(x.watches[i]) in u.log)
      {
        GoneOrNot(u, x.watches[i]);
      }
    }
  }

  /** On a bus out of use, linked is neither freed nor deleted. */
  lemma GoneOrNot(s: State, w: Id)
    requires Bussed(s.world) && Logged(s.world, s.log, s.emissions) && w in s.world.home
    requires s.world.home[w] in s.world.buses && s.world.buses[s.world.home[w]].busy == 0
    ensures Linked(s.world, w) <==> Freed(w) !in s.log
    ensures Freed(w) in s.log <==> Deleted(w) in s.log
  {
    assert BusOk(s.world, s.world.home[w]);
    if Freed(w) in s.log {
      var k :| 0 <= k < |s.log| && s.log[k] == Freed(w);
      assert Entry(s.world, s.log[k], s.emissions);
    }
    if Deleted(w) in s.log {
      var k :| 0 <= k < |s.log| && s.log[k] == Deleted(w);
      assert Entry(s.world, s.log[k], s.emissions);
    }
  }

  /** All that ending the emission amounts to. */
  lemma Finish(s: State, t: State, b: nat, id: nat, data: nat, idx: seq<nat>, n: nat)
    requires Ok(s) && b in s.world.buses && Moved(Inside(s, b), t) && Ok(t) && s.emissions < t.emissions
    requires Swept(t, b, id, data, s.emissions, s.world.buses[b].watches, idx, n) && |s.world.buses[b].watches| <= n
    ensures b in t.world.buses && t.world.buses[b].busy > 0
    ensures Ok(Over(t, b)) && Moved(s, Over(t, b))
    ensures forall turns :: Emitted(s, Over(t, b), b, id, data, Walk(t.world.buses[b].watches, idx, n, turns))
    ensures CallsOf(Over(t, b).log, s.emissions) == CallsOf(t.log, s.emissions)
  {
    hide Kept, Told, Bussed, Logged, Lined, Swept, Emitted, Left, LeftLog;
    OverKept(s.world, t.world, b);
    OverOk(t, b);
    OverMoved(s, t, b);
    OverEmitted(s, t, b, id, data, idx, n);
  }

  lemma BegunMoved(s: State, b: nat)
    requires b in s.world.buses
    ensures Moved(Inside(s, b), Begun(s, b))
  {
  }

  lemma WatchAt(s: World, b: nat, k: nat)
    requires Bussed(s) && b in s.buses && k < |s.buses[b].watches|
    ensures var w := s.buses[b].watches[k];
      w in s.masks && Linked(s, w) && s.home[w] == b && (Dying(s, w) <==> w in s.buses[b].dead)
  {
    assert BusOk(s, b);
  }

  /** The call of a live watch, as logged by its own emission. */
  lemma CallStep(s: State, t: State, b: nat, w: Id, id: nat, data: nat)
    requires b in s.world.buses && Ok(t) && Moved(Inside(s, b), t) && Linked(t.world, w)
    requires !Dying(t.world, w) && s.emissions < t.emissions
    ensures var u := t.(log := t.log + [Called(w, s.emissions, id, data)]); Ok(u) && Moved(Inside(s, b), u)
  {
    hide Bussed, Lined, Kept, Linked, Dying, Entered, Lawful;
    CalledOk(t.world, w, t.log, t.emissions, Called(w, s.emissions, id, data));
    var u := t.(log := t.log + [Called(w, s.emissions, id, data)]);
    forall k | |s.log| <= k < |u.log| ensures Aside(u.log[k], s.emissions, u.world) {
      if k < |t.log| { assert u.log[k] == t.log[k] && Aside(t.log[k], s.emissions, t.world); }
    }
  }

  lemma CallSweep(s: State, t: State, b: nat, w: Id, id: nat, data: nat, from: seq<Id>, idx: seq<nat>, n: nat)
    requires b in s.world.buses && Ok(t) && Moved(Inside(s, b), t) && s.emissions < t.emissions
    requires Swept(t, b, id, data, s.emissions, from, idx, n) && n < |t.world.buses[b].watches|
    requires w == t.world.buses[b].watches[n]
    requires w !in t.world.buses[b].dead && w in t.world.masks && id in t.world.masks[w]
    ensures var u := t.(log := t.log + [Called(w, s.emissions, id, data)]);
      && Ok(u) && Moved(Inside(s, b), u) && Swept(u, b, id, data, s.emissions, from, idx + [n], n + 1)
      && u == CallOf(t, w, s.emissions, id, data)
      && CallsOf(u.log, s.emissions) == CallsOf(t.log, s.emissions) + [w]
    ensures b in t.world.buses && |from| <= |t.world.buses[b].watches|
  {
    hide Kept, Told, Logged, Lined, Dying, Linked;
    assert Bussed(t.world);
    WatchAt(t.world, b, n);
    SweptCall(t, b, id, data, s.emissions, from, idx, n);
    hide Swept;
    CallStep(s, t, b, w, id, data);
  }

  lemma SkipSweep(t: State, b: nat, id: nat, data: nat, em: nat, from: seq<Id>, idx: seq<nat>, n: nat)
    requires Ok(t) && Swept(t, b, id, data, em, from, idx, n) && n < |t.world.buses[b].watches|
    requires var w := t.world.buses[b].watches[n];
      w in t.world.buses[b].dead || !(w in t.world.masks && id in t.world.masks[w])
    ensures Swept(t, b, id, data, em, from, idx, n + 1) && |from| <= |t.world.buses[b].watches|
    ensures (idx != [] ==> idx[|idx| - 1] < n) && forall i, j :: 0 <= i < j < |idx| ==> idx[i] < idx[j]
  {
    hide Bussed, Logged, Lined;
    SweptSkip(t, b, id, data, em, from, idx, n);
  }

  /** After a callback the walk goes on as if it had not been interrupted. */
  lemma Resume(s: State, t: State, u: State, b: nat, id: nat, data: nat, from: seq<Id>, idx: seq<nat>, n: nat)
    requires b in s.world.buses && Moved(Inside(s, b), t) && Moved(t, u) && Ok(t) && Ok(u) && s.emissions < t.emissions
    requires Swept(t, b, id, data, s.emissions, from, idx, n)
    ensures Moved(Inside(s, b), u) && s.emissions < u.emissions && Swept(u, b, id, data, s.emissions, from, idx, n)
    ensures b in u.world.buses && |t.world.buses[b].watches| <= |u.world.buses[b].watches|
    ensures CallsOf(u.log, s.emissions) == CallsOf(t.log, s.emissions)
  {
    hide Logged, Lined, Swept, Told, Bussed;
    MovedTrans(Inside(s, b), t, u);
    assert Inside(s, b).world.buses[b].busy > 0;
    SweptMoved(s := t, t := u, b := b, id := id, data := data, em := s.emissions, from := from, idx := idx, n := n);
  }

  lemma LiveNone(xs: seq<Id>)
    ensures Live(xs, {}) == xs && Releases(xs, {}) == []
  {
  }

  lemma DoomedMoved(s: State, w: Id)
    requires Ok(s) && Linked(s.world, w) && s.world.buses[s.world.home[w]].busy > 0
    ensures var t := State(Doomed(s.world, w), s.line, s.log + [Deleted(w)], s.emissions); Ok(t) && Moved(s, t)
  {
    hide Bussed, Logged, Kept, Lawful, CallsOf;
    DoomedOk(s.world, w, s.log, s.emissions);
    assert Doomed(s.world, w).buses.Keys == s.world.buses.Keys;
  }

  lemma DroppedMoved(s: State, w: Id)
    requires Ok(s) && Linked(s.world, w) && s.world.buses[s.world.home[w]].busy == 0
    ensures var t := State(Dropped(s.world, w), s.line, s.log + [Deleted(w), Freed(w)], s.emissions);
      Ok(t) && Moved(s, t)
  {
    hide Without, Bussed, Logged, Kept, CallsOf;
    LinkedHome(s.world, w);
    DroppedOk(s.world, w, s.log, s.emissions);
    assert Dropped(s.world, w).buses.Keys == s.world.buses.Keys;
  }

  lemma WithWatchMoved(s: State, b: nat, mask: set<nat>)
    requires Ok(s) && b in s.world.buses
    ensures var t := s.(world := WithWatch(s.world, b, mask)); Ok(t) && Moved(s, t)
  {
    hide Bussed, Logged, Kept;
    WithWatchOk(s.world, b, mask, s.log, s.emissions);
    assert WithWatch(s.world, b, mask).buses.Keys == s.world.buses.Keys;
  }

  lemma WithWatchHired(s: State, b: nat, mask: set<nat>)
    requires Ok(s) && b in s.world.buses
    ensures Hired(s, b, mask, s.(world := WithWatch(s.world, b, mask)))
  {
    hide Logged, Lined, BusOk, Dying;
    WithWatchBus(s.world, b, mask);
  }

  lemma DeletedFired(s: State, w: Id)
    requires Ok(s) && Linked(s.world, w)
    ensures w in s.world.home && s.world.home[w] in s.world.buses
    ensures Fired(s, w, if s.world.buses[s.world.home[w]].busy > 0
      then State(Doomed(s.world, w), s.line, s.log + [Deleted(w)], s.emissions)
      else State(Dropped(s.world, w), s.line, s.log + [Deleted(w), Freed(w)], s.emissions))
  {
    hide Logged, Lined, Without;
    assert BusOk(s.world, s.world.home[w]);
    var k := Unlinking(s.world.buses[s.world.home[w]].watches, w);
  }

  lemma {:induction false} Unlinking(xs: seq<Id>, w: Id) returns (k: nat)
    requires Distinct<Id>(xs) && w in xs
    ensures k < |xs| && xs[k] == w && Without<Id>(xs, w) == xs[..k] + xs[k + 1..]
  {
    if xs[0] == w {
      k := 0;
      assert w !in xs[1..];
      WithoutAbsent<Id>(xs[1..], w);
    } else {
      assert Distinct<Id>(xs[1..]);
      k := Unlinking(xs[1..], w);
      k := k + 1;
    }
  }

  lemma DatasOne(p: Pending)
    ensures Datas([p]) == RefOf(p)
  {
    assert [p][1..] == [];
  }

  lemma EnqueuedWaits(s: State, p: Pending)
    ensures Waits(s, p, s.(line := Enqueued(s.line, p)))
  {
    DatasOne(p);
  }

  lemma EnqueuedMoved(s: State, p: Pending)
    requires Ok(s) && p.bus in s.world.buses
    ensures var t := s.(line := Enqueued(s.line, p)); Ok(t) && Moved(s, t)
  {
    EnqueuedOk(s.world.buses.Keys, s.line, p);
    hide Bussed, Logged, Lined;
  }

  // ----- the program -----

  lemma SiftStart(ws: seq<Id>, dead: set<Id>)
    ensures Live(ws[..0], dead) == [] && Releases(ws[..0], dead) == [] && ws[0..] == ws && [] + ws == ws
  {
  }

  lemma SiftStep(ws: seq<Id>, k: nat, dead: set<Id>, xs: seq<Id>, pos: nat)
    requires k <= |ws| && pos == |Live(ws[..k], dead)| < |xs| && xs == Live(ws[..k], dead) + ws[k..]
    ensures k < |ws| && xs[pos] == ws[k]
    ensures Live(ws[..k + 1], dead) == Live(ws[..k], dead) + if ws[k] in dead then [] else [ws[k]]
    ensures Releases(ws[..k + 1], dead) == Releases(ws[..k], dead) + if ws[k] in dead then [Freed(ws[k])] else []
    ensures xs[..pos] + xs[pos + 1..] == Live(ws[..k], dead) + ws[k + 1..]
    ensures xs == Live(ws[..k], dead) + [ws[k]] + ws[k + 1..]
  {
    hide Live, Releases;
    assert xs[pos] == ws[k..][0];
    assert ws[..k + 1] == ws[..k] + [ws[k]];
    LiveConcat(ws[..k], ws[k], dead);
  }

  /** mainloop.c: event busses, the event queue and its pump. */
  class Loop {
    var world: World
    var line: Line
    var emissions: nat
    ghost var log: seq<Event>

    ghost function Now(): State reads this { State(world, line, log, emissions) }

    ghost predicate Valid() reads this { Ok(Now()) }

    /** No bus, no event, and the pump among the deferred callbacks, disabled. */
    constructor ()
      ensures Valid() && world.buses == map[] && log == [] && line.eventq == []
      ensures line.deferred == [EVENTD] && line.inactive == [] && !line.active
    {
      world, emissions, log := World(map[], map[], map[], 0), 0, [];
      line := Line([], multiset{}, [EVENTD], [], false, [], [], multiset{});
    }

    /** iot_event_bus_get: the bus of that name, made if there is none. */
    method GetBus(b: nat, ok: bool) returns (got: bool)
      requires Valid()
      modifies this`world
      ensures Valid() && Moved(old(Now()), Now())
      ensures got <==> b in old(world).buses || ok
      ensures world == if b !in old(world).buses && ok then WithBus(old(world), b) else old(world)
    {
      hide Bussed, Logged, Lined, Kept, Told;
      got := b in world.buses || ok;
      if b in world.buses || !ok { MovedSame(Now()); return; }
      WithBusMoved(Now(), b);
      world := WithBus(world, b);
    }

    /** iot_event_add_watch */
    method AddWatch(b: nat, mask: set<nat>, ok: bool) returns (w: Option<Id>)
      requires Valid() && b in world.buses
      modifies this`world
      ensures Valid() && Moved(old(Now()), Now())
      ensures if ok then w == Some(old(world).count) && world == WithWatch(old(world), b, mask)
        else w == None && world == old(world)
      ensures ok ==> Hired(old(Now()), b, mask, Now())
    {
      hide Bussed, Logged, Lined, Kept, Told, Hired;
      if !ok { MovedSame(Now()); return None; }
      WithWatchMoved(Now(), b, mask);
      WithWatchHired(Now(), b, mask);
      w := Some(world.count);
      world := WithWatch(world, b, mask);
    }

    /** iot_event_del_watch: in use, a bus keeps the watch until the purge. */
    method DelWatch(w: Id)
      requires Valid() && Linked(world, w)
      modifies this`world, this`log
      ensures Valid() && Moved(old(Now()), Now())
      ensures w in old(world).home && old(world).home[w] in old(world).buses
      ensures if old(world).buses[old(world).home[w]].busy > 0
        then world == Doomed(old(world), w) && log == old(log) + [Deleted(w)]
        else world == Dropped(old(world), w) && log == old(log) + [Deleted(w), Freed(w)]
      ensures Fired(old(Now()), w, Now())
    {
      hide Bussed, Logged, Lined, Kept, Told, Doomed, Dropped, Fired;
      DeletedFired(Now(), w);
      if world.buses[world.home[w]].busy > 0 {
        DoomedMoved(Now(), w);
        world, log := Doomed(world, w), log + [Deleted(w)];
      } else {
        DroppedMoved(Now(), w);
        world, log := Dropped(world, w), log + [Deleted(w), Freed(w)];
      }
    }

    /** bus_purge_dead */
    method PurgeDead(b: nat)
      requires b in world.buses && (world.buses[b].ndead == 0 <==> world.buses[b].dead == {})
      modifies this`world, this`log
      ensures var x := old(world).buses[b];
        && world == old(world).(buses := old(world).buses[b := Bus(Live(x.watches, x.dead), {}, 0, x.busy)])
        && log == old(log) + Releases(x.watches, x.dead)
    {
      var x := world.buses[b];
      LiveNone(x.watches);
      if x.ndead == 0 {
        assert x == Bus(Live(x.watches, x.dead), {}, 0, x.busy);
        assert world.buses == world.buses[b := x];
        return;
      }
      var xs, fs := Sift(x.watches, x.dead);
      world, log := world.(buses := world.buses[b := Bus(xs, {}, 0, x.busy)]), log + fs;
    }

    /** The walk of the purge, unlinking in passing. */
    method Sift(watches: seq<Id>, dead: set<Id>) returns (xs: seq<Id>, ghost fs: seq<Event>)
      ensures xs == Live(watches, dead) && fs == Releases(watches, dead)
    {
      hide Live, Releases;
      xs, fs := watches, [];
      var pos, k := 0, 0;
      SiftStart(watches, dead);
      while pos < |xs|
        invariant 0 <= k <= |watches| && pos == |Live(watches[..k], dead)|
        invariant xs == Live(watches[..k], dead) + watches[k..]
        invariant fs == Releases(watches[..k], dead)
        decreases |watches| - k
      {
        var w := xs[pos];
        SiftStep(watches, k, dead, xs, pos);
        if w in dead {
          xs, fs := xs[..pos] + xs[pos + 1..], fs + [Freed(w)];
        } else {
          pos := pos + 1;
        }
        k := k + 1;
      }
      assert watches[..k] == watches && watches[k..] == [];
    }

    /** emit_event: the walk takes in watches added meanwhile, unless they come
        while it is at the end of the list; replies say what the callbacks do. */
    method EmitEvent(b: nat, id: nat, data: nat, replies: seq<Reply>)
      returns (ghost walk: Walk)
      requires Valid() && b in world.buses
      modifies this
      ensures Valid() && Moved(old(Now()), Now()) && b in world.buses
      ensures Emitted(old(Now()), Now(), b, id, data, walk)
      ensures Scripted(old(Now()), b, id, data, replies, walk, Now())
      ensures replies == [] ==> line == old(line)
      decreases replies, 0
    {
      hide Bussed, Logged, Lined, Kept, Told, Emitted, Swept, Linked, Dying, Watches, Moved, Played, Turn,
        CallOf, CallsOf, Ran, LastOf, Halted, Onward;
      ghost var s, from := Now(), world.buses[b].watches;
      var em := emissions;
      SweptNone(s, b, id, data);
      BegunMoved(s, b);
      world, emissions := Entered(world, b), emissions + 1;
      ghost var idx: seq<nat>, turns: seq<Course> := [], [];
      ghost var begun := Now();
      PlayedNone(begun, em, id, data, replies);
      HaltedNone(b, world.buses[b].watches);
      var pos, turn, more := 0, 0, world.buses[b].watches != [];
      while more
        invariant Valid() && Moved(Inside(s, b), Now()) && em == s.emissions < emissions && b in world.buses
        invariant Swept(Now(), b, id, data, em, from, idx, pos)
        invariant if more then pos < |world.buses[b].watches| && Onward(b, idx, pos, turns)
          else |from| <= pos && Halted(b, world.buses[b].watches, idx, pos, turns)
        invariant turn == |turns| == |idx| && Played(begun, em, id, data, CallsOf(log, em), replies, turns)
        invariant LastOf(begun, turns) == Now()
        invariant replies == [] ==> line == s.line
        decreases if turn < |replies| then |replies| - turn else 0, if more then |world.buses[b].watches| - pos else 0
      {
        WatchAt(world, b, pos);
        var w, next := world.buses[b].watches[pos], pos + 1 < |world.buses[b].watches|;
        if w !in world.buses[b].dead && id in world.masks[w] {
          ghost var was := Now();
          CallSweep(s, was, b, w, id, data, from, idx, pos);
          log := log + [Called(w, em, id, data)];
          ghost var t: State, ss: Course := Now(), [Now()];
          ghost var calls := CallsOf(t.log, em);
          if turn < |replies| {
            ss := Run(replies[turn].acts);
            Resume(s, t, Now(), b, id, data, from, idx + [pos], pos + 1);
          }
          TurnIs(was, t, w, em, id, data, replies, turn, ss);
          PlayedNext(begun, em, id, data, calls[..|calls| - 1], replies, turns, w, ss);
          HaltedHere(b, was, world.buses[b].watches, idx, pos, turns, ss);
          idx, turn, turns := idx + [pos], turn + 1, turns + [ss];
        } else {
          SkipSweep(Now(), b, id, data, em, from, idx, pos);
          HaltedThere(b, world.buses[b].watches, idx, pos, turns);
        }
        pos, more := pos + 1, next;
      }
      ghost var t := Now();
      walk := Walk(world.buses[b].watches, idx, pos, turns);
      Finish(s, t, b, id, data, idx, pos);
      Leave(b);
    }

    method Leave(b: nat)
      requires Valid() && b in world.buses && world.buses[b].busy > 0
      modifies this`world, this`log
      ensures b in old(world).buses && old(world).buses[b].busy > 0 && Now() == Over(old(Now()), b)
    {
      hide Logged, Lined, Live, Releases;
      assert BusOk(world, b);
      var x := world.buses[b];
      world := world.(buses := world.buses[b := x.(busy := x.busy - 1)]);
      if world.buses[b].busy == 0 {
        PurgeDead(b);
      }
    }

    /** queue_event: the pump is enabled with every event. */
    method QueueEvent(p: Pending, ok: bool) returns (queued: bool)
      requires Valid() && p.bus in world.buses
      modifies this`line
      ensures Valid() && Moved(old(Now()), Now()) && queued == ok
      ensures line == if ok then Enqueued(old(line), p) else old(line)
      ensures ok ==> Waits(old(Now()), p, Now())
    {
      hide Bussed, Logged, Lined, Kept, Told, Waits;
      EnqueuedWaits(Now(), p);
      if !ok { MovedSame(Now()); return false; }
      EnqueuedMoved(Now(), p);
      line := Enqueued(line, p);
      queued := true;
    }

    /** iot_emit_event with the synchronous flag: the data is referenced for the
        duration of the emission. */
    method EmitNow(b: nat, id: nat, data: nat, json: bool, replies: seq<Reply>)
      returns (ghost walk: Walk)
      requires Valid() && b in world.buses
      modifies this
      ensures Valid() && Moved(old(Now()), Now()) && b in world.buses
      ensures Emitted(old(Now()), Now(), b, id, data, walk)
      ensures var ref := RefOf(Pending(b, id, data, json));
        Scripted(Holding(old(Now()), ref), b, id, data, replies, walk, Holding(Now(), ref))
      decreases replies, 1
    {
      hide Bussed, Logged, Lined, Kept, Told, Emitted, Datas, RefOf, Scripted;
      ghost var s := Now();
      var ref := RefOf(Pending(b, id, data, json));
      Referenced(s, b, Pending(b, id, data, json));
      line := line.(refs := line.refs + ref, held := line.held + ref);
      ghost var t := Now();
      walk := EmitEvent(b, id, data, replies);
      Unreferenced(s, t, Now(), b, id, data, walk, Pending(b, id, data, json));
      line := line.(refs := line.refs - ref, held := line.held - ref);
    }

    method Do(a: Act)
      requires Valid()
      modifies this
      ensures Valid() && Moved(old(Now()), Now()) && Did(old(Now()), a, Now())
      ensures match a
        case Get(b, ok) => ok ==> b in world.buses
        case Add(b, _) => b in old(world).buses ==> world.count == old(world).count + 1
        case Del(w) => Linked(old(world), w) ==> Deleted(w) in log
        case Emit(b, _, _, _, _) => b in old(world).buses ==> emissions > old(emissions)
        case Queue(p, ok) => p.bus in old(world).buses && ok ==> line.eventq == old(line).eventq + [p]
      decreases a
    {
      hide Bussed, Logged, Lined, Kept, Told, Reached, Settled, Hired, Fired, Waits, Scripted, RefOf;
      MovedSame(Now());
      match a {
        case Get(b, ok) => var got := GetBus(b, ok);
        case Add(b, mask) => if b in world.buses { var w := AddWatch(b, mask, true); }
        case Del(w) =>
          if w in world.home && world.home[w] in world.buses && w in world.buses[world.home[w]].watches {
            DelWatch(w);
          }
        case Emit(b, id, data, json, replies) =>
          if b in world.buses {
            ghost var k := EmitNow(b, id, data, json, replies);
          }
        case Queue(p, ok) => if p.bus in world.buses { var q := QueueEvent(p, ok); }
      }
    }

    method Run(acts: seq<Act>) returns (ghost ss: Course)
      requires Valid()
      modifies this
      ensures Valid() && Moved(old(Now()), Now())
      ensures Ran(acts, ss) && |ss| == |acts| + 1 && ss[0] == old(Now()) && ss[|acts|] == Now()
      ensures forall i :: 0 <= i < |acts| && acts[i].Del? && Linked(old(world), acts[i].w) ==> Deleted(acts[i].w) in log
      decreases acts
    {
      hide Bussed, Logged, Lined, Moved, Did;
      ghost var s := Now();
      ss := [s];
      MovedSame(s);
      for i := 0 to |acts|
        invariant Valid() && Moved(s, Now())
        invariant |ss| == i + 1 && ss[0] == s && ss[i] == Now()
        invariant forall k :: 0 <= k < i ==> Did(ss[k], acts[k], ss[k + 1])
        invariant forall j :: 0 <= j < i && acts[j].Del? && Linked(s.world, acts[j].w) ==> Deleted(acts[j].w) in log
      {
        ghost var t := Now();
        if acts[i].Del? { StillOrDeleted(s, t, acts[i].w); }
        Do(acts[i]);
        ss := ss + [Now()];
        LogGrows(t, Now());
        MovedTrans(s, t, Now());
      }
    }

    /** A queued event on its way: what pump_events does with one entry. */
    method Deliver(replies: seq<Reply>) returns (ghost d: Delivery)
      requires Valid() && line.eventq != [] && line.eventq[0].bus in world.buses
      requires line.done == Deliveries(log)
      modifies this
      ensures Valid() && line.done == Deliveries(log) == old(line).done + [old(line).eventq[0]]
      ensures old(line).eventq[1..] <= line.eventq && line.held == old(line).held && old(line).queued <= line.queued
      ensures replies == [] ==> line.eventq == old(line).eventq[1..]
      ensures d.p == old(line).eventq[0] && d.front == old(Now()) && d.back == Now() && Handed(d, replies)
    {
      hide Bussed, Logged, Lined, Kept, Told, Emitted, Datas, Scripted, RefOf;
      ghost var s := Now();
      var p := line.eventq[0];
      NoteDelivery(s, p);
      log := log + [Delivered(p)];
      ghost var t := Now();
      ghost var walk := EmitEvent(p.bus, p.id, p.data, replies);
      ghost var u := Now();
      DeliveryDone(s, t, u, p, walk);
      line := Popped(line);
      d := Delivery(p, s, u, Now(), walk);
    }

    /** pump_events: delivers until the queue stays empty, in passes; an event
        queued while the last one is being delivered waits for the next pass. */
    method Pump(plans: seq<Plan>) returns (ghost ds: seq<Delivery>)
      requires Valid() && line.done == Deliveries(log)
      modifies this
      ensures Valid() && line.eventq == [] && !line.active
      ensures line.queued == line.done == Deliveries(log) && old(line).queued <= line.queued
      ensures line.refs == line.held == old(line).held
      ensures Pumped(old(Now()), ds, plans) && line.done == old(line).done + Events(ds)
      ensures var t := EndOf(old(Now()), ds); Now() == t.(line := t.line.(active := false))
    {
      hide Bussed, Logged, Kept, Told, Emitted, Datas, Deliveries, Lined, Handed, Pumped, EndOf, Events;
      var turn := 0;
      ds := [];
      ghost var s := Now();
      PumpedNone(s, plans);
      WaitingBus(Now());
      while line.eventq != []
        invariant Valid() && line.done == Deliveries(log) && old(line).queued <= line.queued
        invariant line.held == old(line).held
        invariant turn == |ds| && Pumped(s, ds, plans) && EndOf(s, ds) == Now() && line.done == s.line.done + Events(ds)
        decreases Unplayed(|plans|, turn), |line.eventq|
      {
        ghost var left, len := Unplayed(|plans|, turn), |line.eventq|;
        var more := true;
        while more
          invariant Valid() && line.done == Deliveries(log) && old(line).queued <= line.queued
          invariant line.held == old(line).held
          invariant turn == |ds| && Pumped(s, ds, plans) && EndOf(s, ds) == Now()
          invariant line.done == s.line.done + Events(ds)
          invariant more ==> line.eventq != []
          invariant var u := Unplayed(|plans|, turn);
            u < left || (u == left && (|line.eventq| < len || (more && |line.eventq| == len)))
          decreases Unplayed(|plans|, turn), |line.eventq|, more
        {
          WaitingBus(Now());
          var next := |line.eventq| > 1;
          ghost var d := Deliver(RepliesOf(plans, turn));
          PumpedNext(s, ds, plans, d);
          turn, ds := turn + 1, ds + [d];
          more := next;
        }
      }
      PumpDone(Now());
      line := line.(active := false);
    }

    /** dispatch_deferred, as far as it concerns the pump: it runs if it is on
        the list of deferred callbacks, and leaves it when it has been disabled.
        Quitting the main loop stops the dispatch after the first few callbacks;
        a pump that is not one of them waits as before. */
    method DispatchPump(plans: seq<Plan>, first: nat) returns (ghost ds: seq<Delivery>)
      requires Valid() && line.done == Deliveries(log) && first <= |line.deferred|
      modifies this
      ensures Valid() && line.done == Deliveries(log) && old(line).queued <= line.queued
      ensures EVENTD !in old(line.deferred)[..first] ==> Now() == old(Now()) && ds == []
      ensures Pumped(old(Now()), ds, plans) && line.done == old(line).done + Events(ds)
      ensures var t := EndOf(old(Now()), ds);
        && world == t.world && log == t.log && emissions == t.emissions
        && line == t.line.(active := line.active, deferred := line.deferred, inactive := line.inactive)
      ensures EVENTD in old(line.deferred)[..first] ==>
        var t := EndOf(old(Now()), ds).line;
        line.deferred == Without<Id>(t.deferred, EVENTD) && line.inactive == t.inactive + [EVENTD] && !line.active
      ensures EVENTD in old(line.deferred)[..first] || EVENTD !in old(line.deferred) ==>
        && line.eventq == [] && line.queued == line.done && line.refs == line.held == old(line).held
        && EVENTD !in line.deferred && EVENTD in line.inactive
    {
      hide Bussed, Logged, Kept, Told, Deliveries, Pumped, EndOf, Events;
      ds := [];
      PumpedNone(Now(), plans);
      if EVENTD in line.deferred[..first] {
        if line.active { ds := Pump(plans); }
        if !line.active {
          WithoutMembers<Id>(line.deferred, EVENTD);
          line := line.(deferred := Without<Id>(line.deferred, EVENTD), inactive := line.inactive + [EVENTD]);
        }
      }
    }
  }

  function Unplayed(n: nat, turn: nat): nat { if turn < n then n - turn else 0 }

  lemma WaitingBus(s: State)
    requires Ok(s)
    ensures s.line.eventq != [] ==> s.line.eventq[0].bus in s.world.buses
    ensures s.line.queued == s.line.done + s.line.eventq
  {
    hide Bussed, Logged, Datas;
  }

  lemma PumpDone(s: State)
    requires Ok(s) && s.line.eventq == []
    ensures Ok(s.(line := s.line.(active := false)))
    ensures s.line.queued == s.line.done && s.line.refs == s.line.held
  {
    hide Bussed, Logged;
  }

  lemma NoteDelivery(s: State, p: Pending)
    requires Ok(s)
    ensures Ok(s.(log := s.log + [Delivered(p)])) && Deliveries(s.log + [Delivered(p)]) == Deliveries(s.log) + [p]
  {
    hide Bussed, Lined, Lawful;
    LogAppend(s.log, Delivered(p), 0);
    LawfulAppend(s.log, Delivered(p));
    var log' := s.log + [Delivered(p)];
    forall k | 0 <= k < |log'| ensures Entry(s.world, log'[k], s.emissions) {
      if k < |s.log| { assert Entry(s.world, s.log[k], s.emissions); }
    }
  }

  lemma DeliveryDone(s: State, t: State, u: State, p: Pending, walk: Walk)
    requires Ok(s) && t == s.(log := s.log + [Delivered(p)]) && Ok(u) && Moved(t, u)
    requires s.line.eventq != [] && p == s.line.eventq[0]
    requires p.bus in s.world.buses && p.bus in u.world.buses && Emitted(t, u, p.bus, p.id, p.data, walk)
    requires s.line.done == Deliveries(s.log) && Deliveries(t.log) == Deliveries(s.log) + [p]
    ensures u.line.eventq != [] && u.line.eventq[0] == p
    ensures var v := u.(line := Popped(u.line)); Ok(v) && Emitted(s, v, p.bus, p.id, p.data, walk)
    ensures var q := Popped(u.line);
      && q.done == Deliveries(u.log) == s.line.done + [p]
      && s.line.eventq[1..] <= q.eventq && q.held == s.line.held && s.line.queued <= q.queued
    ensures u.line == t.line ==> Popped(u.line).eventq == s.line.eventq[1..]
    ensures var q := u.line;
      Popped(q) == q.(eventq := q.eventq[1..], refs := q.refs - RefOf(p), done := q.done + [p])
  {
    hide Bussed, Logged, Datas, Kept, Reached, Settled, Deliveries, CallsOf;
    assert forall k :: |t.log| <= k < |u.log| ==> Aside(u.log[k], t.emissions, u.world);
    DeliveriesSame(t.log, u.log);
    PoppedOk(u.world.buses.Keys, u.line);
    assert u.line.eventq[..1] == [p];
    DatasOne(p);
  }

  lemma {:induction false} DeliveriesSame(log: seq<Event>, log': seq<Event>)
    requires log <= log' && forall k :: |log| <= k < |log'| ==> !log'[k].Delivered?
    ensures Deliveries(log') == Deliveries(log)
  {
    if |log| < |log'| {
      DeliveriesSame(log, log'[..|log'| - 1]);
    } else {
      assert log == log';
    }
  }

  /** A watch that is no longer linked has been deleted. */
  lemma StillOrDeleted(s: State, t: State, w: Id)
    requires Moved(s, t) && Ok(t)
    ensures Linked(s.world, w) ==> Linked(t.world, w) || Deleted(w) in t.log
  {
    hide Bussed, Lined, Told;
  }

  lemma LogGrows(s: State, t: State)
    requires Moved(s, t)
    ensures s.log <= t.log
  {
  }

  lemma Referenced(s: State, b: nat, p: Pending)
    requires Ok(s)
    ensures Ok(s.(line := s.line.(refs := s.line.refs + RefOf(p), held := s.line.held + RefOf(p))))
  {
    hide Bussed, Logged, Datas;
  }

  lemma Unreferenced(s: State, t: State, u: State, b: nat, id: nat, data: nat, walk: Walk, p: Pending)
    requires t == s.(line := s.line.(refs := s.line.refs + RefOf(p), held := s.line.held + RefOf(p)))
    requires Ok(u) && Moved(t, u) && b in s.world.buses && b in u.world.buses && Emitted(t, u, b, id, data, walk)
    ensures var v := u.(line := u.line.(refs := u.line.refs - RefOf(p), held := u.line.held - RefOf(p)));
      Ok(v) && Moved(s, v) && Emitted(s, v, b, id, data, walk) && Holding(v, RefOf(p)) == u
  {
    hide Bussed, Logged, Datas, Kept, Told, Reached, Settled;
    assert u.line.held == s.line.held + RefOf(p);
  }
}
