/** The main loop's I/O watches. Watches on one file descriptor share one epoll
    registration: the first is the master named by the fd table, the others hang
    on its ring as slaves. Deleted watches stay on the ring until the purge. */
module IoWatch {
  import opened Seqs

  type Id = nat
  datatype Flag = In | Pri | Out | Err | RdHup | WrHup | Level | Edge

  /** An event mask, as the set of its bits. */
  type Events = set<Flag>

  const ALL: Events := {In, Pri, Out, Err, RdHup}

  /** mask & IOT_IO_EVENT_ALL is 0. */
  predicate Idle(e: Events) { e * ALL == {} }

  /** The events of a new watch: unknown bits dropped, edge triggering if asked
      for, or if that is the default and level triggering is not asked for. */
  function Wanted(events: Events, iomode: Flag): Events {
    var mode := events * {Level, Edge};
    events * ALL + if mode == {Edge} || (mode == {} && iomode == Edge) then {Edge} else {}
  }

  /** What is stored: of the events exactly those asked for, no other bit but
      Edge, and Edge exactly if edge triggering alone was asked for, or neither
      mode was and edge is the loop's mode. */
  ghost predicate Grants(asked: Events, iomode: Flag, stored: Events) {
    && (forall bit :: bit in ALL ==> (bit in stored <==> bit in asked))
    && stored <= ALL + {Edge}
    && (Edge in stored <==>
          (Edge in asked && Level !in asked) || (Edge !in asked && Level !in asked && iomode == Edge))
  }

  lemma WantedGrants(asked: Events, iomode: Flag)
    ensures Grants(asked, iomode, Wanted(asked, iomode))
  {
    var mode := asked * {Level, Edge};
    assert Edge in mode <==> Edge in asked;
    assert Level in mode <==> Level in asked;
    assert Edge !in ALL && Level !in ALL;
    if Edge in asked && Level !in asked { assert mode == {Edge}; }
    if Edge !in asked && Level !in asked { assert mode == {}; }
  }

  /** The union of the members' events. */
  ghost function Union(xs: seq<Id>, events: map<Id, Events>): Events {
    if xs == [] then {} else (if xs[0] in events then events[xs[0]] else {}) + Union(xs[1..], events)
  }

  /** A bit is in the union exactly if some member has it. */
  lemma {:induction false} UnionBits(xs: seq<Id>, events: map<Id, Events>, bit: Flag)
    requires forall i :: 0 <= i < |xs| ==> xs[i] in events
    ensures bit in Union(xs, events) <==> exists i :: 0 <= i < |xs| && bit in events[xs[i]]
  {
    if xs != [] {
      var tail := xs[1..];
      UnionBits(tail, events, bit);
      if i :| 0 <= i < |tail| && bit in events[tail[i]] { assert bit in events[xs[i + 1]]; }
      if i :| 0 <= i < |xs| && bit in events[xs[i]] { assert i == 0 || xs[i] == tail[i - 1]; }
    }
  }

  lemma {:induction false} UnionConcat(xs: seq<Id>, ys: seq<Id>, events: map<Id, Events>)
    ensures Union(xs + ys, events) == Union(xs, events) + Union(ys, events)
  {
    if xs == [] {
      assert xs + ys == ys;
    } else {
      assert (xs + ys)[1..] == xs[1..] + ys;
      UnionConcat(xs[1..], ys, events);
    }
  }

  /** Leaving out a member without events makes no difference. */
  lemma {:induction false} UnionWithout(xs: seq<Id>, w: Id, events: map<Id, Events>)
    requires w in events && events[w] == {}
    ensures Union(Without<Id>(xs, w), events) == Union(xs, events)
  {
    if xs != [] {
      UnionWithout(xs[1..], w, events);
      if xs[0] != w {
        assert Without<Id>(xs, w)[1..] == Without<Id>(xs[1..], w);
      }
    }
  }

  lemma {:induction false} UnionAgain(xs: seq<Id>, events: map<Id, Events>, events': map<Id, Events>)
    requires forall i :: 0 <= i < |xs| ==> xs[i] in events && xs[i] in events' && events'[xs[i]] == events[xs[i]]
    ensures Union(xs, events) == Union(xs, events')
  {
    if xs != [] {
      UnionAgain(xs[1..], events, events');
    }
  }

  // ----- what every step keeps -----

  /** rings are named after the watch that founded them, home says which ring a
      watch is on; hooked is the list iowatches, deleted the purge list. */
  datatype State = State(
    fdtbl: map<int, Id>, rings: map<Id, seq<Id>>, home: map<Id, Id>, fd: map<Id, int>, events: map<Id, Events>,
    hooked: seq<Id>, alive: set<Id>, deleted: seq<Id>, epoll: map<int, Events>, closed: set<int>,
    niowatch: int, count: nat)

  /** Every watch is on exactly one ring, and a ring is for one descriptor. */
  ghost predicate Ringed(s: State) { RingedIn(s.rings, s.home, s.fd, s.count) }

  ghost predicate RingedIn(rings: map<Id, seq<Id>>, home: map<Id, Id>, fd: map<Id, int>, count: nat) {
    && (forall w :: w in home ==> w < count && w in fd && home[w] in rings)
    && (forall w :: w in home ==> home[w] in fd && fd[w] == fd[home[w]])
    && (forall w :: w in home ==> w in rings[home[w]])
    && (forall r :: r in rings ==> r < count && Distinct<Id>(rings[r]))
    && (forall r, i :: r in rings && 0 <= i < |rings[r]| ==> rings[r][i] in home && home[rings[r][i]] == r)
  }

  ghost predicate First(w: Id, s: State) {
    w in s.home && s.home[w] in s.rings && s.rings[s.home[w]] != [] && s.rings[s.home[w]][0] == w
  }

  /** The fd table names the first watch on a ring, and every live watch is on
      the ring of the watch that the table names for its descriptor. */
  ghost predicate Mastered(s: State) { Tabled(s) && Hosted(s) && Hooked(s) }

  ghost predicate Tabled(s: State) {
    forall f :: f in s.fdtbl ==>
      First(s.fdtbl[f], s) && s.fdtbl[f] in s.hooked && s.fdtbl[f] in s.fd && s.fd[s.fdtbl[f]] == f
  }

  ghost predicate Hosted(s: State) {
    forall w :: w in s.alive ==>
      && w in s.home && w in s.fd && s.fd[w] in s.fdtbl
      && s.fdtbl[s.fd[w]] in s.home && s.home[s.fdtbl[s.fd[w]]] == s.home[w]
  }

  ghost predicate Hooked(s: State) { forall i :: 0 <= i < |s.hooked| ==> First(s.hooked[i], s) }

  /** Watches are live and want something, or are marked and want nothing. */
  ghost predicate Marked(s: State) { MarkedIn(s.home, s.events, s.alive, s.deleted) }

  ghost predicate MarkedIn(home: map<Id, Id>, events: map<Id, Events>, alive: set<Id>, deleted: seq<Id>) {
    && Distinct<Id>(deleted)
    && (forall w :: w in home ==> w in events && (w in alive <==> w !in deleted))
    && (forall w :: w in home ==> if w in alive then !Idle(events[w]) else events[w] == {})
    && (forall w :: w in alive ==> w in home)
    && (forall i :: 0 <= i < |deleted| ==> deleted[i] in home)
  }

  /** Something is wanted of each descriptor of the fd table, and epoll has it,
      with the union of the events on its ring, unless it was closed: then epoll
      has dropped it by itself. */
  ghost predicate Polled(s: State) { Registered(s) && Masked(s) }

  ghost predicate Registered(s: State) {
    s.epoll.Keys == s.fdtbl.Keys - s.closed && s.closed <= s.fdtbl.Keys && s.niowatch == |s.fdtbl|
  }

  ghost predicate Masked(s: State) {
    && (forall f :: f in s.fdtbl ==> s.fdtbl[f] in s.home && s.home[s.fdtbl[f]] in s.rings)
    && (forall f :: f in s.fdtbl ==>
          var mask := Union(s.rings[s.home[s.fdtbl[f]]], s.events);
          !Idle(mask) && (f in s.epoll ==> s.epoll[f] == mask))
  }

  ghost predicate Ok(s: State) { Ringed(s) && Mastered(s) && Marked(s) && Polled(s) }

  // ----- what the operations do -----

  function AddedMaster(s: State, f: int, e: Events): State {
    var w := s.count;
    s.(fdtbl := s.fdtbl[f := w], rings := s.rings[w := [w]], home := s.home[w := w], fd := s.fd[w := f],
       events := s.events[w := e], hooked := s.hooked + [w], alive := s.alive + {w}, epoll := s.epoll[f := e],
       niowatch := s.niowatch + 1, count := w + 1)
  }

  ghost function AddedSlave(s: State, r: Id, f: int, e: Events): State
    requires r in s.rings
  {
    var w := s.count;
    s.(rings := s.rings[r := s.rings[r] + [w]], home := s.home[w := r], fd := s.fd[w := f], events := s.events[w := e],
       alive := s.alive + {w}, epoll := s.epoll[f := Union(s.rings[r], s.events) + e], count := w + 1)
  }

  function Marking(s: State, w: Id): State {
    s.(events := s.events[w := {}], alive := s.alive - {w}, deleted := s.deleted + [w])
  }

  /** A descriptor polled for other events, or for none, if that can be done; a
      closed one is polled for nothing. */
  function Polling(s: State, f: int, mask: Events, done: bool): State {
    var fdtbl := if Idle(mask) then s.fdtbl - {f} else s.fdtbl;
    if !done then s.(fdtbl := fdtbl)
    else if Idle(mask) then
      s.(fdtbl := fdtbl, epoll := s.epoll - {f}, closed := s.closed - {f}, niowatch := s.niowatch - 1)
    else if f in s.closed then s
    else s.(epoll := s.epoll[f := mask])
  }

  /** w marked; its descriptor polled for the rest of the ring or for nothing. */
  ghost function Deleted(s: State, w: Id, done: bool): State
    requires w in s.fd && w in s.home && s.home[w] in s.rings
  {
    Polling(Marking(s, w), s.fd[w], Union(s.rings[s.home[w]], s.events[w := {}]), done)
  }

  /** The first watch on the purge list unlinked and freed; if it was a master,
      the next on its ring takes over. */
  ghost function Freed(s: State): State
    requires s.deleted != [] && var w := s.deleted[0]; w in s.fd && w in s.home && s.home[w] in s.rings
  {
    var w := s.deleted[0];
    var f, r := s.fd[w], s.home[w];
    var ring := Without<Id>(s.rings[r], w);
    var (fdtbl, hooked) := TakenOver(s.fdtbl, Without<Id>(s.hooked, w), f, w, ring);
    s.(fdtbl := fdtbl, rings := s.rings[r := ring], home := s.home - {w}, events := s.events - {w},
       hooked := hooked, deleted := s.deleted[1..])
  }

  function TakenOver(fdtbl: map<int, Id>, hooked: seq<Id>, f: int, w: Id, rest: seq<Id>): (map<int, Id>, seq<Id>) {
    if f !in fdtbl || fdtbl[f] != w then (fdtbl, hooked)
    else if rest == [] then (fdtbl - {f}, hooked)
    else (fdtbl[f := rest[0]], hooked + [rest[0]])
  }

  lemma AddedMasterOk(s: State, f: int, e: Events)
    requires Ok(s) && f !in s.fdtbl && !Idle(e)
    ensures Ok(AddedMaster(s, f, e))
  {
    hide Union, Ringed, Mastered, Marked, Polled, Idle, AddedMaster;
    AddedMasterRinged(s, f, e);
    AddedMasterMastered(s, f, e);
    AddedMasterMarked(s, f, e);
    AddedMasterPolled(s, f, e);
  }

  lemma AddedMasterRinged(s: State, f: int, e: Events)
    requires Ringed(s)
    ensures Ringed(AddedMaster(s, f, e))
  {
    var t := AddedMaster(s, f, e);
    var w := s.count;
    assert w !in s.home && w !in s.rings;
    assert t.rings[w] == [w] && Distinct<Id>([w]);
  }

  lemma AddedMasterMastered(s: State, f: int, e: Events)
    requires Ringed(s) && Mastered(s) && f !in s.fdtbl
    ensures Mastered(AddedMaster(s, f, e))
  {
    AddedMasterFirsts(s, f, e);
    AddedMasterHosted(s, f, e);
    hide First, Hosted;
    assert s.count !in s.home;
  }

  lemma AddedMasterHosted(s: State, f: int, e: Events)
    requires Ringed(s) && Hosted(s) && f !in s.fdtbl
    ensures Hosted(AddedMaster(s, f, e))
  {
    assert s.count !in s.home;
  }

  lemma AddedMasterFirsts(s: State, f: int, e: Events)
    requires Ringed(s)
    ensures forall v :: First(v, s) || v == s.count ==> First(v, AddedMaster(s, f, e))
    ensures forall v :: First(v, s) ==> v in s.home
  {
    assert s.count !in s.home && s.count !in s.rings;
  }

  lemma AddedMasterMarked(s: State, f: int, e: Events)
    requires Ringed(s) && Marked(s) && !Idle(e)
    ensures Marked(AddedMaster(s, f, e))
  {
    hide Idle;
    assert s.count !in s.home && s.count !in s.deleted;
  }

  lemma AddedMasterPolled(s: State, f: int, e: Events)
    requires Ringed(s) && Marked(s) && Polled(s) && f !in s.fdtbl && !Idle(e)
    ensures Polled(AddedMaster(s, f, e))
  {
    hide Union, Idle, Ringed, Marked, Registered;
    AddedMasterUnions(s, f, e);
    AddedMasterRegistered(s, f, e);
  }

  lemma AddedMasterRegistered(s: State, f: int, e: Events)
    requires Registered(s) && f !in s.fdtbl
    ensures Registered(AddedMaster(s, f, e))
  {
  }

  lemma AddedMasterUnions(s: State, f: int, e: Events)
    requires Ringed(s) && Marked(s)
    ensures var t := AddedMaster(s, f, e);
      && s.count !in s.home && s.count !in s.rings
      && (forall r :: r in s.rings ==> Union(t.rings[r], t.events) == Union(s.rings[r], s.events))
      && Union(t.rings[s.count], t.events) == e
  {
    hide Union, Idle;
    assert s.count !in s.home && s.count !in s.rings;
    UnionSame(s, AddedMaster(s, f, e));
    UnionOne(s.count, e, s.events[s.count := e]);
  }

  lemma UnionOne(w: Id, e: Events, events: map<Id, Events>)
    requires w in events && events[w] == e
    ensures Union([w], events) == e
  {
    assert [w][1..] == [];
  }

  /** Rings that keep their members and their members' events keep their union. */
  lemma UnionSame(s: State, t: State)
    requires Ringed(s) && Marked(s)
    requires forall w :: w in s.home && w in s.events && w in t.events ==> t.events[w] == s.events[w]
    requires forall w :: w in s.home ==> w in t.events
    ensures forall r :: r in s.rings ==> Union(s.rings[r], s.events) == Union(s.rings[r], t.events)
  {
    forall r | r in s.rings ensures Union(s.rings[r], s.events) == Union(s.rings[r], t.events) {
      UnionAgain(s.rings[r], s.events, t.events);
    }
  }

  lemma AddedSlaveOk(s: State, f: int, e: Events)
    requires Ok(s) && f in s.fdtbl && f !in s.closed && !Idle(e)
    ensures s.fdtbl[f] in s.home && s.home[s.fdtbl[f]] in s.rings && Ok(AddedSlave(s, s.home[s.fdtbl[f]], f, e))
  {
    assert First(s.fdtbl[f], s) by { hide Ringed, Marked, Polled; }
    hide Union, Ringed, Mastered, Marked, Polled, Idle, AddedSlave;
    AddedSlaveRinged(s, f, e);
    AddedSlaveMastered(s, f, e);
    AddedSlaveMarked(s, f, e);
    AddedSlavePolled(s, f, e);
  }

  lemma AddedSlaveRinged(s: State, f: int, e: Events)
    requires Ringed(s) && Mastered(s) && f in s.fdtbl && First(s.fdtbl[f], s)
    ensures Ringed(AddedSlave(s, s.home[s.fdtbl[f]], f, e))
  {
    hide Union;
    var r, w := s.home[s.fdtbl[f]], s.count;
    var t := AddedSlave(s, r, f, e);
    assert w !in s.home && w !in s.rings;
    assert w !in s.rings[r];
    DistinctConcat<Id>(s.rings[r], [w]);
  }

  lemma AddedSlaveMastered(s: State, f: int, e: Events)
    requires Ringed(s) && Mastered(s) && f in s.fdtbl && First(s.fdtbl[f], s)
    ensures Mastered(AddedSlave(s, s.home[s.fdtbl[f]], f, e))
  {
    hide Union;
    var t := AddedSlave(s, s.home[s.fdtbl[f]], f, e);
    assert s.count !in s.home;
    forall v | First(v, s) ensures First(v, t) {}
  }

  lemma AddedSlaveMarked(s: State, f: int, e: Events)
    requires Ringed(s) && Marked(s) && !Idle(e) && f in s.fdtbl && First(s.fdtbl[f], s)
    ensures Marked(AddedSlave(s, s.home[s.fdtbl[f]], f, e))
  {
    hide Idle, Union;
    assert s.count !in s.home && s.count !in s.deleted;
  }

  lemma AddedSlavePolled(s: State, f: int, e: Events)
    requires Ringed(s) && Mastered(s) && Marked(s) && Polled(s)
    requires f in s.fdtbl && f !in s.closed && First(s.fdtbl[f], s) && !Idle(e)
    ensures Polled(AddedSlave(s, s.home[s.fdtbl[f]], f, e))
  {
    hide Union;
    var r := s.home[s.fdtbl[f]];
    var t := AddedSlave(s, r, f, e);
    assert s.count !in s.home;
    UnionSame(s, t);
    UnionOne(s.count, e, t.events);
    UnionConcat(s.rings[r], [s.count], t.events);
    forall g | g in s.fdtbl && g != f ensures s.home[s.fdtbl[g]] != r { OneRing(s, f, g); }
  }

  /** Descriptors do not share rings. */
  lemma OneRing(s: State, f: int, g: int)
    requires Ringed(s) && Mastered(s) && f in s.fdtbl && g in s.fdtbl && f != g
    ensures First(s.fdtbl[f], s) && First(s.fdtbl[g], s) && s.home[s.fdtbl[f]] != s.home[s.fdtbl[g]]
  {
  }

  // ----- deletion -----

  lemma DeletedOk(s: State, w: Id)
    requires Ok(s) && w in s.alive
    ensures w in s.fd && w in s.home && s.home[w] in s.rings && Ok(Deleted(s, w, true))
  {
    LiveOnRing(s, w);
    hide Union, Ringed, Mastered, Marked, Polled, Idle, Deleted;
    DeletedKeeps(s, w, true);
    DeletedMastered(s, w);
    DeletedPolled(s, w);
  }

  lemma PollingFrame(s: State, f: int, mask: Events, done: bool)
    ensures var t := Polling(s, f, mask, done);
      && t.rings == s.rings && t.home == s.home && t.fd == s.fd && t.count == s.count && t.hooked == s.hooked
      && t.events == s.events && t.alive == s.alive && t.deleted == s.deleted
      && t.fdtbl == if Idle(mask) then s.fdtbl - {f} else s.fdtbl
  {
    hide Idle;
  }

  lemma LiveOnRing(s: State, w: Id)
    requires Ringed(s) && Mastered(s) && w in s.alive
    ensures w in s.fd && w in s.home && s.home[w] in s.rings && w in s.rings[s.home[w]]
    ensures s.fd[w] in s.fdtbl && First(s.fdtbl[s.fd[w]], s) && s.home[s.fdtbl[s.fd[w]]] == s.home[w]
  {
  }

  lemma DeletedKeeps(s: State, w: Id, done: bool)
    requires Ringed(s) && Marked(s) && w in s.alive && w in s.fd && w in s.home && s.home[w] in s.rings
    ensures Ringed(Deleted(s, w, done)) && Marked(Deleted(s, w, done))
  {
    hide Union, Idle, Polling, RingedIn;
    PollingFrame(Marking(s, w), s.fd[w], Union(s.rings[s.home[w]], s.events[w := {}]), done);
    assert w !in s.deleted;
  }

  /** Refused changes do no harm exactly if there was nothing to change. */
  lemma RefusedOk(s: State, w: Id)
    requires Ok(s) && w in s.alive && w in s.fd && s.fd[w] !in s.closed
    ensures w in s.home && s.home[w] in s.rings && s.fd[w] in s.epoll
    ensures Ok(Deleted(s, w, false)) <==> s.epoll[s.fd[w]] == Union(s.rings[s.home[w]], s.events[w := {}])
  {
    hide Union, Idle, Ringed, Marked;
    DeletedOk(s, w);
    LiveOnRing(s, w);
    if s.epoll[s.fd[w]] == Union(s.rings[s.home[w]], s.events[w := {}]) {
      assert s.epoll[s.fd[w] := s.epoll[s.fd[w]]] == s.epoll;
      assert Deleted(s, w, false) == Deleted(s, w, true);
    }
  }

  /** Closing a watched descriptor. */
  lemma ClosedOk(s: State, f: int)
    requires Ok(s) && f in s.epoll
    ensures Ok(s.(epoll := s.epoll - {f}, closed := s.closed + {f}))
  {
    hide Union, Idle, RingedIn, MarkedIn;
    var t := s.(epoll := s.epoll - {f}, closed := s.closed + {f});
    assert t.epoll.Keys == s.epoll.Keys - {f};
    assert forall v :: First(v, t) <==> First(v, s);
    hide First;
  }

  lemma UnionPart(xs: seq<Id>, w: Id, events: map<Id, Events>)
    requires w in xs && w in events
    ensures events[w] <= Union(xs, events)
  {
  }

  lemma DeletedMastered(s: State, w: Id)
    requires Ringed(s) && Mastered(s) && Marked(s) && w in s.alive && w in s.fd && w in s.home && s.home[w] in s.rings
    ensures Mastered(Deleted(s, w, true))
  {
    hide Union, Polling;
    var t := Deleted(s, w, true);
    LiveOnRing(s, w);
    var ev := s.events[w := {}];
    PollingFrame(Marking(s, w), s.fd[w], Union(s.rings[s.home[w]], ev), true);
    forall v | v in t.alive ensures s.fd[v] in t.fdtbl {
      LiveOnRing(s, v);
      if s.fd[v] == s.fd[w] {
        UnionPart(s.rings[s.home[w]], v, ev);
      }
    }
    forall v | First(v, s) ensures First(v, t) {}
  }

  lemma DeletedPolled(s: State, w: Id)
    requires Ringed(s) && Mastered(s) && Marked(s) && Polled(s) && w in s.alive && w in s.fd
    requires w in s.home && s.home[w] in s.rings
    ensures Polled(Deleted(s, w, true))
  {
    LiveOnRing(s, w);
    DeletedUnions(s, w);
    hide Union, Idle, Ringed, Mastered, Marked, First, Registered;
    DeletedRegistered(s, w);
  }

  lemma DeletedRegistered(s: State, w: Id)
    requires Registered(s) && w in s.fd && w in s.home && s.home[w] in s.rings && s.fd[w] in s.fdtbl
    ensures Registered(Deleted(s, w, true))
  {
    hide Union, Idle;
  }

  lemma DeletedUnions(s: State, w: Id)
    requires Ringed(s) && Mastered(s) && Marked(s) && Polled(s) && w in s.alive && w in s.fd
    ensures forall g :: g in s.fdtbl && g != s.fd[w] ==>
      && s.fdtbl[g] in s.home && s.home[s.fdtbl[g]] in s.rings
      && var mask := Union(s.rings[s.home[s.fdtbl[g]]], s.events[w := {}]);
         !Idle(mask) && (g in s.epoll ==> s.epoll[g] == mask)
  {
    hide Union, Idle;
    LiveOnRing(s, w);
    forall g | g in s.fdtbl && g != s.fd[w]
      ensures var ring := s.rings[s.home[s.fdtbl[g]]]; Union(ring, s.events[w := {}]) == Union(ring, s.events)
    {
      OneRing(s, s.fd[w], g);
      UnionAgain(s.rings[s.home[s.fdtbl[g]]], s.events, s.events[w := {}]);
    }
  }

  // ----- the purge -----

  lemma WithoutHead(xs: seq<Id>, w: Id)
    requires xs != []
    ensures xs[0] != w ==> Without<Id>(xs, w) != [] && Without<Id>(xs, w)[0] == xs[0]
  {
  }

  lemma FreedOk(s: State)
    requires Ok(s) && s.deleted != []
    ensures var w := s.deleted[0]; w in s.fd && w in s.home && s.home[w] in s.rings && Ok(Freed(s))
  {
    var w := s.deleted[0];
    assert w in s.fd && w in s.home && s.home[w] in s.rings by { hide Mastered, Polled; }
    hide Union, Ringed, Mastered, Marked, Polled, Idle, Freed;
    FreedRinged(s);
    FreedMarked(s);
    FreedMastered(s);
    FreedPolled(s);
  }

  lemma FreedRinged(s: State)
    requires Ringed(s) && s.deleted != [] && var w := s.deleted[0]; w in s.fd && w in s.home && s.home[w] in s.rings
    ensures Ringed(Freed(s))
  {
    RingedLess(s.rings, s.home, s.fd, s.count, s.deleted[0]);
    hide RingedIn, Without, TakenOver;
  }

  lemma RingedLess(rings: map<Id, seq<Id>>, home: map<Id, Id>, fd: map<Id, int>, count: nat, w: Id)
    requires RingedIn(rings, home, fd, count) && w in home && home[w] in rings
    ensures RingedIn(rings[home[w] := Without<Id>(rings[home[w]], w)], home - {w}, fd, count)
  {
    hide Without, Distinct;
    RingLess(rings[home[w]], w);
  }

  lemma RingLess(ring: seq<Id>, w: Id)
    requires Distinct<Id>(ring)
    ensures Distinct<Id>(Without<Id>(ring, w))
    ensures forall v :: v in ring && v != w ==> v in Without<Id>(ring, w)
    ensures forall i ::
      0 <= i < |Without<Id>(ring, w)| ==> Without<Id>(ring, w)[i] in ring && Without<Id>(ring, w)[i] != w
  {
    hide Without;
    WithoutMembers<Id>(ring, w);
    WithoutDistinct<Id>(ring, w);
    forall i | 0 <= i < |Without<Id>(ring, w)| ensures Without<Id>(ring, w)[i] in ring && Without<Id>(ring, w)[i] != w {
      assert Without<Id>(ring, w)[i] in Without<Id>(ring, w);
    }
  }

  lemma FreedMarked(s: State)
    requires Ringed(s) && Marked(s) && s.deleted != [] && var w := s.deleted[0];
      w in s.fd && w in s.home && s.home[w] in s.rings
    ensures Marked(Freed(s))
  {
    MarkedLess(s.home, s.events, s.alive, s.deleted);
    hide MarkedIn, Without;
  }

  lemma MarkedLess(home: map<Id, Id>, events: map<Id, Events>, alive: set<Id>, deleted: seq<Id>)
    requires MarkedIn(home, events, alive, deleted) && deleted != []
    ensures MarkedIn(home - {deleted[0]}, events - {deleted[0]}, alive, deleted[1..])
  {
    hide Idle;
    assert deleted == [deleted[0]] + deleted[1..];
    assert deleted[0] !in alive;
  }

  /** A master on the purge list has a successor. */
  lemma Handover(s: State)
    requires Ringed(s) && Mastered(s) && Marked(s) && Polled(s) && s.deleted != []
    requires var w := s.deleted[0];
      w in s.fd && w in s.home && s.home[w] in s.rings && s.fd[w] in s.fdtbl && s.fdtbl[s.fd[w]] == w
    ensures var w := s.deleted[0]; Without<Id>(s.rings[s.home[w]], w) != []
  {
    hide Without;
    var w := s.deleted[0];
    assert w !in s.alive;
    UnionWithout(s.rings[s.home[w]], w, s.events);
  }

  lemma FreedMastered(s: State)
    requires Ringed(s) && Mastered(s) && Marked(s) && Polled(s) && s.deleted != []
    requires var w := s.deleted[0]; w in s.fd && w in s.home && s.home[w] in s.rings
    ensures Mastered(Freed(s))
  {
    var w := s.deleted[0];
    var f := s.fd[w];
    var takeover := f in s.fdtbl && s.fdtbl[f] == w;
    if takeover { Handover(s); }
    hide Mastered, Without, Union, Idle, Polled;
    FreedFirsts(s);
    if takeover { FreedTakeover(s); } else { FreedOther(s); }
  }

  /** Whoever else was first on a ring is still, and the successor of a freed
      first one is now. */
  lemma FreedFirsts(s: State)
    requires Ringed(s) && s.deleted != []
    requires var w := s.deleted[0]; w in s.fd && w in s.home && s.home[w] in s.rings
    ensures forall v :: First(v, s) && v != s.deleted[0] ==> First(v, Freed(s))
    ensures var ring := Without<Id>(s.rings[s.home[s.deleted[0]]], s.deleted[0]);
      ring != [] ==> First(ring[0], Freed(s))
  {
    hide Without;
    var w := s.deleted[0];
    var r := s.home[w];
    var ring := Without<Id>(s.rings[r], w);
    if s.rings[r] != [] { WithoutHead(s.rings[r], w); }
    WithoutMembers<Id>(s.rings[r], w);
    if ring != [] {
      assert ring[0] in ring && ring[0] in s.rings[r];
    }
  }

  lemma FreedTakeover(s: State)
    requires Ringed(s) && Mastered(s) && Marked(s) && s.deleted != []
    requires Handed(s)
    requires forall v :: First(v, s) && v != s.deleted[0] ==> First(v, Freed(s))
    requires First(Without<Id>(s.rings[s.home[s.deleted[0]]], s.deleted[0])[0], Freed(s))
    ensures Mastered(Freed(s))
  {
    FreedTable(s);
    TakeoverHooks(s);
    TakeoverLive(s);
    hide Tabled, Hosted, Hooked;
  }

  /** The next to be freed is a master, and there is someone to take over. */
  ghost predicate Handed(s: State) {
    && s.deleted != []
    && var w := s.deleted[0];
       && w in s.fd && w in s.home && s.home[w] in s.rings
       && s.fd[w] in s.fdtbl && s.fdtbl[s.fd[w]] == w && Without<Id>(s.rings[s.home[w]], w) != []
  }

  lemma TakeoverLive(s: State)
    requires Mastered(s) && Marked(s) && s.deleted != []
    requires var w := s.deleted[0]; w in s.fd && w in s.home && s.home[w] in s.rings
    requires SameRings(s, Freed(s))
    ensures Hosted(Freed(s))
  {
    hide Without, First, TakenOver, Tabled, Hooked;
    assert s.deleted[0] !in s.alive;
    var t := Freed(s);
    assert t.alive == s.alive && t.fd == s.fd && t.home == s.home - {s.deleted[0]};
    forall w | w in s.alive
      ensures w in t.home && s.fd[w] in t.fdtbl && t.fdtbl[s.fd[w]] in t.home && t.home[t.fdtbl[s.fd[w]]] == t.home[w]
    {
      var f := s.fd[w];
      assert f in s.fdtbl && s.home[s.fdtbl[f]] == s.home[w];
      assert t.home[t.fdtbl[f]] == s.home[s.fdtbl[f]];
      assert w != s.deleted[0];
    }
  }

  lemma TakeoverHooks(s: State)
    requires Ringed(s) && Mastered(s) && s.deleted != []
    requires Handed(s)
    requires forall v :: First(v, s) && v != s.deleted[0] ==> First(v, Freed(s))
    requires First(Without<Id>(s.rings[s.home[s.deleted[0]]], s.deleted[0])[0], Freed(s))
    ensures Hooked(Freed(s)) && Tabled(Freed(s))
  {
    hide Without, First;
    var w := s.deleted[0];
    var f, r := s.fd[w], s.home[w];
    var t := Freed(s);
    var ring := Without<Id>(s.rings[r], w);
    WithoutMembers<Id>(s.rings[r], w);
    WithoutMembers<Id>(s.hooked, w);
    assert ring[0] in ring && ring[0] in s.home && s.home[ring[0]] == r && ring[0] != w;
    forall i | 0 <= i < |t.hooked| ensures First(t.hooked[i], t) {
      assert t.hooked[i] in t.hooked;
    }
    forall g | g in t.fdtbl ensures First(t.fdtbl[g], t) && t.fdtbl[g] in t.hooked && s.fd[t.fdtbl[g]] == g {
      if g != f { assert s.fdtbl[g] != w; }
    }
  }

  lemma FreedOther(s: State)
    requires Ringed(s) && Mastered(s) && Marked(s) && s.deleted != []
    requires var w := s.deleted[0];
      w in s.fd && w in s.home && s.home[w] in s.rings && !(s.fd[w] in s.fdtbl && s.fdtbl[s.fd[w]] == w)
    requires forall v :: First(v, s) && v != s.deleted[0] ==> First(v, Freed(s))
    ensures Mastered(Freed(s))
  {
    hide Without, First;
    var w := s.deleted[0];
    var t := Freed(s);
    WithoutMembers<Id>(s.hooked, w);
    assert w !in s.alive;
    forall g | g in s.fdtbl ensures s.fdtbl[g] != w {}
    forall i | 0 <= i < |t.hooked| ensures First(t.hooked[i], t) {
      assert t.hooked[i] in t.hooked;
    }
  }

  lemma FreedPolled(s: State)
    requires Ringed(s) && Mastered(s) && Marked(s) && Polled(s) && s.deleted != []
    requires var w := s.deleted[0]; w in s.fd && w in s.home && s.home[w] in s.rings
    ensures Polled(Freed(s))
  {
    if s.fd[s.deleted[0]] in s.fdtbl && s.fdtbl[s.fd[s.deleted[0]]] == s.deleted[0] { Handover(s); }
    hide Without, Union, Idle, Mastered, Ringed, Marked, First;
    FreedTable(s);
    FreedUnions(s);
    FreedMasked(s);
    FreedSame(s);
    assert Registered(Freed(s)) by { hide Freed, Masked; }
  }

  lemma FreedSame(s: State)
    requires s.deleted != []
    requires var w := s.deleted[0]; w in s.fd && w in s.home && s.home[w] in s.rings
    ensures Freed(s).epoll == s.epoll && Freed(s).closed == s.closed && Freed(s).niowatch == s.niowatch
  {
    hide Without, TakenOver;
  }

  lemma FreedMasked(s: State)
    requires Masked(s) && s.deleted != []
    requires var w := s.deleted[0]; w in s.fd && w in s.home && s.home[w] in s.rings
    requires SameRings(s, Freed(s))
    requires forall r :: r in s.rings ==>
      r in Freed(s).rings && Union(Freed(s).rings[r], Freed(s).events) == Union(s.rings[r], s.events)
    ensures Masked(Freed(s))
  {
    hide Without, Union, Idle, Freed;
    FreedSame(s);
  }

  ghost predicate SameRings(s: State, t: State) {
    && t.fdtbl.Keys == s.fdtbl.Keys
    && forall g :: g in s.fdtbl ==>
         t.fdtbl[g] in t.home && s.fdtbl[g] in s.home && t.home[t.fdtbl[g]] == s.home[s.fdtbl[g]]
  }

  /** The table keeps its descriptors, and their rings. */
  lemma FreedTable(s: State)
    requires Ringed(s) && Mastered(s) && s.deleted != []
    requires var w := s.deleted[0]; w in s.fd && w in s.home && s.home[w] in s.rings
    requires var w := s.deleted[0]; s.fd[w] in s.fdtbl && s.fdtbl[s.fd[w]] == w ==> Handed(s)
    ensures SameRings(s, Freed(s)) && |Freed(s).fdtbl| == |s.fdtbl|
  {
    hide Without;
    var w := s.deleted[0];
    var t := Freed(s);
    if s.fd[w] in s.fdtbl && s.fdtbl[s.fd[w]] == w {
      var ring := Without<Id>(s.rings[s.home[w]], w);
      WithoutMembers<Id>(s.rings[s.home[w]], w);
      assert ring[0] in ring;
    }
    assert t.fdtbl.Keys == s.fdtbl.Keys;
    SameSize(s.fdtbl, t.fdtbl);
    forall g | g in s.fdtbl ensures t.fdtbl[g] in t.home && t.home[t.fdtbl[g]] == s.home[s.fdtbl[g]] {
      assert First(s.fdtbl[g], s) && s.fd[s.fdtbl[g]] == g;
    }
  }

  lemma SameSize(a: map<int, Id>, b: map<int, Id>)
    requires a.Keys == b.Keys
    ensures |a| == |b|
  {
    assert |a| == |a.Keys| && |b| == |b.Keys|;
  }

  lemma FreedUnions(s: State)
    requires Ringed(s) && Marked(s) && s.deleted != []
    requires var w := s.deleted[0]; w in s.fd && w in s.home && s.home[w] in s.rings
    ensures forall r ::
      r in s.rings ==> r in Freed(s).rings && Union(Freed(s).rings[r], Freed(s).events) == Union(s.rings[r], s.events)
  {
    hide Union, Idle;
    var w := s.deleted[0];
    var ev := s.events - {w};
    assert w !in s.alive && s.events[w] == {};
    forall r | r in s.rings ensures r in Freed(s).rings && Union(Freed(s).rings[r], ev) == Union(s.rings[r], s.events) {
      WithoutMembers<Id>(s.rings[r], w);
      var ring := Freed(s).rings[r];
      if r == s.home[w] {
        UnionWithout(s.rings[r], w, s.events);
        assert ring == Without<Id>(s.rings[r], w);
      } else {
        assert w !in s.rings[r];
      }
      forall i | 0 <= i < |ring| ensures ring[i] in s.home && ring[i] != w { assert ring[i] in ring; }
      UnionAgain(ring, s.events, ev);
    }
  }

  // ----- what the invariant means -----

  /** A descriptor is polled exactly if a live watch is on it and it has not been
      closed, for exactly the events that some live watch on it wants. */
  lemma PolledIsWanted(s: State, f: int, bit: Flag)
    requires Ok(s)
    ensures f in s.epoll <==> f !in s.closed && exists w :: w in s.alive && w in s.fd && s.fd[w] == f
    ensures f in s.epoll ==>
      (bit in s.epoll[f] <==>
        exists w :: w in s.alive && w in s.fd && w in s.events && s.fd[w] == f && bit in s.events[w])
  {
    hide Union, Ringed, Marked;
    if f in s.fdtbl {
      var r := s.home[s.fdtbl[f]];
      assert First(s.fdtbl[f], s);
      if b :| b in Union(s.rings[r], s.events) * ALL {
        RingWants(s, f, b);
      }
      RingWants(s, f, bit);
    }
  }

  lemma RingWants(s: State, f: int, bit: Flag)
    requires Ok(s) && f in s.fdtbl && First(s.fdtbl[f], s)
    ensures bit in Union(s.rings[s.home[s.fdtbl[f]]], s.events)
      <==> exists w :: w in s.alive && w in s.fd && w in s.events && s.fd[w] == f && bit in s.events[w]
  {
    hide Union, Polled, Idle;
    var ring := s.rings[s.home[s.fdtbl[f]]];
    UnionBits(ring, s.events, bit);
    if w :| w in s.alive && w in s.fd && w in s.events && s.fd[w] == f && bit in s.events[w] {
      assert w in ring;
      var i :| 0 <= i < |ring| && ring[i] == w;
    }
    if i :| 0 <= i < |ring| && bit in s.events[ring[i]] {
      assert ring[i] in s.alive && s.fd[ring[i]] == f;
    }
  }

  /** Once nothing waits for the purge, every watch there is is live. */
  lemma PurgedMasters(s: State, f: int)
    requires Ok(s) && s.deleted == [] && f in s.fdtbl
    ensures s.fdtbl[f] in s.alive
  {
    hide Union, Polled, Idle;
    assert First(s.fdtbl[f], s);
  }

  // ----- the operations -----

  /** mainloop.c: the I/O watches of a main loop. */
  class Watches {
    var fdtbl: map<int, Id>
    var rings: map<Id, seq<Id>>
    var home: map<Id, Id>
    var fd: map<Id, int>
    var events: map<Id, Events>
    var hooked: seq<Id>
    var alive: set<Id>
    var deleted: seq<Id>
    var epoll: map<int, Events>
    ghost var closed: set<int>     // those closed since, which epoll has dropped
    ghost var asked: map<Id, Events>  // what the callers asked for
    var niowatch: int
    var count: nat

    ghost function Now(): State reads this {
      State(fdtbl, rings, home, fd, events, hooked, alive, deleted, epoll, closed, niowatch, count)
    }

    ghost predicate Valid() reads this { Ok(Now()) && Granted(asked, alive, events) }

    /** Of the events, a descriptor is polled for exactly those that the callers
        asked for whose watches on it live. */
    lemma PolledIsAsked(f: int, bit: Flag)
      requires Valid() && f in epoll && bit in {In, Pri, Out, Err, RdHup}
      ensures bit in epoll[f] <==>
        exists w :: w in alive && w in fd && w in asked && fd[w] == f && bit in asked[w]
    {
      hide Ok;
      PolledIsWanted(Now(), f, bit);
      assert forall w :: w in alive ==> (bit in events[w] * ALL <==> bit in asked[w] * ALL);
    }

    constructor ()
      ensures Valid() && alive == {}
    {
      fdtbl, rings, home, fd, events, hooked := map[], map[], map[], map[], map[], [];
      alive, deleted, epoll, closed, asked, niowatch, count := {}, [], map[], {}, map[], 0, 0;
    }

    /** epoll_event_mask: the ring's events, walked from the master on. */
    method EpollMask(master: Id, ignore: Option<Id>) returns (mask: Events)
      requires First(master, Now()) && forall i :: 0 <= i < |rings[home[master]]| ==> rings[home[master]][i] in events
      requires ignore.Some? ==> ignore.value in events && events[ignore.value] == {}
      ensures mask == Union(rings[home[master]], events)
    {
      var ring := rings[home[master]];
      mask := if ignore == Some(master) then events[master] * {Edge} else events[master];
      var k := 1;
      assert ring[..1] == [master];
      UnionOne(master, mask, events);
      while k < |ring|
        invariant 1 <= k <= |ring| && mask == Union(ring[..k], events)
      {
        if Some(ring[k]) != ignore { mask := mask + events[ring[k]]; }
        assert ring[..k + 1] == ring[..k] + [ring[k]];
        UnionConcat(ring[..k], [ring[k]], events);
        UnionOne(ring[k], events[ring[k]], events);
        k := k + 1;
      }
      assert ring[..k] == ring;
    }

    /** iot_add_io_watch: the first watch on a descriptor registers it, a later
        one joins the first one's ring. ok is what epoll says of a descriptor that
        is open; a closed one cannot be modified. */
    method Add(f: int, wanted: Events, iomode: Flag, cb: bool, ok: bool) returns (w: Option<Id>)
      requires Valid()
      modifies this
      ensures w == if f >= 0 && cb && ok && f !in closed then Some(old(count)) else None
      ensures w.None? ==> Now() == old(Now())
      ensures w.Some? && f !in old(fdtbl) ==> Now() == AddedMaster(old(Now()), f, Wanted(wanted, iomode))
      ensures w.Some? && f in old(fdtbl) ==>
        && old(fdtbl)[f] in old(home) && old(home)[old(fdtbl)[f]] in old(rings)
        && Now() == AddedSlave(old(Now()), old(home)[old(fdtbl)[f]], f, Wanted(wanted, iomode))
      ensures w.Some? ==>
        && w.value in events && Grants(wanted, iomode, events[w.value])
        && w.value in fd && fd[w.value] == f && w.value in alive
      ensures Valid() <==> w.None? || wanted * {In, Pri, Out, Err, RdHup} != {}
      ensures asked == if w.Some? then old(asked)[w.value := wanted] else old(asked)
      ensures w.Some? ==> f in epoll && forall bit :: bit in {In, Pri, Out, Err, RdHup} ==>
        (bit in epoll[f] <==> bit in wanted || (f in old(epoll) && bit in old(epoll)[f]))
    {
      hide Union, Idle, Ringed, Mastered, Marked, Polled, Granted, Wanted;
      w := None;
      ClosedKnown(Now(), f);
      if f < 0 || !cb || !ok || (f in fdtbl && f !in epoll) { return; }
      var e := Wanted(wanted, iomode);
      WantedIdle(wanted, iomode);
      WantedGrants(wanted, iomode);
      IdleIs(wanted);
      AskedBits(Now(), f, wanted, iomode);
      GrantedMore(asked, alive, events, count, wanted, iomode);
      ghost var s := Now();
      if f !in fdtbl {
        if !Idle(wanted) { AddedMasterOk(s, f, e); }
        Register(f, e);
      } else {
        TableMaster(s, f);
        if !Idle(wanted) { AddedSlaveOk(s, f, e); }
        Join(f, e);
      }
      IdleWatch(Now(), s.count);
      w := Some(count - 1);
      asked := asked[count - 1 := wanted];
    }

    method Register(f: int, e: Events)
      modifies this
      ensures Now() == AddedMaster(old(Now()), f, e) && asked == old(asked)
    {
      hide Ok;
      var w := Create(f, e, count);
      rings := rings[w := [w]];
      epoll := epoll[f := e];
      Enter(f, w);
    }

    method Enter(f: int, w: Id)
      modifies this`fdtbl, this`hooked, this`niowatch
      ensures fdtbl == old(fdtbl)[f := w] && hooked == old(hooked) + [w] && niowatch == old(niowatch) + 1
    {
      fdtbl := fdtbl[f := w];
      hooked := hooked + [w];
      niowatch := niowatch + 1;
    }

    method Create(f: int, e: Events, ring: Id) returns (w: Id)
      modifies this`fd, this`events, this`alive, this`home, this`count
      ensures w == old(count) && count == w + 1 && alive == old(alive) + {w}
      ensures fd == old(fd)[w := f] && events == old(events)[w := e] && home == old(home)[w := ring]
    {
      w := count;
      fd, events, home := fd[w := f], events[w := e], home[w := ring];
      alive, count := alive + {w}, count + 1;
    }

    method Join(f: int, e: Events)
      requires f in fdtbl && First(fdtbl[f], Now())
      requires forall i :: 0 <= i < |rings[home[fdtbl[f]]]| ==> rings[home[fdtbl[f]]][i] in events
      modifies this
      ensures asked == old(asked) && First(old(fdtbl)[f], old(Now()))
      ensures Now() == AddedSlave(old(Now()), old(home)[old(fdtbl)[f]], f, e)
    {
      hide Ok;
      var r := home[fdtbl[f]];
      var mask := EpollMask(fdtbl[f], None);
      var w := Create(f, e, r);
      epoll := epoll[f := mask + e];
      rings := rings[r := rings[r] + [w]];
    }

    method Mark(w: Id)
      requires w in events
      modifies this`events, this`alive, this`deleted
      ensures Now() == Marking(old(Now()), w)
    {
      events, alive, deleted := events[w := {}], alive - {w}, deleted + [w];
    }

    /** A watched descriptor is closed, and epoll drops it. */
    method Close(f: int)
      requires Valid() && f in epoll
      modifies this`epoll, this`closed
      ensures Valid() && closed == old(closed) + {f} && epoll == old(epoll) - {f}
    {
      ClosedOk(Now(), f);
      hide Ok, Granted;
      epoll, closed := epoll - {f}, closed + {f};
    }

    /** iot_del_io_watch: marks the watch and polls for what the others want. ok
        is what epoll says of a descriptor that is open; nothing looks at it but
        the count. Of a closed one epoll says that it does not know it. */
    method Del(w: Id, ok: bool)
      requires Valid()
      modifies this
      ensures w !in old(alive) ==> Now() == old(Now())
      ensures w in old(alive) ==>
        && w in old(fd) && w in old(home) && old(home)[w] in old(rings)
        && Now() == Deleted(old(Now()), w, ok || old(fd)[w] in old(closed))
      ensures w in old(alive) && old(fd)[w] !in old(closed) ==> old(fd)[w] in old(epoll)
      ensures Valid() <==> (w !in old(alive) || ok || old(fd)[w] in old(closed)
        || old(epoll)[old(fd)[w]] == Union(old(rings)[old(home)[w]], old(events)[w := {}]))
    {
      hide Union, Idle, Ok, Polling, Granted;
      if w !in alive { return; }
      GrantedLess(asked, alive, events, w);
      ghost var s := Now();
      DeletedOk(s, w);
      if fd[w] !in closed { RefusedOk(s, w); }
      MasterOf(s, w);
      Mark(w);
      // epoll_del
      var master := if w in hooked then w else fdtbl[fd[w]];
      var f := fd[w];
      var mask := EpollMask(master, Some(w));
      Poll(f, mask, ok);
    }

    /** The changes that a deletion asks of epoll: another mask, or none. */
    method Poll(f: int, mask: Events, ok: bool)
      requires f in epoll <==> f !in closed
      modifies this`fdtbl, this`epoll, this`closed, this`niowatch
      ensures Now() == Polling(old(Now()), f, mask, ok || f in old(closed))
    {
      hide Idle;
      var known := f in epoll;
      if Idle(mask) {
        fdtbl := fdtbl - {f};
        if ok || !known { epoll, closed, niowatch := epoll - {f}, closed - {f}, niowatch - 1; }
      } else if ok && known {
        epoll := epoll[f := mask];
      }
    }

    /** purge_deleted and free_io_watch */
    method Purge()
      requires Valid()
      modifies this
      ensures Valid() && deleted == [] && alive == old(alive) && epoll == old(epoll) && niowatch == old(niowatch)
      ensures forall f :: f in fdtbl ==> fdtbl[f] in alive
      ensures fdtbl.Keys == old(fdtbl).Keys
    {
      hide Union, Idle, Marked, Mastered, Ringed, Polled, First, Granted;
      while deleted != []
        invariant Valid() && alive == old(alive) && epoll == old(epoll) && niowatch == old(niowatch)
        invariant fdtbl.Keys == old(fdtbl).Keys
        decreases |deleted|
      {
        FreedOk(Now());
        FreedKeys(Now());
        FirstDead(Now());
        GrantedLess(asked, alive, events, deleted[0]);
        FreeWatch();
      }
      forall f | f in fdtbl ensures fdtbl[f] in alive { PurgedMasters(Now(), f); }
    }

    method FreeWatch()
      requires deleted != [] && var w := deleted[0]; w in fd && w in home && home[w] in rings && w in rings[home[w]]
      modifies this
      ensures var s := old(Now()); s.deleted != [] && var w := s.deleted[0];
        w in s.fd && w in s.home && s.home[w] in s.rings && Now() == Freed(s) && asked == old(asked)
    {
      hide Union, Ok, Without, TakenOver;
      var w := deleted[0];
      var f, r := fd[w], home[w];
      Unlink(w, r);
      TakeOver(f, w, rings[r]);
    }

    method Unlink(w: Id, r: Id)
      requires deleted != [] && r in rings
      modifies this`deleted, this`hooked, this`rings, this`home, this`events
      ensures deleted == old(deleted)[1..] && hooked == Without<Id>(old(hooked), w)
      ensures rings == old(rings)[r := Without<Id>(old(rings)[r], w)]
      ensures home == old(home) - {w} && events == old(events) - {w}
    {
      deleted := deleted[1..];
      hooked := Without<Id>(hooked, w);
      rings := rings[r := Without<Id>(rings[r], w)];
      home, events := home - {w}, events - {w};
    }

    /** A freed master's place in the table goes to the next on its ring. */
    method TakeOver(f: int, w: Id, rest: seq<Id>)
      modifies this`fdtbl, this`hooked
      ensures (fdtbl, hooked) == TakenOver(old(fdtbl), old(hooked), f, w, rest)
    {
      if f in fdtbl && fdtbl[f] == w {
        ghost var before := fdtbl;
        fdtbl := fdtbl - {f};
        if rest != [] {
          hooked := hooked + [rest[0]];
          fdtbl := fdtbl[f := rest[0]];
          assert fdtbl == before[f := rest[0]];
        }
      }
    }
  }

  /** Every live watch has of the events exactly those asked for. */
  ghost predicate Granted(asked: map<Id, Events>, alive: set<Id>, events: map<Id, Events>) {
    forall w :: w in alive ==> w in asked && w in events && events[w] * ALL == asked[w] * ALL
  }

  lemma GrantedMore(asked: map<Id, Events>, alive: set<Id>, events: map<Id, Events>, w: Id, a: Events, iomode: Flag)
    requires Granted(asked, alive, events)
    ensures Granted(asked[w := a], alive + {w}, events[w := Wanted(a, iomode)])
  {
    WantedGrants(a, iomode);
    hide Wanted;
    assert Wanted(a, iomode) * ALL == a * ALL;
  }

  lemma GrantedLess(asked: map<Id, Events>, alive: set<Id>, events: map<Id, Events>, w: Id)
    requires Granted(asked, alive, events)
    ensures Granted(asked, alive - {w}, events[w := {}])
    ensures w !in alive ==> Granted(asked, alive, events - {w})
  {
  }

  /** A new registration: what the caller asked for, and what was there. */
  lemma AskedBits(s: State, f: int, asked: Events, iomode: Flag)
    requires Ok(s) && f !in s.closed
    ensures f !in s.fdtbl ==> f !in s.epoll && forall bit :: bit in ALL ==>
      (bit in AddedMaster(s, f, Wanted(asked, iomode)).epoll[f] <==> bit in asked)
    ensures f in s.fdtbl ==>
      && f in s.epoll && s.fdtbl[f] in s.home && s.home[s.fdtbl[f]] in s.rings
      && forall bit :: bit in ALL ==>
           (bit in AddedSlave(s, s.home[s.fdtbl[f]], f, Wanted(asked, iomode)).epoll[f]
            <==> bit in asked || bit in s.epoll[f])
  {
    WantedGrants(asked, iomode);
    hide Wanted, Union, Idle, Ringed, Mastered, Marked;
    assert f in s.epoll.Keys <==> f in s.epoll;
    assert f in s.fdtbl.Keys <==> f in s.fdtbl;
  }

  lemma IdleIs(e: Events)
    ensures Idle(e) <==> e * {In, Pri, Out, Err, RdHup} == {}
  {
  }

  lemma WantedIdle(wanted: Events, iomode: Flag)
    ensures Idle(Wanted(wanted, iomode)) <==> Idle(wanted)
  {
    assert Wanted(wanted, iomode) * ALL == wanted * ALL;
  }

  /** A live watch that wants nothing would be dropped with the last of its
      companions, so it is not in a state that the invariant allows. */
  lemma IdleWatch(s: State, w: Id)
    requires w in s.alive && w in s.events
    ensures Ok(s) ==> !Idle(s.events[w])
  {
    hide Idle, Mastered, Polled, Ringed;
  }

  lemma ClosedKnown(s: State, f: int)
    requires Ok(s)
    ensures f in s.closed <==> f in s.fdtbl && f !in s.epoll
  {
    hide Ringed, Mastered, Marked, Masked;
    assert f in s.epoll.Keys <==> f in s.epoll;
    assert f in s.fdtbl.Keys <==> f in s.fdtbl;
  }

  lemma TableMaster(s: State, f: int)
    requires Ok(s) && f in s.fdtbl
    ensures First(s.fdtbl[f], s)
    ensures var r := s.home[s.fdtbl[f]]; forall i :: 0 <= i < |s.rings[r]| ==> s.rings[r][i] in s.events
  {
    hide Union, Idle, Polled;
  }

  lemma MasterOf(s: State, w: Id)
    requires Ok(s) && w in s.alive
    ensures w in s.fd && w in s.home && s.home[w] in s.rings && s.fd[w] in s.fdtbl && w in s.events
    ensures First(s.fdtbl[s.fd[w]], s) && s.home[s.fdtbl[s.fd[w]]] == s.home[w]
    ensures w in s.hooked ==> s.fdtbl[s.fd[w]] == w
    ensures s.fd[w] in s.epoll <==> s.fd[w] !in s.closed
    ensures forall i :: 0 <= i < |s.rings[s.home[w]]| ==> s.rings[s.home[w]][i] in s.events
  {
    hide Union, Idle;
    if w in s.hooked { assert First(w, s); }
  }

  lemma FirstDead(s: State)
    requires Ok(s) && s.deleted != []
    ensures s.deleted[0] !in s.alive
  {
    hide Union, Idle, Ringed, Mastered, Polled;
  }

  lemma FreedKeys(s: State)
    requires Ok(s) && s.deleted != []
    ensures var w := s.deleted[0]; w in s.fd && w in s.home && s.home[w] in s.rings && w in s.rings[s.home[w]]
    ensures Freed(s).fdtbl.Keys == s.fdtbl.Keys
  {
    hide Union, Idle, Without;
    var w := s.deleted[0];
    assert w in s.home;
    if s.fd[w] in s.fdtbl && s.fdtbl[s.fd[w]] == w { Handover(s); }
    FreedTable(s);
  }
}
