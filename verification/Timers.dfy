/** The main loop's timer list: sorted by expiry, with deletion delayed until
    the end of the iteration, and its dispatch loop with re-entrant callbacks. */
module Timers {
  import opened Seqs

  type Id = nat

  // ----- intervals -----

  /** msecs * USECS_PER_MSEC, a 32-bit product. */
  function Interval(msecs: nat): nat { msecs * 1000 % 0x1_0000_0000 }

  /** The interval fits into 32 bits, and is the product but for those above. So it
      is exact up to 71 minutes, and a longer one can come out as none at all: at
      the multiples of 2^29. */
  lemma IntervalExact(msecs: nat)
    ensures Interval(msecs) < 0x1_0000_0000 && exists q: nat :: msecs * 1000 == Interval(msecs) + q * 0x1_0000_0000
    ensures Interval(msecs) == msecs * 1000 <==> msecs <= 4294967
    ensures Interval(msecs) == 0 <==> msecs % 0x2000_0000 == 0
  {
    assert msecs * 1000 == Interval(msecs) + (msecs * 1000 / 0x1_0000_0000) * 0x1_0000_0000;
    if Interval(msecs) == 0 { NoneAtAll(msecs, msecs * 1000 / 0x1_0000_0000); }
    if msecs % 0x2000_0000 == 0 { Vanishes(msecs / 0x2000_0000); }
  }

  /** 115964117 is the inverse of 125 modulo 2^29. */
  lemma NoneAtAll(msecs: nat, q: nat)
    requires msecs * 1000 == q * 0x1_0000_0000
    ensures msecs % 0x2000_0000 == 0
  {
    var k := q * 115964117 - msecs * 27;
    assert msecs == 0x2000_0000 * k;
  }

  lemma Vanishes(k: nat)
    ensures Interval(k * 0x2000_0000) == 0
  {
    var n := k * 125;
    assert k * 0x2000_0000 * 1000 == n * 0x1_0000_0000;
  }

  /** usecs_to_msecs: the least whole number of milliseconds that is enough. */
  function Ceil(usecs: nat): nat { (usecs + 999) / 1000 }

  // ----- the list -----

  ghost predicate Known(xs: seq<Id>, expire: map<Id, nat>) {
    forall i :: 0 <= i < |xs| ==> xs[i] in expire
  }

  /** Live timers are in order of expiry; dead ones are anywhere. */
  ghost predicate Sorted(xs: seq<Id>, alive: set<Id>, expire: map<Id, nat>)
    requires Known(xs, expire)
  {
    xs == [] ||
    (&& (xs[0] in alive ==> forall i :: 0 < i < |xs| && xs[i] in alive ==> expire[xs[0]] <= expire[xs[i]])
     && Sorted(xs[1..], alive, expire))
  }

  ghost function FirstLive(xs: seq<Id>, alive: set<Id>): Option<Id> {
    if xs == [] then None else if xs[0] in alive then Some(xs[0]) else FirstLive(xs[1..], alive)
  }

  /** The list with t put in front of the first live timer due no earlier. */
  ghost function Insert(xs: seq<Id>, t: Id, alive: set<Id>, expire: map<Id, nat>): seq<Id>
    requires Known(xs, expire) && t in expire
  {
    if xs == [] then [t]
    else if xs[0] in alive && expire[t] <= expire[xs[0]] then [t] + xs
    else [xs[0]] + Insert(xs[1..], t, alive, expire)
  }

  lemma {:induction false} InsertMembers(xs: seq<Id>, t: Id, alive: set<Id>, expire: map<Id, nat>)
    requires Known(xs, expire) && t in expire
    ensures forall y :: y in Insert(xs, t, alive, expire) <==> y == t || y in xs
  {
    if xs != [] && !(xs[0] in alive && expire[t] <= expire[xs[0]]) {
      InsertMembers(xs[1..], t, alive, expire);
      var r := Insert(xs[1..], t, alive, expire);
      forall y ensures y in [xs[0]] + r <==> y == t || y in xs {
        assert y in xs <==> y == xs[0] || y in xs[1..];
      }
    }
  }

  /** Unlinking an inserted timer gives the list back. */
  lemma {:induction false} InsertUndone(xs: seq<Id>, t: Id, alive: set<Id>, expire: map<Id, nat>)
    requires Known(xs, expire) && t in expire && t !in xs
    ensures Without<Id>(Insert(xs, t, alive, expire), t) == xs
  {
    WithoutAbsent<Id>(xs, t);
    if xs == [] {
      assert [t][1..] == [];
    } else if xs[0] in alive && expire[t] <= expire[xs[0]] {
      assert ([t] + xs)[1..] == xs;
    } else {
      InsertUndone(xs[1..], t, alive, expire);
      var r := Insert(xs[1..], t, alive, expire);
      assert ([xs[0]] + r)[1..] == r;
    }
  }

  lemma {:induction false} InsertDistinct(xs: seq<Id>, t: Id, alive: set<Id>, expire: map<Id, nat>)
    requires Known(xs, expire) && t in expire && t !in xs && Distinct<Id>(xs)
    ensures Distinct<Id>(Insert(xs, t, alive, expire))
  {
    if xs != [] {
      if xs[0] in alive && expire[t] <= expire[xs[0]] {
        DistinctConcat<Id>([t], xs);
      } else {
        InsertDistinct(xs[1..], t, alive, expire);
        InsertMembers(xs[1..], t, alive, expire);
        assert xs[0] !in xs[1..];
        DistinctConcat<Id>([xs[0]], Insert(xs[1..], t, alive, expire));
      }
    }
  }

  lemma {:induction false} InsertSorted(xs: seq<Id>, t: Id, alive: set<Id>, expire: map<Id, nat>)
    requires Known(xs, expire) && t in expire && t in alive && t !in xs
    requires Sorted(xs, alive, expire)
    ensures Known(Insert(xs, t, alive, expire), expire)
    ensures Sorted(Insert(xs, t, alive, expire), alive, expire)
  {
    var r := Insert(xs, t, alive, expire);
    if xs == [] {
    } else if xs[0] in alive && expire[t] <= expire[xs[0]] {
      assert r[1..] == xs;
      forall i | 0 < i < |r| && r[i] in alive ensures expire[r[0]] <= expire[r[i]] {
        assert r[i] == xs[i - 1];
      }
    } else {
      var s := Insert(xs[1..], t, alive, expire);
      InsertSorted(xs[1..], t, alive, expire);
      InsertMembers(xs[1..], t, alive, expire);
      assert r == [xs[0]] + s && r[1..] == s;
      HeadFirst(xs, s, t, alive, expire);
    }
  }

  /** The old head still comes first after an insertion behind it. */
  lemma {:induction false} HeadFirst(xs: seq<Id>, s: seq<Id>, t: Id, alive: set<Id>, expire: map<Id, nat>)
    requires xs != [] && Known(xs, expire) && Sorted(xs, alive, expire) && Known(s, expire) && t in expire
    requires forall y :: y in s <==> y == t || y in xs[1..]
    requires xs[0] in alive ==> expire[xs[0]] <= expire[t]
    ensures xs[0] in alive ==> forall i :: 0 <= i < |s| && s[i] in alive ==> expire[xs[0]] <= expire[s[i]]
  {
    forall i | 0 <= i < |s| && xs[0] in alive && s[i] in alive ensures expire[xs[0]] <= expire[s[i]] {
      assert s[i] in s;
    }
  }

  lemma WithoutSorted(xs: seq<Id>, t: Id, alive: set<Id>, expire: map<Id, nat>)
    requires Known(xs, expire) && Sorted(xs, alive, expire)
    ensures Known(Without<Id>(xs, t), expire) && Sorted(Without<Id>(xs, t), alive, expire)
  {
    WithoutMembers<Id>(xs, t);
    var r := Without<Id>(xs, t);
    forall i | 0 <= i < |r| ensures r[i] in expire { assert r[i] in r; }
    if xs != [] {
      WithoutSorted(xs[1..], t, alive, expire);
      WithoutMembers<Id>(xs[1..], t);
      if xs[0] != t {
        var s := Without<Id>(xs[1..], t);
        assert r[1..] == s;
        forall i | 0 < i < |r| && xs[0] in alive && r[i] in alive ensures expire[r[0]] <= expire[r[i]] {
          assert r[i] == s[i - 1] && s[i - 1] in s;
        }
      }
    }
  }

  /** Sortedness only depends on the live timers' expiries. */
  lemma SortedAgain(xs: seq<Id>, alive: set<Id>, expire: map<Id, nat>, alive': set<Id>, expire': map<Id, nat>)
    requires Known(xs, expire) && Known(xs, expire') && Sorted(xs, alive, expire)
    requires forall i :: 0 <= i < |xs| && xs[i] in alive' ==> xs[i] in alive && expire'[xs[i]] == expire[xs[i]]
    ensures Sorted(xs, alive', expire')
  {
  }

  lemma FirstLiveFacts(xs: seq<Id>, alive: set<Id>, expire: map<Id, nat>)
    requires Known(xs, expire) && Sorted(xs, alive, expire)
    ensures FirstLive(xs, alive) == None <==> forall y :: y in xs ==> y !in alive
    ensures FirstLive(xs, alive).Some? ==>
      var f := FirstLive(xs, alive).value;
        f in xs && f in alive && forall y :: y in xs && y in alive ==> expire[f] <= expire[y]
  {
    if xs != [] {
      FirstLiveFacts(xs[1..], alive, expire);
      assert xs == [xs[0]] + xs[1..];
      forall y | y in xs ensures y == xs[0] || y in xs[1..] {}
    }
  }

  lemma FirstLiveConcat(xs: seq<Id>, ys: seq<Id>, alive: set<Id>)
    ensures FirstLive(xs + ys, alive) == if FirstLive(xs, alive).Some? then FirstLive(xs, alive)
      else FirstLive(ys, alive)
  {
    if xs == [] {
      assert xs + ys == ys;
    } else {
      assert (xs + ys)[1..] == xs[1..] + ys;
      FirstLiveConcat(xs[1..], ys, alive);
    }
  }

  /** The list from x on, which is what a walk standing at x still visits. */
  function Rest(xs: seq<Id>, x: Option<Id>): seq<Id> {
    if xs == [] || x == None then [] else if xs[0] == x.value then xs else Rest(xs[1..], x)
  }

  function Next(xs: seq<Id>, x: Id): Option<Id> {
    var r := Rest(xs, Some(x));
    if |r| < 2 then None else Some(r[1])
  }

  lemma RestFacts(xs: seq<Id>, x: Id)
    requires x in xs && Distinct<Id>(xs)
    ensures var r := Rest(xs, Some(x)); r != [] && r[0] == x && r == [x] + Rest(xs, Next(xs, x)) && Distinct<Id>(r)
    ensures forall y :: y in Rest(xs, Some(x)) ==> y in xs
    ensures Next(xs, x).Some? ==> Next(xs, x).value in xs && Next(xs, x).value != x
  {
    if xs[0] != x {
      RestFacts(xs[1..], x);
      assert xs == [xs[0]] + xs[1..];
      if Next(xs, x).Some? { assert xs[0] !in xs[1..]; }
    } else if |xs| > 1 {
      assert xs == [x] + xs[1..];
    }
  }

  lemma RestSorted(xs: seq<Id>, x: Option<Id>, alive: set<Id>, expire: map<Id, nat>)
    requires Known(xs, expire) && Sorted(xs, alive, expire)
    ensures Known(Rest(xs, x), expire) && Sorted(Rest(xs, x), alive, expire)
  {
  }

  lemma RestWithout(xs: seq<Id>, x: Option<Id>, t: Id)
    requires x != Some(t)
    ensures Rest(Without<Id>(xs, t), x) == Without<Id>(Rest(xs, x), t)
  {
    if xs != [] {
      RestWithout(xs[1..], x, t);
      if xs[0] != t {
        assert Without<Id>(xs, t)[1..] == Without<Id>(xs[1..], t);
      }
    }
  }

  lemma RestInsert(xs: seq<Id>, x: Option<Id>, t: Id, alive: set<Id>, expire: map<Id, nat>)
    requires Known(xs, expire) && t in expire && x != Some(t)
    ensures forall u :: u in Rest(xs, x) ==> u in Rest(Insert(xs, t, alive, expire), x)
  {
    if xs != [] && x != None {
      RestInsert(xs[1..], x, t, alive, expire);
      var r := Insert(xs, t, alive, expire);
      if xs[0] in alive && expire[t] <= expire[xs[0]] {
        assert r[1..] == xs;
      } else {
        assert r[1..] == Insert(xs[1..], t, alive, expire);
        if xs[0] == x.value {
          InsertMembers(xs, t, alive, expire);
        }
      }
    }
  }

  lemma RestInsertOnly(xs: seq<Id>, x: Option<Id>, t: Id, alive: set<Id>, expire: map<Id, nat>)
    requires Known(xs, expire) && t in expire && x != Some(t)
    ensures forall u :: u in Rest(Insert(xs, t, alive, expire), x) ==> u == t || u in Rest(xs, x)
  {
    if x == None {
    } else if xs == [] {
      assert Rest([t][1..], x) == [];
    } else {
      RestInsertOnly(xs[1..], x, t, alive, expire);
      var r := Insert(xs, t, alive, expire);
      if xs[0] in alive && expire[t] <= expire[xs[0]] {
        assert r[1..] == xs;
      } else {
        assert r[1..] == Insert(xs[1..], t, alive, expire);
        if xs[0] == x.value { InsertMembers(xs, t, alive, expire); }
      }
    }
  }

  // ----- what the list keeps -----

  /** The list holds every live timer and every timer marked deleted but not
      yet purged; ids below n have been used. */
  ghost predicate Listed(xs: seq<Id>, alive: set<Id>, dead: seq<Id>, expire: map<Id, nat>, n: nat) {
    && Distinct<Id>(xs) && Distinct<Id>(dead)
    && Known(xs, expire) && Sorted(xs, alive, expire)
    && (forall i :: 0 <= i < |xs| ==> xs[i] < n && (xs[i] in alive <==> xs[i] !in dead))
    && (forall u :: u in alive ==> u in xs)
    && (forall i :: 0 <= i < |dead| ==> dead[i] in xs)
  }

  lemma Rearmed(xs: seq<Id>, t: Id, alive: set<Id>, dead: seq<Id>, expire: map<Id, nat>, n: nat, e: nat)
    requires Listed(xs, alive, dead, expire, n) && t in alive
    ensures var w := Without<Id>(xs, t); var x := expire[t := e];
      && Known(w, x) && t !in w
      && Listed(Insert(w, t, alive, x), alive, dead, x, n)
      && forall u :: u in Insert(w, t, alive, x) <==> u in xs
  {
    hide Sorted, Insert, Without;
    var w, x := Without<Id>(xs, t), expire[t := e];
    WithoutSorted(xs, t, alive, expire);
    WithoutMembers<Id>(xs, t);
    WithoutDistinct<Id>(xs, t);
    forall i | 0 <= i < |w| ensures w[i] in x && w[i] != t && x[w[i]] == expire[w[i]] { assert w[i] in w; }
    SortedAgain(w, alive, expire, alive, x);
    InsertSorted(w, t, alive, x);
    InsertMembers(w, t, alive, x);
    InsertDistinct(w, t, alive, x);
    var r := Insert(w, t, alive, x);
    forall i | 0 <= i < |r| ensures r[i] < n && (r[i] in alive <==> r[i] !in dead) {
      assert r[i] in r && r[i] in xs;
    }
  }

  lemma Added(xs: seq<Id>, alive: set<Id>, dead: seq<Id>, expire: map<Id, nat>, n: nat, e: nat)
    requires Listed(xs, alive, dead, expire, n)
    ensures var x := expire[n := e];
      && n !in xs && n !in alive && Known(xs, x)
      && Listed(Insert(xs, n, alive + {n}, x), alive + {n}, dead, x, n + 1)
      && forall u :: u in Insert(xs, n, alive + {n}, x) <==> u == n || u in xs
  {
    hide Sorted, Insert;
    var x := expire[n := e];
    assert n !in xs;
    forall i | 0 <= i < |xs| ensures xs[i] in x && xs[i] != n && x[xs[i]] == expire[xs[i]] { assert xs[i] in xs; }
    assert n !in dead;
    SortedAgain(xs, alive, expire, alive + {n}, x);
    InsertSorted(xs, n, alive + {n}, x);
    InsertMembers(xs, n, alive + {n}, x);
    InsertDistinct(xs, n, alive + {n}, x);
    var r := Insert(xs, n, alive + {n}, x);
    forall i | 0 <= i < |r| ensures r[i] < n + 1 && (r[i] in alive + {n} <==> r[i] !in dead) {
      assert r[i] in r;
    }
  }

  lemma Killed(xs: seq<Id>, t: Id, alive: set<Id>, dead: seq<Id>, expire: map<Id, nat>, n: nat)
    requires Listed(xs, alive, dead, expire, n) && t in alive
    ensures Listed(xs, alive - {t}, dead + [t], expire, n)
  {
    hide Sorted;
    SortedAgain(xs, alive, expire, alive - {t}, expire);
    assert t !in dead;
    DistinctConcat<Id>(dead, [t]);
  }

  lemma Unlinked(xs: seq<Id>, alive: set<Id>, dead: seq<Id>, expire: map<Id, nat>, n: nat)
    requires Listed(xs, alive, dead, expire, n) && dead != []
    ensures Listed(Without<Id>(xs, dead[0]), alive, dead[1..], expire, n)
    ensures FirstLive(Without<Id>(xs, dead[0]), alive) == FirstLive(xs, alive)
  {
    hide Sorted, FirstLive, Without;
    var r := Without<Id>(xs, dead[0]);
    WithoutSorted(xs, dead[0], alive, expire);
    WithoutMembers<Id>(xs, dead[0]);
    WithoutDistinct<Id>(xs, dead[0]);
    FirstLiveWithout(xs, dead[0], alive);
    assert dead == [dead[0]] + dead[1..];
    forall i | 0 <= i < |r| ensures r[i] < n && (r[i] in alive <==> r[i] !in dead[1..]) {
      assert r[i] in r && r[i] in xs && r[i] != dead[0];
    }
  }

  lemma FirstLiveWithout(xs: seq<Id>, t: Id, alive: set<Id>)
    requires t !in alive
    ensures FirstLive(Without<Id>(xs, t), alive) == FirstLive(xs, alive)
  {
    if xs != [] {
      FirstLiveWithout(xs[1..], t, alive);
      if xs[0] != t {
        assert Without<Id>(xs, t)[1..] == Without<Id>(xs[1..], t);
      }
    }
  }

  /** The live timers, in list order. */
  ghost function Survivors(xs: seq<Id>, alive: set<Id>): seq<Id> {
    if xs == [] then [] else (if xs[0] in alive then [xs[0]] else []) + Survivors(xs[1..], alive)
  }

  lemma SurvivorsWithout(xs: seq<Id>, t: Id, alive: set<Id>)
    requires t !in alive
    ensures Survivors(Without<Id>(xs, t), alive) == Survivors(xs, alive)
  {
    if xs != [] {
      SurvivorsWithout(xs[1..], t, alive);
      if xs[0] != t {
        assert Without<Id>(xs, t)[1..] == Without<Id>(xs[1..], t);
      }
    }
  }

  lemma SurvivorsAll(xs: seq<Id>, alive: set<Id>)
    requires forall i :: 0 <= i < |xs| ==> xs[i] in alive
    ensures Survivors(xs, alive) == xs
  {
  }

  // ----- what a run did -----

  /** The callback of t began at `time`, t then having the given interval; it
      returned at `time`; or t was deleted. */
  datatype Event = Started(t: Id, time: nat, interval: nat) | Ended(t: Id, time: nat) | Deleted(t: Id)

  /** A deleted timer never fires again, and the start of a firing lies at
      least the timer's interval after the end of the one before. */
  ghost predicate Spaced(log: seq<Event>) {
    forall i, j :: 0 <= i < j < |log| && log[j].Started? && log[i].t == log[j].t ==>
      !log[i].Deleted? && (log[i].Ended? ==> log[i].time + log[j].interval <= log[j].time)
  }

  /** The callback of t was called no earlier than `from`, and returned. */
  ghost predicate OneTurn(log: seq<Event>, t: Id, interval: nat, from: nat) {
    && |log| >= 2
    && log[0].Started? && log[0].t == t && log[0].interval == interval
    && log[|log| - 1].Ended? && log[|log| - 1].t == t
    && from <= log[0].time <= log[|log| - 1].time
  }

  ghost predicate Logged(log: seq<Event>, alive: set<Id>, armed: map<Id, nat>, n: nat) {
    forall k :: 0 <= k < |log| ==>
      && log[k].t < n
      && (log[k].t in alive ==>
            !log[k].Deleted? && log[k].t in armed && (log[k].Ended? ==> log[k].time <= armed[log[k].t]))
  }

  /** A live timer expires its interval after it was last armed. */
  ghost predicate Timed(alive: set<Id>, msecs: map<Id, nat>, expire: map<Id, nat>, armed: map<Id, nat>, clock: nat) {
    forall u :: u in alive ==>
      u in msecs && u in expire && u in armed && expire[u] == armed[u] + Interval(msecs[u]) && armed[u] <= clock
  }

  lemma LogStart(log: seq<Event>, alive: set<Id>, armed: map<Id, nat>, n: nat, t: Id, time: nat, interval: nat)
    requires Spaced(log) && Logged(log, alive, armed, n) && t in alive && t in armed && t < n
    requires armed[t] + interval <= time
    ensures Spaced(log + [Started(t, time, interval)]) && Logged(log + [Started(t, time, interval)], alive, armed, n)
  {
  }

  /** The timers whose callbacks a run called, in order. */
  ghost function Firings(log: seq<Event>): seq<Id> {
    if log == [] then []
    else Firings(log[..|log| - 1]) + if log[|log| - 1].Started? then [log[|log| - 1].t] else []
  }

  lemma FiringsAppend(log: seq<Event>, e: Event)
    ensures Firings(log + [e]) == Firings(log) + if e.Started? then [e.t] else []
  {
    assert (log + [e])[..|log|] == log;
  }

  lemma ArmedAt(log: seq<Event>, t: Id, alive: set<Id>, msecs: map<Id, nat>, expire: map<Id, nat>,
                armed: map<Id, nat>, clock: nat, now: nat, n: nat)
    requires Logged(log, alive, armed, n) && Timed(alive - {t}, msecs, expire, armed, clock)
    requires t in msecs && t in armed && armed[t] <= clock <= now
    ensures Logged(log, alive, armed[t := now], n)
    ensures Timed(alive, msecs, expire[t := now + Interval(msecs[t])], armed[t := now], now)
  {
  }

  lemma BornAt(log: seq<Event>, alive: set<Id>, msecs: map<Id, nat>, expire: map<Id, nat>, armed: map<Id, nat>,
               clock: nat, now: nat, n: nat, ms: nat)
    requires Logged(log, alive, armed, n) && Timed(alive, msecs, expire, armed, clock) && clock <= now && n !in alive
    ensures Logged(log, alive + {n}, armed[n := now], n + 1)
    ensures Timed(alive + {n}, msecs[n := ms], expire[n := now + Interval(ms)], armed[n := now], now)
  {
  }

  // ----- the steps of the insertion walk -----

  lemma InsertBegin(xs: seq<Id>, t: Id, alive: set<Id>, expire: map<Id, nat>)
    requires Known(xs, expire) && t in expire
    ensures Known(xs[0..], expire) && FirstLive(xs[..0], alive) == None
    ensures Insert(xs, t, alive, expire) == xs[..0] + Insert(xs[0..], t, alive, expire)
  {
    assert xs[0..] == xs;
  }

  lemma KnownAt(xs: seq<Id>, k: nat, expire: map<Id, nat>)
    requires k < |xs| && Known(xs[k..], expire)
    ensures xs[k] in expire && Known(xs[k + 1..], expire)
  {
    assert xs[k] == xs[k..][0];
    assert xs[k..][1..] == xs[k + 1..];
  }

  lemma {:induction false} InsertSkip(xs: seq<Id>, k: nat, t: Id, alive: set<Id>, expire: map<Id, nat>)
    requires k < |xs| && t in expire && Known(xs[k..], expire) && Known(xs[k + 1..], expire) && Known(xs, expire)
    requires !(xs[k] in alive && expire[t] <= expire[xs[k]])
    requires Insert(xs, t, alive, expire) == xs[..k] + Insert(xs[k..], t, alive, expire)
    ensures Insert(xs, t, alive, expire) == xs[..k + 1] + Insert(xs[k + 1..], t, alive, expire)
    ensures FirstLive(xs[..k + 1], alive) ==
      if FirstLive(xs[..k], alive).Some? || xs[k] !in alive then FirstLive(xs[..k], alive) else Some(xs[k])
  {
    hide Insert;
    InsertPast(xs[k..], t, alive, expire);
    assert xs[..k + 1] == xs[..k] + [xs[k]] && xs[k..][1..] == xs[k + 1..];
    FirstLiveConcat(xs[..k], [xs[k]], alive);
    assert FirstLive([xs[k]][1..], alive) == None;
  }

  lemma {:induction false} InsertPast(xs: seq<Id>, t: Id, alive: set<Id>, expire: map<Id, nat>)
    requires xs != [] && t in expire && Known(xs, expire) && Known(xs[1..], expire)
    requires !(xs[0] in alive && expire[t] <= expire[xs[0]])
    ensures Insert(xs, t, alive, expire) == [xs[0]] + Insert(xs[1..], t, alive, expire)
  {
  }

  lemma InsertStop(xs: seq<Id>, k: nat, t: Id, alive: set<Id>, expire: map<Id, nat>)
    requires k <= |xs| && t in expire && t in alive && Known(xs[k..], expire) && Known(xs, expire)
    requires k < |xs| ==> xs[k] in alive && expire[t] <= expire[xs[k]]
    requires Insert(xs, t, alive, expire) == xs[..k] + Insert(xs[k..], t, alive, expire)
    ensures xs[..k] + [t] + xs[k..] == Insert(xs, t, alive, expire)
    ensures FirstLive(xs[..k] + [t] + xs[k..], alive) == if FirstLive(xs[..k], alive).Some?
      then FirstLive(xs[..k], alive) else Some(t)
  {
    assert xs[..k] + [t] + xs[k..] == xs[..k] + ([t] + xs[k..]);
    FirstLiveConcat(xs[..k], [t] + xs[k..], alive);
    if k < |xs| {
      assert xs[k] == xs[k..][0];
    }
  }

  /** What a timer callback may do: add a timer, delete one, restart one
      (RESTART keeps the interval), quit the main loop. */
  datatype Action = Add(msecs: nat) | Del(t: Id) | Mod(t: Id, msecs: nat) | Quit

  const RESTART: nat := 0xFFFF_FFFF

  /** Intervals that do not come out as 0. */
  ghost predicate Lasting(acts: seq<Action>) {
    forall i :: 0 <= i < |acts| ==> match acts[i] {
      case Add(m) => Interval(m) > 0
      case Mod(_, m) => m == RESTART || Interval(m) > 0
      case _ => true
    }
  }

  ghost predicate AllLast(alive: set<Id>, msecs: map<Id, nat>) {
    forall u :: u in alive ==> u in msecs && Interval(msecs[u]) > 0
  }

  ghost predicate AllLasting(script: Id -> seq<Action>) { forall t :: Lasting(script(t)) }

  lemma LastingOf(script: Id -> seq<Action>, t: Id)
    requires AllLasting(script)
    ensures Lasting(script(t))
  {
  }

  lemma LastingOne(acts: seq<Action>, i: nat)
    requires Lasting(acts) && i < |acts|
    ensures Lasting([acts[i]])
  {
  }

  /** The callback deletes or restarts u. */
  ghost predicate Asked(acts: seq<Action>, u: Id) {
    exists i :: 0 <= i < |acts| && (acts[i].Del? || acts[i].Mod?) && acts[i].t == u
  }

  /** The callback restarts u, not having deleted it before. */
  ghost predicate Derails(acts: seq<Action>, u: Id) {
    exists i :: 0 <= i < |acts| && acts[i].Mod? && acts[i].t == u && Del(u) !in acts[..i]
  }

  lemma AskedMore(acts: seq<Action>, i: nat, u: Id)
    requires i < |acts|
    ensures Derails(acts[..i + 1], u) <==>
      Derails(acts[..i], u) || (acts[i].Mod? && acts[i].t == u && Del(u) !in acts[..i])
    ensures Asked(acts[..i + 1], u) <==> Asked(acts[..i], u) || ((acts[i].Del? || acts[i].Mod?) && acts[i].t == u)
    ensures Del(u) in acts[..i + 1] <==> Del(u) in acts[..i] || acts[i] == Del(u)
  {
    var b, c := acts[..i], acts[..i + 1];
    assert c == b + [acts[i]];
    assert forall k :: 0 <= k <= i ==> c[..k] == acts[..k];
    assert forall k :: 0 <= k <= i ==> b[..k] == acts[..k];
    if Derails(b, u) {
      var k :| 0 <= k < |b| && b[k].Mod? && b[k].t == u && Del(u) !in b[..k];
      assert c[k] == b[k];
    }
    if acts[i].Mod? && acts[i].t == u && Del(u) !in b { assert c[i] == acts[i]; }
    if Asked(b, u) {
      var k :| 0 <= k < |b| && (b[k].Del? || b[k].Mod?) && b[k].t == u;
      assert c[k] == b[k];
    }
    if (acts[i].Del? || acts[i].Mod?) && acts[i].t == u { assert c[i] == acts[i]; }
  }

  // ----- what callbacks and firings leave behind -----

  /** The timers at some moment, and the clock. */
  datatype Mark = Mark(
    list: seq<Id>, alive: set<Id>, msecs: map<Id, nat>, expire: map<Id, nat>, count: nat, clock: nat, reading: nat)

  ghost predicate MarkOk(m: Mark) {
    && Distinct<Id>(m.list) && Known(m.list, m.expire) && Sorted(m.list, m.alive, m.expire)
    && forall u :: u in m.alive ==> u in m.list
  }

  /** The time between a reading of the clock and the one before. */
  function Wait(ticks: nat -> nat, reading: nat): nat { ticks(reading) }

  /** Reading the clock. */
  function Timely(m: Mark, ticks: nat -> nat): Mark {
    m.(clock := m.clock + Wait(ticks, m.reading), reading := m.reading + 1)
  }

  /** Arming t, from a new reading of the clock. */
  ghost function Arms(m: Mark, t: Id, ticks: nat -> nat): Mark {
    var r := Timely(m, ticks);
    if t !in m.msecs then r
    else
      var expire, rest := m.expire[t := r.clock + Interval(m.msecs[t])], Without<Id>(m.list, t);
      if Known(rest, expire) then r.(list := Insert(rest, t, m.alive, expire), expire := expire) else r
  }

  ghost function Does(m: Mark, a: Action, ticks: nat -> nat): Mark {
    match a
    case Add(ms) =>
      Arms(m.(alive := m.alive + {m.count}, msecs := m.msecs[m.count := ms], count := m.count + 1), m.count, ticks)
    case Del(d) => m.(alive := m.alive - {d})
    case Mod(u, ms) =>
      if u !in m.alive then m
      else Arms(if ms == RESTART then m else m.(msecs := m.msecs[u := ms]), u, ticks)
    case Quit => m
  }

  ghost function DoesAll(m: Mark, acts: seq<Action>, ticks: nat -> nat): Mark {
    if acts == [] then m else Does(DoesAll(m, acts[..|acts| - 1], ticks), acts[|acts| - 1], ticks)
  }

  /** A firing of t: the callback, with the clock read before and after it, and
      then t armed again unless it was deleted. */
  ghost function Fires(m: Mark, t: Id, acts: seq<Action>, ticks: nat -> nat): Mark {
    var end := Timely(DoesAll(Timely(m, ticks), acts, ticks), ticks);
    if t in end.alive then Arms(end, t, ticks) else end
  }

  lemma DoesNone(m: Mark, ticks: nat -> nat)
    ensures DoesAll(m, [], ticks) == m
  {
  }

  lemma DoesMore(m: Mark, acts: seq<Action>, i: nat, ticks: nat -> nat)
    requires i < |acts|
    ensures DoesAll(m, acts[..i + 1], ticks) == Does(DoesAll(m, acts[..i], ticks), acts[i], ticks)
  {
    hide Does;
    assert acts[..i + 1][..i] == acts[..i];
  }

  lemma ArmsIs(m: Mark, t: Id, m': Mark, ticks: nat -> nat)
    requires t in m.msecs && m'.clock == m.clock + Wait(ticks, m.reading) && m'.reading == m.reading + 1
    requires m'.expire == m.expire[t := m'.clock + Interval(m.msecs[t])]
    requires var w := Without<Id>(m.list, t); Known(w, m'.expire) && m'.list == Insert(w, t, m.alive, m'.expire)
    requires m'.alive == m.alive && m'.msecs == m.msecs && m'.count == m.count
    ensures m' == Arms(m, t, ticks)
  {
    hide Known, Insert, Without, Interval, Wait;
  }

  lemma AddIs(m: Mark, ms: nat, m': Mark, ticks: nat -> nat)
    requires m.count !in m.list && m'.clock == m.clock + Wait(ticks, m.reading) && m'.reading == m.reading + 1
    requires m'.count == m.count + 1 && m'.alive == m.alive + {m.count} && m'.msecs == m.msecs[m.count := ms]
    requires m'.expire == m.expire[m.count := m'.clock + Interval(ms)]
    requires Known(m.list, m'.expire) && m'.list == Insert(m.list, m.count, m'.alive, m'.expire)
    ensures m' == Does(m, Add(ms), ticks)
  {
    hide Known, Insert, Without, Interval, Arms, Wait;
    WithoutAbsent<Id>(m.list, m.count);
    ArmsIs(m.(alive := m'.alive, msecs := m'.msecs, count := m'.count), m.count, m', ticks);
  }

  lemma ModIs(m: Mark, u: Id, ms: nat, m': Mark, ticks: nat -> nat)
    requires u in m.alive && u in m.msecs && m'.clock == m.clock + Wait(ticks, m.reading) && m'.reading == m.reading + 1
    requires m'.count == m.count && m'.alive == m.alive
    requires m'.msecs == m.msecs[u := if ms == RESTART then m.msecs[u] else ms]
    requires m'.expire == m.expire[u := m'.clock + Interval(m'.msecs[u])]
    requires var w := Without<Id>(m.list, u); Known(w, m'.expire) && m'.list == Insert(w, u, m.alive, m'.expire)
    ensures m' == Does(m, Mod(u, ms), ticks)
  {
    hide Known, Insert, Without, Interval, Arms, Wait;
    assert m.msecs[u := m.msecs[u]] == m.msecs;
    ArmsIs(m.(msecs := m'.msecs), u, m', ticks);
  }

  // ----- in plain terms -----

  ghost predicate Fit(m: Mark) {
    && Distinct<Id>(m.list) && Known(m.list, m.expire) && (forall i :: 0 <= i < |m.list| ==> m.list[i] < m.count)
    && forall u :: u in m.alive ==> u in m.list && u in m.msecs
  }

  /** t stands in front of the first live timer due no earlier, the others as
      before. */
  ghost predicate InPlace(rest: seq<Id>, t: Id, list: seq<Id>, alive: set<Id>, expire: map<Id, nat>, k: int) {
    && 0 <= k <= |rest| && list == rest[..k] + [t] + rest[k..] && t in expire
    && (forall i :: 0 <= i < k && rest[i] in alive ==> rest[i] in expire && expire[rest[i]] < expire[t])
    && (k < |rest| ==> rest[k] in alive && rest[k] in expire && expire[t] <= expire[rest[k]])
  }

  /** t is armed at a new reading of the clock, and nothing else. */
  ghost predicate Armed(m: Mark, t: Id, m': Mark, ticks: nat -> nat) {
    && t in m.msecs && m' == m.(clock := m.clock + ticks(m.reading), reading := m.reading + 1,
                                expire := m.expire[t := m'.clock + m.msecs[t] * 1000 % 0x1_0000_0000], list := m'.list)
    && exists k :: InPlace(Without<Id>(m.list, t), t, m'.list, m.alive, m'.expire, k)
  }

  /** The action has been carried out, and nothing else. */
  ghost predicate Carried(m: Mark, a: Action, m': Mark, ticks: nat -> nat) {
    match a
    case Add(ms) =>
      var t := m.count;
      Armed(m.(alive := m.alive + {t}, msecs := m.msecs[t := ms], count := t + 1), t, m', ticks)
    case Del(d) => m' == m.(alive := m.alive - {d})
    case Mod(u, ms) =>
      if u !in m.alive then m' == m
      else if ms == RESTART then Armed(m, u, m', ticks)
      else Armed(m.(msecs := m.msecs[u := ms]), u, m', ticks)
    case Quit => m' == m
  }

  lemma {:induction false} InsertPlace(xs: seq<Id>, t: Id, alive: set<Id>, expire: map<Id, nat>) returns (k: nat)
    requires Known(xs, expire) && t in expire
    ensures InPlace(xs, t, Insert(xs, t, alive, expire), alive, expire, k)
  {
    if xs == [] {
      k := 0;
    } else if xs[0] in alive && expire[t] <= expire[xs[0]] {
      k := 0;
    } else {
      k := InsertPlace(xs[1..], t, alive, expire);
      var r := Insert(xs[1..], t, alive, expire);
      assert [xs[0]] + r == xs[..k + 1] + [t] + xs[k + 1..];
      k := k + 1;
    }
  }

  lemma {:induction false} ArmsArmed(m: Mark, t: Id, ticks: nat -> nat)
    requires Distinct<Id>(m.list) && Known(m.list, m.expire) && t in m.msecs && t < m.count
    requires forall i :: 0 <= i < |m.list| ==> m.list[i] < m.count
    requires forall u :: u in m.alive ==> (u in m.list || u == t) && u in m.msecs
    ensures var m' := Arms(m, t, ticks); Armed(m, t, m', ticks) && Fit(m')
  {
    hide Without, Insert, Known, Distinct;
    var r := Timely(m, ticks);
    ListArmed(m.list, t, m.alive, m.expire, m.expire[t := r.clock + Interval(m.msecs[t])], m.count);
  }

  lemma ListArmed(xs: seq<Id>, t: Id, alive: set<Id>, expire: map<Id, nat>, expire': map<Id, nat>, n: nat)
    requires Distinct<Id>(xs) && Known(xs, expire) && t < n && forall i :: 0 <= i < |xs| ==> xs[i] < n
    requires t in expire' && forall u :: u in expire ==> u in expire'
    ensures var rest := Without<Id>(xs, t);
      && Known(rest, expire')
      && var list := Insert(rest, t, alive, expire');
      && Distinct<Id>(list) && Known(list, expire') && (forall i :: 0 <= i < |list| ==> list[i] < n)
      && (forall u :: u in xs || u == t ==> u in list)
      && exists k :: InPlace(rest, t, list, alive, expire', k)
  {
    hide Without, Insert, InPlace, Distinct;
    var rest := Without<Id>(xs, t);
    WithoutMembers<Id>(xs, t);
    WithoutDistinct<Id>(xs, t);
    forall i | 0 <= i < |rest| ensures rest[i] in xs { assert rest[i] in rest; }
    var k := InsertPlace(rest, t, alive, expire');
    InsertDistinct(rest, t, alive, expire');
    InsertMembers(rest, t, alive, expire');
    var list := Insert(rest, t, alive, expire');
    forall i | 0 <= i < |list| ensures list[i] in expire' && list[i] < n { assert list[i] in list; }
  }

  lemma DoesCarried(m: Mark, a: Action, ticks: nat -> nat)
    requires Fit(m)
    ensures Carried(m, a, Does(m, a, ticks), ticks) && Fit(Does(m, a, ticks))
  {
    hide Arms, Armed;
    match a
    case Add(ms) =>
      var t := m.count;
      ArmsArmed(m.(alive := m.alive + {t}, msecs := m.msecs[t := ms], count := t + 1), t, ticks);
    case Mod(u, ms) =>
      if u in m.alive {
        assert u < m.count by { var i :| 0 <= i < |m.list| && m.list[i] == u; }
        ArmsArmed(if ms == RESTART then m else m.(msecs := m.msecs[u := ms]), u, ticks);
      }
    case _ =>
  }

  /** A callback carries out its actions one after the other. */
  lemma {:induction false} ActsCarried(m: Mark, acts: seq<Action>, ticks: nat -> nat) returns (ms: seq<Mark>)
    requires Fit(m)
    ensures |ms| == |acts| + 1 && ms[0] == m && ms[|acts|] == DoesAll(m, acts, ticks) && Fit(ms[|acts|])
    ensures forall k :: 0 <= k < |acts| ==> Carried(ms[k], acts[k], ms[k + 1], ticks)
  {
    hide Carried, Does, Fit;
    if acts == [] {
      ms := [m];
    } else {
      var n := |acts| - 1;
      ms := ActsCarried(m, acts[..n], ticks);
      DoesCarried(ms[n], acts[n], ticks);
      forall k | 0 <= k < n ensures Carried(ms[k], acts[k], ms[k + 1], ticks) { assert acts[..n][k] == acts[k]; }
      ms := ms + [DoesAll(m, acts, ticks)];
    }
  }

  /** A firing is two readings of the clock with the callback's actions in between,
      and t armed again, from one more reading, unless it was deleted. */
  lemma {:induction false} FiresAsTold(m: Mark, t: Id, acts: seq<Action>, ticks: nat -> nat)
    returns (ms: seq<Mark>, end: Mark)
    requires Fit(m)
    ensures |ms| == |acts| + 1 && ms[0] == m.(clock := m.clock + ticks(m.reading), reading := m.reading + 1)
    ensures forall k :: 0 <= k < |acts| ==> Carried(ms[k], acts[k], ms[k + 1], ticks)
    ensures var m' := ms[|acts|]; end == m'.(clock := m'.clock + ticks(m'.reading), reading := m'.reading + 1)
    ensures if t in end.alive then Armed(end, t, Fires(m, t, acts, ticks), ticks) else Fires(m, t, acts, ticks) == end
    ensures Fit(Fires(m, t, acts, ticks))
  {
    hide Carried, Arms, Armed, DoesAll;
    ms := ActsCarried(Timely(m, ticks), acts, ticks);
    end := Timely(ms[|acts|], ticks);
    if t in end.alive {
      assert t < end.count by { var i :| 0 <= i < |end.list| && end.list[i] == t; }
      ArmsArmed(end, t, ticks);
    }
  }

  /** The marks of a round that begins with a fit one are fit. */
  lemma {:induction false} CourseFit(marks: seq<Mark>, fired: seq<Id>, script: Id -> seq<Action>, ticks: nat -> nat,
                                     now: nat, i: nat)
    requires Course(marks, fired, script, ticks, now) && Fit(marks[0]) && i <= |fired|
    ensures Fit(marks[i])
  {
    hide Fit, MarkOk, Fires, Chosen;
    if i > 0 {
      CourseFit(marks, fired, script, ticks, now, i - 1);
      assert Firing(marks[i - 1], From(marks, fired, i - 1), fired[i - 1], script(fired[i - 1]), ticks, now, marks[i]);
      var ms, end := FiresAsTold(marks[i - 1], fired[i - 1], script(fired[i - 1]), ticks);
    }
  }

  // ----- the course of one round -----

  /** The first live timer of the list from p on. */
  ghost function Chosen(m: Mark, p: Option<Id>): Option<Id> { FirstLive(Rest(m.list, p), m.alive) }

  /** Where the walk goes on after i firings: behind the timer fired last, on the
      list as it was before that. */
  ghost function From(marks: seq<Mark>, fired: seq<Id>, i: nat): Option<Id>
    requires i <= |fired| < |marks|
  {
    if i > 0 then Next(marks[i - 1].list, fired[i - 1])
    else if marks[0].list == [] then None
    else Some(marks[0].list[0])
  }

  /** The timer fired from p is the first live one, it is due, and the next mark is
      what its firing leaves. */
  ghost predicate Firing(m: Mark, p: Option<Id>, t: Id, acts: seq<Action>, ticks: nat -> nat, now: nat, m': Mark) {
    && t in m.list && t in m.expire && m.expire[t] <= now
    && Chosen(m, p) == Some(t) && m' == Fires(m, t, acts, ticks)
  }

  /** Firing after firing, each from where the walk goes on. */
  ghost predicate Course(marks: seq<Mark>, fired: seq<Id>, script: Id -> seq<Action>, ticks: nat -> nat, now: nat) {
    && |marks| == |fired| + 1
    && (forall i :: 0 <= i <= |fired| ==> MarkOk(marks[i]))
    && (forall i :: 0 <= i < |fired| ==>
          Firing(marks[i], From(marks, fired, i), fired[i], script(fired[i]), ticks, now, marks[i + 1]))
  }

  /** From p on there is no live timer, or the first one is not due. */
  ghost predicate NoneDue(m: Mark, p: Option<Id>, now: nat) {
    var c := Chosen(m, p);
    c.Some? ==> c.value in m.expire && m.expire[c.value] > now
  }

  /** The callback of t restarts the timer that the walk has saved: the one behind
      t, if that is alive. */
  ghost predicate Misled(m: Mark, t: Id, script: Id -> seq<Action>) {
    var n := Next(m.list, t);
    n.Some? && n.value in m.alive && Derails(script(t), n.value)
  }

  /** The walk is off course exactly if the last timer fired has misled it. */
  ghost predicate Marked(marks: seq<Mark>, fired: seq<Id>, off: bool, script: Id -> seq<Action>)
    requires |marks| > |fired|
  {
    && (forall i :: 0 <= i < |fired| - 1 ==> !Misled(marks[i], fired[i], script))
    && (off <==> fired != [] && Misled(marks[|fired| - 1], fired[|fired| - 1], script))
  }

  /** In the middle of a round, about to visit p: here is what the timers are. */
  ghost predicate Tracked(marks: seq<Mark>, fired: seq<Id>, p: Option<Id>, off: bool, script: Id -> seq<Action>,
                          ticks: nat -> nat, now: nat, here: Mark)
  {
    && Course(marks, fired, script, ticks, now) && Marked(marks, fired, off, script)
    && marks[|fired|] == here && Chosen(here, p) == Chosen(here, From(marks, fired, |fired|))
  }

  lemma TrackStart(m: Mark, script: Id -> seq<Action>, ticks: nat -> nat, now: nat)
    requires MarkOk(m)
    ensures Tracked([m], [], if m.list == [] then None else Some(m.list[0]), false, script, ticks, now, m)
  {
  }

  /** A walk that stands at a live timer chooses it; at a dead one, as behind it. */
  lemma ChosenAt(m: Mark, t: Id)
    requires MarkOk(m) && t in m.list
    ensures Chosen(m, Some(t)) == if t in m.alive then Some(t) else Chosen(m, Next(m.list, t))
    ensures Chosen(m, None) == None
  {
    hide Next;
    RestFacts(m.list, t);
    var r := Rest(m.list, Some(t));
    assert r[1..] == Rest(m.list, Next(m.list, t));
  }

  lemma TrackSkip(marks: seq<Mark>, fired: seq<Id>, t: Id, off: bool, script: Id -> seq<Action>,
                  ticks: nat -> nat, now: nat, here: Mark)
    requires Tracked(marks, fired, Some(t), off, script, ticks, now, here) && t in here.list && t !in here.alive
    ensures Tracked(marks, fired, Next(here.list, t), off, script, ticks, now, here)
  {
    hide MarkOk, Chosen, Fires, From, Misled, Next;
    ChosenAt(here, t);
  }

  lemma TrackFire(marks: seq<Mark>, fired: seq<Id>, t: Id, off: bool, script: Id -> seq<Action>,
                  ticks: nat -> nat, now: nat, here: Mark, here': Mark)
    requires Tracked(marks, fired, Some(t), false, script, ticks, now, here)
    requires t in here.list && t in here.alive && t in here.expire && here.expire[t] <= now
    requires here' == Fires(here, t, script(t), ticks) && MarkOk(here')
    requires off <==> var n := Next(here.list, t); n.Some? && n.value in here.alive && Derails(script(t), n.value)
    ensures Tracked(marks + [here'], fired + [t], Next(here.list, t), off, script, ticks, now, here')
  {
    assert off <==> Misled(here, t, script) by { hide Next, Derails; }
    assert MarkOk(here);
    ChosenAt(here, t);
    hide MarkOk, Chosen, Fires, Misled, Next;
    CourseOn(marks, fired, t, script, ticks, now, here');
    MarkedOn(marks, fired, t, off, script, here');
    hide Course, Marked;
    assert From(marks + [here'], fired + [t], |fired| + 1) == Next(here.list, t);
  }

  lemma CourseOn(marks: seq<Mark>, fired: seq<Id>, t: Id, script: Id -> seq<Action>, ticks: nat -> nat, now: nat,
                 here': Mark)
    requires Course(marks, fired, script, ticks, now) && MarkOk(here')
    requires Firing(marks[|fired|], From(marks, fired, |fired|), t, script(t), ticks, now, here')
    ensures Course(marks + [here'], fired + [t], script, ticks, now)
  {
    hide MarkOk, Firing, From;
    var ms, fs := marks + [here'], fired + [t];
    forall i | 0 <= i < |fs|
      ensures Firing(ms[i], From(ms, fs, i), fs[i], script(fs[i]), ticks, now, ms[i + 1])
    {
      FromSame(marks, fired, t, here', i);
      assert ms[i] == marks[i];
    }
  }

  lemma FromSame(marks: seq<Mark>, fired: seq<Id>, t: Id, here': Mark, i: nat)
    requires |marks| == |fired| + 1 && i <= |fired|
    ensures From(marks + [here'], fired + [t], i) == From(marks, fired, i)
  {
    hide Next;
  }

  lemma MarkedOn(marks: seq<Mark>, fired: seq<Id>, t: Id, off: bool, script: Id -> seq<Action>, here': Mark)
    requires |marks| == |fired| + 1 && Marked(marks, fired, false, script)
    requires off <==> Misled(marks[|fired|], t, script)
    ensures Marked(marks + [here'], fired + [t], off, script)
  {
    hide Misled;
  }

  /** Callbacks that quit do so last; a main loop that has been quit fires once. */
  ghost predicate Prompt(fired: seq<Id>, script: Id -> seq<Action>, quit0: bool) {
    && (quit0 ==> |fired| <= 1)
    && forall i :: 0 <= i < |fired| - 1 ==> Quit !in script(fired[i])
  }

  lemma PromptOn(fired: seq<Id>, t: Id, script: Id -> seq<Action>, quit0: bool)
    requires Prompt(fired, script, quit0) && (fired != [] ==> !quit0 && !Quits(fired, script))
    ensures Prompt(fired + [t], script, quit0)
  {
  }

  lemma NotYet(script: Id -> seq<Action>, quit0: bool)
    ensures Prompt([], script, quit0) && !Quits([], script)
  {
  }

  // ----- callbacks that mind their own business -----

  /** The callback of t restarts no timer but t, and does not quit. */
  ghost predicate Selfish(acts: seq<Action>, t: Id) {
    forall i :: 0 <= i < |acts| ==> !acts[i].Quit? && (acts[i].Mod? ==> acts[i].t == t)
  }

  /** Then the walk stays on course to the end, and whatever was due at the start
      has fired, or was deleted by a timer that fired before its turn. */
  lemma OwnBusiness(marks: seq<Mark>, fired: seq<Id>, off: bool, script: Id -> seq<Action>, ticks: nat -> nat,
                    now: nat, due0: set<Id>)
    requires Course(marks, fired, script, ticks, now) && Marked(marks, fired, off, script)
    requires Accounted(fired, due0, {}, script) || off || Quits(fired, script)
    requires forall t :: Selfish(script(t), t)
    ensures !off && !Quits(fired, script)
    ensures forall u :: u in due0 ==> u in fired || exists i :: 0 <= i < |fired| && Del(u) in script(fired[i])
  {
    hide Fires, Chosen, MarkOk, Misled;
    forall i | 0 <= i < |fired| ensures !Misled(marks[i], fired[i], script) && Quit !in script(fired[i]) {
      assert MarkOk(marks[i]) && Selfish(script(fired[i]), fired[i]);
      assert Firing(marks[i], From(marks, fired, i), fired[i], script(fired[i]), ticks, now, marks[i + 1]);
      NotMisled(marks[i], fired[i], script);
    }
    forall u | u in due0 && u !in fired ensures exists i :: 0 <= i < |fired| && Del(u) in script(fired[i]) {
      var i :| 0 <= i < |fired| && Asked(script(fired[i]), u);
      var t := fired[i];
      var j :| 0 <= j < |script(t)| && (script(t)[j].Del? || script(t)[j].Mod?) && script(t)[j].t == u;
      assert Selfish(script(t), t) && u != t;
      assert script(t)[j] == Del(u);
    }
  }

  lemma NotMisled(m: Mark, t: Id, script: Id -> seq<Action>)
    requires MarkOk(m) && t in m.list && Selfish(script(t), t)
    ensures !Misled(m, t, script) && Quit !in script(t)
  {
    RestFacts(m.list, t);
  }

  /** mainloop.c: the timers of a main loop. */
  class TimerList {
    var timers: seq<Id>          // hooked, first due first
    var next: Option<Id>         // next_timer
    var alive: set<Id>           // those with a callback
    var deleted: seq<Id>         // marked, waiting for the purge
    var msecs: map<Id, nat>
    var expire: map<Id, nat>
    var count: nat               // timers created so far
    var clock: nat               // the last reading of the clock
    var reading: nat
    var quit: bool
    const ticks: nat -> nat      // time between successive readings

    ghost var armed: map<Id, nat>  // the reading each timer was last armed at
    ghost var log: seq<Event>

    ghost predicate Valid() reads this {
      && Listed(timers, alive, deleted, expire, count)
      && next == FirstLive(timers, alive)
      && Timed(alive, msecs, expire, armed, clock)
      && Spaced(log) && Logged(log, alive, armed, count)
    }

    ghost function Here(): Mark reads this { Mark(timers, alive, msecs, expire, count, clock, reading) }

    /** The clock advances between any two readings. */
    ghost predicate Strict() { forall k: nat :: ticks(k) > 0 }

    /** A timer that is armed anew is due later than now. */
    ghost predicate Positive() reads this {
      Strict() || AllLast(alive, msecs)
    }

    constructor (ticks: nat -> nat)
      ensures Valid() && Positive() && timers == [] && log == []
    {
      timers, next, alive, deleted, msecs, expire, count := [], None, {}, [], map[], map[], 0;
      clock, reading, armed, log, quit := 0, 0, map[], [], false;
      this.ticks := ticks;
    }

    lemma HereFit()
      requires Valid()
      ensures Fit(Here()) && Fit(Timely(Here(), ticks))
    {
      hide Sorted, FirstLive, Spaced, Logged;
    }

    /** time_now: the clock never runs backwards. */
    method Now() returns (now: nat)
      modifies this`clock, this`reading
      ensures now == clock >= old(clock) && (Strict() ==> clock > old(clock))
      ensures Here() == Timely(old(Here()), ticks)
      ensures old(Timed(alive, msecs, expire, armed, clock)) ==> Timed(alive, msecs, expire, armed, clock)
    {
      clock := clock + ticks(reading);
      reading := reading + 1;
      now := clock;
    }

    /** insert_timer: a walk that also learns the first live timer. */
    method InsertTimer(t: Id)
      requires Known(timers, expire) && t in expire && t in alive && t !in timers
      modifies this`timers, this`next
      ensures timers == Insert(old(timers), t, alive, expire)
      ensures next == FirstLive(timers, alive)
    {
      hide Insert, FirstLive, Known;
      var k, first, inserted := 0, None, false;
      ghost var xs := timers;
      InsertBegin(xs, t, alive, expire);
      while k < |timers| && !inserted
        invariant 0 <= k <= |xs| && Known(xs[k..], expire)
        invariant first == FirstLive(xs[..k], alive)
        invariant Insert(xs, t, alive, expire) == xs[..k] + Insert(xs[k..], t, alive, expire)
        invariant inserted ==> k < |xs| && xs[k] in alive && expire[t] <= expire[xs[k]]
        decreases |xs| - k, !inserted
        modifies {}
      {
        var t1 := timers[k];
        KnownAt(xs, k, expire);
        if t1 in alive && expire[t] <= expire[t1] {
          inserted := true;
        } else {
          InsertSkip(xs, k, t, alive, expire);
          if t1 in alive && first == None { first := Some(t1); }
          k := k + 1;
        }
      }
      InsertStop(xs, k, t, alive, expire);
      timers := timers[..k] + [t] + timers[k..];
      next := if first.Some? then first else Some(t);
    }

    /** rearm_timer: t's next expiry is its interval from now. */
    method RearmTimer(t: Id)
      requires Listed(timers, alive, deleted, expire, count) && Spaced(log) && Logged(log, alive, armed, count)
      requires Timed(alive - {t}, msecs, expire, armed, clock) && t in alive && t in msecs && t in armed
      requires armed[t] <= clock
      modifies this`timers, this`next, this`expire, this`armed, this`clock, this`reading
      ensures Valid()
      ensures clock >= old(clock) && (Strict() ==> clock > old(clock)) && armed == old(armed)[t := clock]
      ensures clock == old(clock) + Wait(ticks, old(reading)) && reading == old(reading) + 1
      ensures expire == old(expire)[t := clock + Interval(msecs[t])]
      ensures var w := Without<Id>(old(timers), t); Known(w, expire) && timers == Insert(w, t, alive, expire)
    {
      hide TimerList.Strict, Wait, Listed, Insert, FirstLive, Spaced, Known, Logged, Timed, Interval, Without;
      var now := Now();
      Rearmed(timers, t, alive, deleted, expire, count, now + Interval(msecs[t]));
      ArmedAt(log, t, alive, msecs, expire, armed, old(clock), now, count);
      timers := Without<Id>(timers, t);
      expire := expire[t := now + Interval(msecs[t])];
      armed := armed[t := now];
      InsertTimer(t);
    }

    /** iot_add_timer: none without a callback or memory. */
    method AddTimer(ms: nat, ok: bool) returns (t: Option<Id>)
      requires Valid()
      modifies this`timers, this`next, this`alive, this`msecs, this`expire, this`count, this`armed, this`clock,
        this`reading
      ensures Valid() && t == if ok then Some(old(count)) else None
      ensures clock >= old(clock)
      ensures t.None? ==>
        && timers == old(timers) && alive == old(alive) && msecs == old(msecs)
        && expire == old(expire) && count == old(count)
      ensures t.Some? ==>
        && (Strict() ==> clock > old(clock))
        && clock == old(clock) + Wait(ticks, old(reading)) && reading == old(reading) + 1
        && count == old(count) + 1 && alive == old(alive) + {t.value}
        && msecs == old(msecs)[t.value := ms] && expire == old(expire)[t.value := clock + Interval(ms)]
        && Known(old(timers), expire) && timers == Insert(old(timers), t.value, alive, expire)
    {
      hide TimerList.Strict, Wait, Listed, Insert, FirstLive, Spaced, Known, Logged, Timed, Interval, Without;
      if !ok { return None; }
      var now := Now();
      Added(timers, alive, deleted, expire, count, now + Interval(ms));
      BornAt(log, alive, msecs, expire, armed, old(clock), now, count, ms);
      var id := count;
      alive, msecs, count := alive + {id}, msecs[id := ms], count + 1;
      expire := expire[id := now + Interval(ms)];
      armed := armed[id := now];
      InsertTimer(id);
      return Some(id);
    }

    /** iot_mod_timer: nothing happens to a deleted timer. */
    method ModTimer(t: Id, ms: nat)
      requires Valid()
      modifies this`timers, this`next, this`msecs, this`expire, this`armed, this`clock, this`reading
      ensures Valid() && clock >= old(clock)
      ensures t !in alive ==> Here() == old(Here())
      ensures t in alive ==>
        && (Strict() ==> clock > old(clock))
        && clock == old(clock) + Wait(ticks, old(reading)) && reading == old(reading) + 1
        && t in old(msecs) && msecs == old(msecs)[t := if ms == RESTART then old(msecs)[t] else ms]
        && expire == old(expire)[t := clock + Interval(msecs[t])]
        && var w := Without<Id>(old(timers), t); Known(w, expire) && timers == Insert(w, t, alive, expire)
    {
      hide TimerList.Strict, Wait, Listed, Insert, FirstLive, Spaced, Known, Logged, Interval;
      if t !in alive { return; }
      if ms != RESTART { msecs := msecs[t := ms]; }
      RearmTimer(t);
    }

    /** find_next_timer */
    method FindNext()
      modifies this`next
      ensures next == FirstLive(timers, alive)
    {
      var k := 0;
      while k < |timers| && timers[k] !in alive
        invariant 0 <= k <= |timers|
        invariant FirstLive(timers, alive) == FirstLive(timers[k..], alive)
      {
        assert timers[k..][1..] == timers[k + 1..];
        k := k + 1;
      }
      next := if k < |timers| then Some(timers[k]) else None;
    }

    /** iot_del_timer: marks the timer and finds the next one if this was it. */
    method DelTimer(t: Id)
      requires Valid()
      modifies this`alive, this`deleted, this`next, this`log
      ensures Valid() && alive == old(alive) - {t}
      ensures t in old(alive) ==> deleted == old(deleted) + [t] && log == old(log) + [Deleted(t)]
      ensures t !in old(alive) ==> deleted == old(deleted) && log == old(log)
    {
      hide TimerList.Strict, Wait, Listed, FirstLive;
      if t !in alive { return; }
      Killed(timers, t, alive, deleted, expire, count);
      assert t < count by {
        assert Listed(timers, alive, deleted, expire, count);
        InListBound(timers, t, alive, deleted, expire, count);
      }
      if next != Some(t) { FirstLiveOther(timers, t, alive); }
      deleted, alive, log := deleted + [t], alive - {t}, log + [Deleted(t)];
      if next == Some(t) {
        FindNext();
      }
    }

    /** purge_deleted: unlinks and frees what was marked. */
    method Purge()
      requires Valid()
      modifies this`timers, this`deleted
      ensures Valid() && deleted == []
      ensures timers == Survivors(old(timers), alive) && forall u :: u in timers <==> u in alive
    {
      hide Sorted, FirstLive, Spaced, Logged, Timed, Survivors;
      while deleted != []
        invariant Valid() && Survivors(timers, alive) == Survivors(old(timers), alive)
        decreases |deleted|
      {
        Unlinked(timers, alive, deleted, expire, count);
        SurvivorsWithout(timers, deleted[0], alive);
        timers := Without<Id>(timers, deleted[0]);
        deleted := deleted[1..];
      }
      SurvivorsAll(timers, alive);
    }

    /** iot_mainloop_prepare: how long the poll may sleep. */
    method Prepare(deferred: bool) returns (timeout: int)
      requires Valid()
      modifies this`clock, this`reading
      ensures Valid() && clock >= old(clock)
      ensures deferred ==> timeout == 0
      ensures !deferred ==> (timeout == -1 <==> alive == {})
      ensures !deferred && alive != {} ==>
        && next.Some? && next.value in alive && next.value in expire
        && (forall u :: u in alive ==> u in expire && expire[next.value] <= expire[u])
        && 0 <= timeout < 0x8000_0000
        && expire[next.value] <= clock + 1000 * timeout
        && (timeout > 0 ==> clock + 1000 * timeout < expire[next.value] + 1000)
    {
      hide Sorted, FirstLive, Spaced, Logged;
      FirstLiveFacts(timers, alive, expire);
      if deferred {
        timeout := 0;
      } else if next == None {
        timeout := -1;
      } else {
        var now := Now();
        timeout := if expire[next.value] <= now then 0 else Ceil(expire[next.value] - now);
      }
    }

    /** One thing that the callback of t does while the walk has x saved as the
        place to go on from. Restarting x takes the walk off its course. */
    method Act(t: Id, x: Option<Id>, now: nat, a: Action, off0: bool) returns (off: bool)
      requires Valid() && Positive() && (Strict() || Lasting([a])) && now <= clock
      requires t in timers && Placed(timers, x, t, alive, expire, now, off0)
      modifies this
      ensures Valid() && Positive() && now <= clock && old(clock) <= clock
      ensures t in timers && Placed(timers, x, t, alive, expire, now, off)
      ensures off <==> off0 || (a.Mod? && x == Some(a.t) && a.t in old(alive))
      ensures x.Some? ==> (x.value in alive <==> x.value in old(alive) && a != Del(x.value))
      ensures Steady(old(alive), old(expire), alive, expire, t, now)
      ensures Excused(old(alive), old(expire), alive, expire, t, now, [a])
      ensures Firings(log) == Firings(old(log)) && old(log) <= log && old(count) <= count
      ensures (a.Del? ==> a.t !in alive) && forall u :: u in alive && u < old(count) ==> u in old(alive)
      ensures quit == (old(quit) || a.Quit?) && Here() == Does(old(Here()), a, ticks)
    {
      hide TimerList.Strict, Wait, Listed, Spaced, Logged, Sorted, FirstLive, Insert, Rest, Firings, Without, Interval,
        Known, Placed, Steady, Excused, Asked, Timed, Arms;
      InListBounds(timers, alive, deleted, expire, count);
      PlacedOn(timers, x, t, alive, expire, now, off0);
      assert [a][0] == a;
      ghost var xs := timers;
      off := off0;
      match a {
        case Add(ms) =>
          var id := AddTimer(ms, true);
          AddIs(old(Here()), ms, Here(), ticks);
          PlacedInsert(xs, x, t, id.value, old(alive), alive, old(expire), expire, now, off);
          SteadyMove(old(alive), old(expire), alive, expire, t, id.value, now, a);
        case Del(d) =>
          DelTimer(d);
          SteadyDel(xs, x, old(alive), alive, expire, t, d, now, off);
          if log != old(log) { FiringsAppend(old(log), Deleted(d)); }
        case Mod(u, ms) => off := Restart(t, x, now, u, ms, off0);
        case Quit =>
          quit := true;
          SteadyNone(alive, expire, t, now, a);
      }
    }

    /** The callback of t restarts u. */
    method Restart(t: Id, x: Option<Id>, now: nat, u: Id, ms: nat, off0: bool) returns (off: bool)
      requires Valid() && Positive() && (Strict() || ms == RESTART || Interval(ms) > 0) && now <= clock
      requires t in timers && Placed(timers, x, t, alive, expire, now, off0)
      modifies this`timers, this`next, this`msecs, this`expire, this`armed, this`clock, this`reading
      ensures Valid() && Positive() && now <= clock && old(clock) <= clock
      ensures t in timers && Placed(timers, x, t, alive, expire, now, off)
      ensures off <==> off0 || (x == Some(u) && u in old(alive))
      ensures Steady(alive, old(expire), alive, expire, t, now)
      ensures Excused(alive, old(expire), alive, expire, t, now, [Mod(u, ms)])
      ensures Here() == Does(old(Here()), Mod(u, ms), ticks)
    {
      hide TimerList.Strict, Wait, Listed, Spaced, Logged, Sorted, FirstLive, Insert, Rest, Firings, Without, Interval,
        Known, Placed, Steady, Excused, Asked, Timed, Arms;
      InListBounds(timers, alive, deleted, expire, count);
      PlacedOn(timers, x, t, alive, expire, now, off0);
      off := off0;
      ghost var m := Here();
      ModTimer(u, ms);
      if u !in alive {
        SteadyNone(alive, expire, t, now, Mod(u, ms));
        return;
      }
      ModIs(m, u, ms, Here(), ticks);
      SteadyMove(alive, m.expire, alive, expire, t, u, now, Mod(u, ms));
      if x == Some(u) {
        off := true;
        ParkedHere(timers, u, t, alive, deleted, expire, count, now);
        StillListed(m.list, t, u, alive, expire);
      } else {
        PlacedMove(m.list, x, t, u, alive, m.expire, expire, now, off);
      }
    }

    /** The callback of t. The walk is off course exactly if it restarts x. */
    method Callback(t: Id, x: Option<Id>, now: nat, acts: seq<Action>) returns (off: bool)
      requires Valid() && Positive() && (Strict() || Lasting(acts)) && now <= clock
      requires t in timers && Ahead(timers, x, t, alive, expire, now)
      modifies this
      ensures Valid() && Positive() && now <= clock && old(clock) <= clock
      ensures t in timers && Placed(timers, x, t, alive, expire, now, off)
      ensures off <==> x.Some? && x.value in old(alive) && Derails(acts, x.value)
      ensures Steady(old(alive), old(expire), alive, expire, t, now)
      ensures Excused(old(alive), old(expire), alive, expire, t, now, acts)
      ensures Firings(log) == Firings(old(log)) && old(log) <= log && old(count) <= count
      ensures forall i :: 0 <= i < |acts| && acts[i].Del? && acts[i].t < old(count) ==> acts[i].t !in alive
      ensures t in alive ==> t in old(alive)
      ensures (quit <==> old(quit) || Quit in acts) && Here() == DoesAll(old(Here()), acts, ticks)
    {
      hide TimerList.Strict, Wait, Listed, Spaced, Logged, Sorted, FirstLive, Rest, Firings, Ahead, Parked, Timed,
        Derails, Asked, Steady, Excused, Does, DoesAll, AllLast, Lasting;
      InListBounds(timers, alive, deleted, expire, count);
      SteadyStart(alive, expire, t, now);
      assert acts[..0] == [];
      NothingAsked();
      DoesNone(Here(), ticks);
      off := false;
      for i := 0 to |acts|
        invariant Valid() && Positive() && now <= clock && old(clock) <= clock
        invariant t in timers && Placed(timers, x, t, alive, expire, now, off)
        invariant off <==> x.Some? && x.value in old(alive) && Derails(acts[..i], x.value)
        invariant x.Some? ==> (x.value in alive <==> x.value in old(alive) && Del(x.value) !in acts[..i])
        invariant Steady(old(alive), old(expire), alive, expire, t, now)
        invariant Excused(old(alive), old(expire), alive, expire, t, now, acts[..i])
        invariant Firings(log) == Firings(old(log)) && old(log) <= log && old(count) <= count
        invariant forall j :: 0 <= j < i && acts[j].Del? && acts[j].t < old(count) ==> acts[j].t !in alive
        invariant forall u :: u in alive && u < old(count) ==> u in old(alive)
        invariant quit <==> old(quit) || Quit in acts[..i]
        invariant Here() == DoesAll(old(Here()), acts[..i], ticks)
      {
        DoesMore(old(Here()), acts, i, ticks);
        if Lasting(acts) { LastingOne(acts, i); }
        ghost var a0, e0 := alive, expire;
        off := Act(t, x, now, acts[i], off);
        SteadyTrans(old(alive), old(expire), a0, e0, alive, expire, t, now);
        ExcusedTrans(old(alive), old(expire), a0, e0, alive, expire, t, now, acts, i);
        if x.Some? { AskedMore(acts, i, x.value); }
        assert acts[..i + 1] == acts[..i] + [acts[i]];
      }
      assert acts[..|acts|] == acts;
    }

    /** One step of the walk at a live timer that is due. */
    method Fire(t: Id, x: Option<Id>, now: nat, acts: seq<Action>) returns (off: bool)
      requires Valid() && Positive() && (Strict() || Lasting(acts)) && now <= clock
      requires t in alive && t in expire && expire[t] <= now && Ahead(timers, x, t, alive, expire, now)
      modifies this
      ensures Valid() && Positive() && now <= clock
      ensures Walk(timers, x, alive, expire, now, off)
      ensures off <==> x.Some? && x.value in old(alive) && Derails(acts, x.value)
      ensures t in alive ==> t in expire && expire[t] > now
      ensures Steady(old(alive), old(expire), alive, expire, t, now)
      ensures Excused(old(alive), old(expire), alive, expire, t, now, acts)
      ensures Firings(log) == Firings(old(log)) + [t] && old(log) <= log && |log| >= |old(log)| + 2
      ensures t in old(msecs) && OneTurn(log[|old(log)|..], t, Interval(old(msecs)[t]), old(clock))
      ensures (quit <==> old(quit) || Quit in acts) && Here() == Fires(old(Here()), t, acts, ticks)
    {
      hide TimerList.Strict, Wait, Listed, Sorted, FirstLive, Rest, Firings, Spaced, Logged, Interval, Without, Insert,
        Derails, Asked, Excused, DoesAll, Arms, Steady, Timed, Placed, Walk, Lasting, AllLast;
      InListBounds(timers, alive, deleted, expire, count);
      ghost var m := Here();
      Start(t);
      off := Callback(t, x, now, acts);
      ghost var called := Here();
      var end := Now();
      Settle(t, x, now, end, off);
      ExcusedSame(m.alive, m.expire, called.alive, called.expire, expire, t, now, acts);
      SteadySame(m.alive, m.expire, called.alive, called.expire, expire, t, now);
    }

    /** The beginning of a firing. */
    method Start(t: Id)
      requires Valid() && t in alive && t in expire && expire[t] <= clock
      modifies this`clock, this`reading, this`log
      ensures Valid() && Here() == Timely(old(Here()), ticks) && clock >= old(clock)
      ensures t in msecs && log == old(log) + [Started(t, clock, Interval(msecs[t]))]
      ensures Firings(log) == Firings(old(log)) + [t]
    {
      hide TimerList.Strict, Wait, Listed, Sorted, FirstLive, Rest, Firings, Spaced, Logged, Interval, Timely;
      InListBounds(timers, alive, deleted, expire, count);
      var start := Now();
      LogStart(log, alive, armed, count, t, start, Interval(msecs[t]));
      FiringsAppend(log, Started(t, start, Interval(msecs[t])));
      log := log + [Started(t, start, Interval(msecs[t]))];
    }

    /** The end of a firing: the timer is armed again unless it was deleted. */
    method Settle(t: Id, x: Option<Id>, now: nat, end: nat, off: bool)
      requires Valid() && Positive() && now <= clock && end == clock
      requires t in timers && Placed(timers, x, t, alive, expire, now, off)
      modifies this`timers, this`next, this`expire, this`armed, this`clock, this`reading, this`log
      ensures Valid() && Positive() && now <= clock
      ensures Walk(timers, x, alive, expire, now, off)
      ensures t in alive ==> t in expire && expire[t] > now
      ensures forall u :: u in old(expire) && u != t ==> u in expire && expire[u] == old(expire)[u]
      ensures Here() == if t in alive then Arms(old(Here()), t, ticks) else old(Here())
      ensures Firings(log) == Firings(old(log)) && log == old(log) + [Ended(t, end)]
    {
      hide TimerList.Strict, Wait, Listed, Sorted, FirstLive, Rest, Firings, Spaced, Logged, Interval, Without, Insert,
        Placed, Walk, Arms, Known;
      InListBounds(timers, alive, deleted, expire, count);
      if t in alive {
        ghost var xs := timers;
        RearmTimer(t);
        ArmsIs(old(Here()), t, Here(), ticks);
        PlacedMove(xs, x, t, t, alive, old(expire), expire, now, off);
      }
      PlacedWalk(timers, x, t, alive, expire, now, off);
      LogEnd(log, alive, armed, count, t, end);
      FiringsAppend(log, Ended(t, end));
      log := log + [Ended(t, end)];
    }

    /** The walk of a round comes to a live timer that is due. */
    method Visit(t: Id, now: nat, script: Id -> seq<Action>,
                 ghost marks: seq<Mark>, ghost fired: seq<Id>, ghost due0: set<Id>, ghost expire0: map<Id, nat>,
                 ghost quit0: bool)
      returns (off: bool)
      requires Valid() && Positive() && (Strict() || AllLasting(script)) && now <= clock
      requires Round(marks, fired, Some(t), false, quit, script, ticks, now, due0, expire0, quit0, Here())
      requires t in alive && t in expire && expire[t] <= now && (fired != [] ==> !quit)
      modifies this
      ensures Valid() && Positive() && now <= clock
      ensures Round(marks + [Here()], fired + [t], Next(old(timers), t), off, quit, script, ticks, now,
                    due0, expire0, quit0, Here())
      ensures |DueOf(alive, expire, now)| < old(|DueOf(alive, expire, now)|)
      ensures Firings(log) == Firings(old(log)) + [t] && old(log) <= log
    {
      hide TimerList.Strict, Wait, Listed, Sorted, FirstLive, Rest, Firings, Spaced, Logged, Interval, Steady, Excused,
        Ahead, DueOf, Timed, Lasting, Next, Walk, Derails, Round, Fires, NoneDue, AllLast, AllLasting;
      RoundAt(marks, fired, t, false, quit, script, ticks, now, due0, expire0, quit0, Here(), deleted);
      if AllLasting(script) { LastingOf(script, t); }
      ghost var here, quit1 := Here(), quit;
      off := Fire(t, Next(timers, t), now, script(t));
      RoundFire(marks, fired, t, off, quit1, script, ticks, now, due0, expire0, quit0, here, Here(), deleted);
    }

    /** dispatch_timers: the timers due at the start fire in order of expiry, each
        once, unless a callback of this round deletes or restarts them first. One
        may be left only if a callback quits the main loop, or misleads the walk
        by restarting the timer saved to go on from; that is the last to fire. The
        marks are the timers at the start and after each firing. */
    method Dispatch(script: Id -> seq<Action>)
      returns (now: nat, fired: seq<Id>, off: bool, ghost marks: seq<Mark>)
      requires Valid() && Positive() && (Strict() || AllLasting(script))
      modifies this
      ensures Valid() && Positive() && old(clock) <= now <= clock
      ensures Firings(log) == Firings(old(log)) + fired && old(log) <= log
      ensures Tally(fired, DueOf(old(alive), old(expire), now), DueOf(alive, expire, now), old(expire))
      ensures Accounted(fired, DueOf(old(alive), old(expire), now), DueOf(alive, expire, now), script)
      ensures off || quit || forall u :: u in alive ==> u in expire && expire[u] > now
      ensures Course(marks, fired, script, ticks, now) && Marked(marks, fired, off, script)
      ensures marks[0] == Timely(old(Here()), ticks) && now == marks[0].clock && marks[|fired|] == Here()
      ensures quit || NoneDue(Here(), From(marks, fired, |fired|), now)
      ensures (quit <==> old(quit) || Quits(fired, script)) && Prompt(fired, script, old(quit))
    {
      hide TimerList.Strict, Wait, Listed, Sorted, FirstLive, Rest, Firings, Spaced, Logged, Interval, Steady, Excused,
        Ahead, DueOf, Timed, Lasting, Tally, Next, Walk, Derails, Accounted, Round, Quits, Prompt, Fires, NoneDue,
        Course, Marked, From, AllLast, AllLasting;
      now := Now();
      fired, off, marks := [], false, [Here()];
      ghost var due0, first := DueOf(alive, expire, now), Here();
      var p := if timers == [] then None else Some(timers[0]);
      RoundStart(Here(), deleted, quit, script, ticks, now);
      var over := false;
      while p.Some? && !over
        invariant Valid() && Positive() && old(clock) <= now <= clock
        invariant Round(marks, fired, p, off, quit, script, ticks, now, due0, first.expire, old(quit), Here())
        invariant over ==> off || quit || DueOf(alive, expire, now) == {}
        invariant over ==> quit || NoneDue(Here(), p, now)
        invariant Firings(log) == Firings(old(log)) + fired && old(log) <= log
        invariant marks != [] && marks[0] == first && (!over && fired != [] ==> !quit)
        decreases |DueOf(alive, expire, now)|, |Rest(timers, p)|, !over
      {
        var t := p.value;
        var n := Next(timers, t);
        RoundAt(marks, fired, t, off, quit, script, ticks, now, due0, first.expire, old(quit), Here(), deleted);
        if t in alive && expire[t] > now {
          over := true;
        } else {
          if t in alive {
            off := Visit(t, now, script, marks, fired, due0, first.expire, old(quit));
            fired, marks := fired + [t], marks + [Here()];
          }
          p := n;
          over := quit;
        }
      }
      RoundEnd(marks, fired, p, off, quit, script, ticks, now, due0, first.expire, old(quit), Here(), msecs, armed);
    }

    /** For callbacks that add timers, delete any and restart their own, and do not
        quit: every timer due at the start fires once, in order of expiry, unless
        it was deleted first, and none is left due. */
    method DispatchOwn(script: Id -> seq<Action>) returns (now: nat, fired: seq<Id>)
      requires Valid() && Positive() && (Strict() || AllLasting(script))
      requires !quit && forall t :: Selfish(script(t), t)
      modifies this
      ensures Valid() && Positive() && !quit && old(clock) <= now <= clock
      ensures Firings(log) == Firings(old(log)) + fired && old(log) <= log
      ensures Tally(fired, DueOf(old(alive), old(expire), now), {}, old(expire))
      ensures forall u :: u in DueOf(old(alive), old(expire), now) ==>
        u in fired || exists i :: 0 <= i < |fired| && Del(u) in script(fired[i])
      ensures forall u :: u in alive ==> u in expire && expire[u] > now
    {
      hide Listed, Timed, Spaced, Logged, Firings, Tally, Accounted, Course, Marked, Quits, Selfish, Prompt, NoneDue,
        AllLasting;
      var off;
      ghost var marks;
      now, fired, off, marks := Dispatch(script);
      ghost var due0, due := DueOf(old(alive), old(expire), now), DueOf(alive, expire, now);
      if !off && !quit { assert due == {}; }
      OwnBusiness(marks, fired, off, script, ticks, now, due0);
    }
  }

  /** All that is known in the middle of a round, about to visit p. */
  ghost predicate Round(marks: seq<Mark>, fired: seq<Id>, p: Option<Id>, off: bool, quit: bool,
                        script: Id -> seq<Action>, ticks: nat -> nat, now: nat,
                        due0: set<Id>, expire0: map<Id, nat>, quit0: bool, here: Mark)
  {
    && Going(here.list, p, here.alive, here.expire, now, due0, fired, expire0, off, script)
    && Tracked(marks, fired, p, off, script, ticks, now, here)
    && (quit <==> quit0 || Quits(fired, script)) && Prompt(fired, script, quit0)
  }

  lemma RoundStart(m: Mark, dead: seq<Id>, quit: bool, script: Id -> seq<Action>, ticks: nat -> nat, now: nat)
    requires Listed(m.list, m.alive, dead, m.expire, m.count)
    ensures Round([m], [], if m.list == [] then None else Some(m.list[0]), false, quit, script, ticks, now,
                  DueOf(m.alive, m.expire, now), m.expire, quit, m)
  {
    hide Listed, Going, Tracked, Quits, Prompt;
    ListedMark(m, dead);
    TrackStart(m, script, ticks, now);
    StartDue(m.list, m.alive, dead, m.expire, m.count, now, script);
    NotYet(script, quit);
  }

  /** At t: a live timer that is not due ends the round, any other may fire. */
  lemma RoundAt(marks: seq<Mark>, fired: seq<Id>, t: Id, off: bool, quit: bool, script: Id -> seq<Action>,
                ticks: nat -> nat, now: nat, due0: set<Id>, expire0: map<Id, nat>, quit0: bool,
                here: Mark, dead: seq<Id>)
    requires Round(marks, fired, Some(t), off, quit, script, ticks, now, due0, expire0, quit0, here)
    requires Listed(here.list, here.alive, dead, here.expire, here.count)
    ensures var n := Next(here.list, t);
      && t in here.list && t in here.expire && |Rest(here.list, n)| < |Rest(here.list, Some(t))|
      && (t in here.alive && here.expire[t] <= now ==>
            && !off && Ahead(here.list, n, t, here.alive, here.expire, now) && t in DueOf(here.alive, here.expire, now)
            && forall u :: u in DueOf(here.alive, here.expire, now) ==>
                 u in here.expire && here.expire[t] <= here.expire[u])
      && (t !in here.alive ==>
            Round(marks, fired, n, off, quit, script, ticks, now, due0, expire0, quit0, here))
      && (t in here.alive && here.expire[t] > now ==>
            NoneDue(here, Some(t), now) && (off || DueOf(here.alive, here.expire, now) == {}))
  {
    AtPlace(here.list, t, here.alive, dead, here.expire, here.count, now, due0, fired, expire0, off, script);
    ListedMark(here, dead);
    assert t in here.list by { hide Listed, Tracked; }
    hide Listed, Quits, Prompt, DueOf, Ahead, Next, Rest, Going;
    ChosenAt(here, t);
    if t !in here.alive { TrackSkip(marks, fired, t, off, script, ticks, now, here); }
  }

  lemma RoundFire(marks: seq<Mark>, fired: seq<Id>, t: Id, off: bool, quit: bool, script: Id -> seq<Action>,
                  ticks: nat -> nat, now: nat, due0: set<Id>, expire0: map<Id, nat>, quit0: bool,
                  here: Mark, here': Mark, dead: seq<Id>)
    requires Round(marks, fired, Some(t), false, quit, script, ticks, now, due0, expire0, quit0, here)
    requires (fired != [] ==> !quit) && t in here.list && t in DueOf(here.alive, here.expire, now)
    requires forall u :: u in DueOf(here.alive, here.expire, now) ==>
      u in here.expire && here.expire[t] <= here.expire[u]
    requires here' == Fires(here, t, script(t), ticks)
    requires Listed(here'.list, here'.alive, dead, here'.expire, here'.count)
    requires Steady(here.alive, here.expire, here'.alive, here'.expire, t, now)
    requires Excused(here.alive, here.expire, here'.alive, here'.expire, t, now, script(t))
    requires Walk(here'.list, Next(here.list, t), here'.alive, here'.expire, now, off)
    requires t in here'.alive ==> t in here'.expire && here'.expire[t] > now
    requires off <==> var n := Next(here.list, t); n.Some? && n.value in here.alive && Derails(script(t), n.value)
    ensures Round(marks + [here'], fired + [t], Next(here.list, t), off, quit || Quit in script(t), script, ticks, now,
                  due0, expire0, quit0, here')
    ensures |DueOf(here'.alive, here'.expire, now)| < |DueOf(here.alive, here.expire, now)|
  {
    assert t in here.alive && t in here.expire && here.expire[t] <= now;
    ListedMark(here', dead);
    hide Listed, Quits, Prompt, Going, Tracked, DueOf, Steady, Excused, Walk, Fires, Next, Derails;
    GoOn(here.list, here'.list, Next(here.list, t), here.alive, here.expire, here'.alive, here'.expire, t, now,
         due0, fired, expire0, off, script);
    QuitMore(fired, t, script);
    PromptOn(fired, t, script, quit0);
    TrackFire(marks, fired, t, off, script, ticks, now, here, here');
  }

  lemma RoundEnd(marks: seq<Mark>, fired: seq<Id>, p: Option<Id>, off: bool, quit: bool, script: Id -> seq<Action>,
                 ticks: nat -> nat, now: nat, due0: set<Id>, expire0: map<Id, nat>, quit0: bool, here: Mark,
                 msecs: map<Id, nat>, armed: map<Id, nat>)
    requires Round(marks, fired, p, off, quit, script, ticks, now, due0, expire0, quit0, here)
    requires Timed(here.alive, msecs, here.expire, armed, here.clock)
    ensures var due := DueOf(here.alive, here.expire, now);
      && Tally(fired, due0, due, expire0) && Accounted(fired, due0, due, script)
      && (due == {} || (p == None && !off) ==>
            forall u :: u in here.alive ==> u in here.expire && here.expire[u] > now)
    ensures Course(marks, fired, script, ticks, now) && Marked(marks, fired, off, script)
    ensures marks[|fired|] == here
    ensures p == None || NoneDue(here, p, now) ==> NoneDue(here, From(marks, fired, |fired|), now)
    ensures (quit <==> quit0 || Quits(fired, script)) && Prompt(fired, script, quit0)
  {
    hide Going, Tracked, Quits, Prompt, Tally, Accounted, DueOf, Course, Marked, NoneDue, Timed;
    TrackEnd(marks, fired, p, off, script, ticks, now, here);
    Over(here.list, p, here.alive, msecs, here.expire, armed, here.clock, now, due0, fired, expire0, off, script);
  }

  lemma ListedMark(m: Mark, dead: seq<Id>)
    requires Listed(m.list, m.alive, dead, m.expire, m.count)
    ensures MarkOk(m)
  {
  }

  lemma TrackEnd(marks: seq<Mark>, fired: seq<Id>, p: Option<Id>, off: bool, script: Id -> seq<Action>,
                 ticks: nat -> nat, now: nat, here: Mark)
    requires Tracked(marks, fired, p, off, script, ticks, now, here)
    ensures Course(marks, fired, script, ticks, now) && Marked(marks, fired, off, script)
    ensures marks[|fired|] == here
    ensures p == None || NoneDue(here, p, now) ==> NoneDue(here, From(marks, fired, |fired|), now)
  {
    hide Course, Marked, From;
  }

  /** Every timer due by now, except t, is on the part of the list that a walk
      continuing at x has yet to visit. */
  ghost predicate Ahead(xs: seq<Id>, x: Option<Id>, t: Id, alive: set<Id>, expire: map<Id, nat>, now: nat) {
    && (x.Some? ==> x.value in xs && x.value != t)
    && forall u :: u in alive && u in expire && u != t && expire[u] <= now ==> u in Rest(xs, x)
  }

  /** A walk continuing at x has nothing due to visit, t apart. */
  ghost predicate Parked(xs: seq<Id>, x: Option<Id>, t: Id, alive: set<Id>, expire: map<Id, nat>, now: nat) {
    && x.Some? && x.value in xs && x.value != t
    && forall u :: u in Rest(xs, x) && u in alive && u != t ==> u in expire && expire[u] > now
  }

  ghost predicate Placed(
    xs: seq<Id>, x: Option<Id>, t: Id, alive: set<Id>, expire: map<Id, nat>, now: nat, off: bool)
  {
    if off then Parked(xs, x, t, alive, expire, now) else Ahead(xs, x, t, alive, expire, now)
  }

  /** The walk at p: all that is due lies ahead or, off course, nothing that does. */
  ghost predicate Walk(xs: seq<Id>, p: Option<Id>, alive: set<Id>, expire: map<Id, nat>, now: nat, off: bool) {
    && (p.Some? ==> p.value in xs)
    && if off then forall u :: u in Rest(xs, p) && u in alive ==> u in expire && expire[u] > now
       else forall u :: u in DueOf(alive, expire, now) ==> u in Rest(xs, p)
  }

  /** No timer but t was armed anew to be due by now, and none was born due. */
  ghost predicate Steady(
    alive: set<Id>, expire: map<Id, nat>, alive': set<Id>, expire': map<Id, nat>, t: Id, now: nat)
  {
    forall u :: u in alive' && u != t ==>
      u in expire' && (expire'[u] > now || (u in alive && u in expire && expire'[u] == expire[u]))
  }

  /** What was due, except t, is due still, unless a callback asked for it. */
  ghost predicate Excused(alive: set<Id>, expire: map<Id, nat>, alive': set<Id>, expire': map<Id, nat>,
                          t: Id, now: nat, acts: seq<Action>)
  {
    forall u :: u in alive && u in expire && expire[u] <= now && u != t ==>
      (u in alive' && u in expire' && expire'[u] <= now) || Asked(acts, u)
  }

  ghost function DueOf(alive: set<Id>, expire: map<Id, nat>, now: nat): set<Id> {
    set u | u in alive && u in expire && expire[u] <= now
  }

  /** Fired so far, in order of expiry, and none later than what is still due. */
  ghost predicate Tally(fired: seq<Id>, due0: set<Id>, due: set<Id>, expire: map<Id, nat>) {
    && Distinct<Id>(fired)
    && (forall u :: u in due0 ==> u in expire) && due <= due0
    && (forall i :: 0 <= i < |fired| ==> fired[i] in due0 && fired[i] !in due)
    && (forall i, j :: 0 <= i < j < |fired| ==> expire[fired[i]] <= expire[fired[j]])
    && (forall i, u :: 0 <= i < |fired| && u in due ==> expire[fired[i]] <= expire[u])
  }

  lemma TallyNext(fired: seq<Id>, t: Id, due0: set<Id>, due: set<Id>, due': set<Id>, expire: map<Id, nat>)
    requires Tally(fired, due0, due, expire) && due' <= due - {t} && t in due
    requires forall u :: u in due ==> u in expire && expire[t] <= expire[u]
    ensures Tally(fired + [t], due0, due', expire) && |due'| < |due|
  {
    DistinctConcat<Id>(fired, [t]);
    SubsetSize<Id>(due', due - {t});
  }

  /** At the start every due timer is ahead of the walk. */
  lemma StartAhead(xs: seq<Id>, alive: set<Id>, dead: seq<Id>, expire: map<Id, nat>, n: nat)
    requires Listed(xs, alive, dead, expire, n)
    ensures Rest(xs, if xs == [] then None else Some(xs[0])) == xs
    ensures forall u :: u in alive ==> u in xs && u in expire && u < n
  {
  }

  /** A timer no longer due has fired, or the callback of one that did asked for it. */
  ghost predicate Accounted(fired: seq<Id>, due0: set<Id>, due: set<Id>, script: Id -> seq<Action>) {
    forall u :: u in due0 && u !in fired && u !in due ==> exists i :: 0 <= i < |fired| && Asked(script(fired[i]), u)
  }

  /** One of the callbacks quits the main loop. */
  ghost predicate Quits(fired: seq<Id>, script: Id -> seq<Action>) {
    exists i :: 0 <= i < |fired| && Quit in script(fired[i])
  }

  /** Midway through the walk, about to visit p. */
  ghost predicate Going(xs: seq<Id>, p: Option<Id>, alive: set<Id>, expire: map<Id, nat>, now: nat, due0: set<Id>,
                        fired: seq<Id>, expire0: map<Id, nat>, off: bool, script: Id -> seq<Action>)
  {
    && Walk(xs, p, alive, expire, now, off)
    && (forall u :: u in DueOf(alive, expire, now) ==> u in expire0 && expire[u] == expire0[u])
    && Tally(fired, due0, DueOf(alive, expire, now), expire0)
    && Accounted(fired, due0, DueOf(alive, expire, now), script)
  }

  lemma StartDue(xs: seq<Id>, alive: set<Id>, dead: seq<Id>, expire: map<Id, nat>, n: nat, now: nat,
                 script: Id -> seq<Action>)
    requires Listed(xs, alive, dead, expire, n)
    ensures Going(xs, if xs == [] then None else Some(xs[0]), alive, expire, now, DueOf(alive, expire, now), [],
                  expire, false, script)
    ensures !Quits([], script)
  {
    StartAhead(xs, alive, dead, expire, n);
  }

  /** Standing at t, a walk has t first, then what lies behind it. */
  lemma AtPlace(xs: seq<Id>, t: Id, alive: set<Id>, dead: seq<Id>, expire: map<Id, nat>, n: nat, now: nat,
                due0: set<Id>, fired: seq<Id>, expire0: map<Id, nat>, off: bool, script: Id -> seq<Action>)
    requires Listed(xs, alive, dead, expire, n)
    requires Going(xs, Some(t), alive, expire, now, due0, fired, expire0, off, script)
    ensures t in expire && |Rest(xs, Next(xs, t))| < |Rest(xs, Some(t))|
    ensures t in alive && expire[t] <= now ==>
      && !off && Ahead(xs, Next(xs, t), t, alive, expire, now) && t in DueOf(alive, expire, now)
      && (Next(xs, t).Some? ==> Next(xs, t).value != t)
      && forall u :: u in DueOf(alive, expire, now) ==> u in expire && expire[t] <= expire[u]
    ensures t !in alive ==> Going(xs, Next(xs, t), alive, expire, now, due0, fired, expire0, off, script)
    ensures t in alive && expire[t] > now ==> off || DueOf(alive, expire, now) == {}
  {
    hide Sorted, FirstLive, Tally, Accounted;
    RestFacts(xs, t);
    RestSorted(xs, Some(t), alive, expire);
    if t in alive { FirstLiveOf(Rest(xs, Some(t)), alive, expire); }
    if !off {
      forall u | u in alive && u in expire && u != t && expire[u] <= now ensures u in Rest(xs, Next(xs, t)) {
        assert u in DueOf(alive, expire, now);
      }
    }
  }

  lemma FirstLiveOf(xs: seq<Id>, alive: set<Id>, expire: map<Id, nat>)
    requires Known(xs, expire) && Sorted(xs, alive, expire) && xs != [] && xs[0] in alive
    ensures forall u :: u in xs && u in alive ==> u in expire && expire[xs[0]] <= expire[u]
  {
  }

  /** One firing keeps the walk going, with less due. */
  lemma GoOn(xs: seq<Id>, xs': seq<Id>, x: Option<Id>, alive: set<Id>, expire: map<Id, nat>,
             alive': set<Id>, expire': map<Id, nat>, t: Id, now: nat,
             due0: set<Id>, fired: seq<Id>, expire0: map<Id, nat>, off: bool, script: Id -> seq<Action>)
    requires Going(xs, Some(t), alive, expire, now, due0, fired, expire0, false, script)
    requires t in DueOf(alive, expire, now)
    requires forall u :: u in DueOf(alive, expire, now) ==> u in expire && expire[t] <= expire[u]
    requires Steady(alive, expire, alive', expire', t, now)
    requires Excused(alive, expire, alive', expire', t, now, script(t))
    requires Walk(xs', x, alive', expire', now, off)
    requires t in alive' ==> t in expire' && expire'[t] > now
    ensures Going(xs', x, alive', expire', now, due0, fired + [t], expire0, off, script)
    ensures |DueOf(alive', expire', now)| < |DueOf(alive, expire, now)|
  {
    hide Tally, Rest, Walk, Steady, Excused, Accounted, Asked;
    FiredOne(alive, expire, alive', expire', t, now);
    TallyNext(fired, t, due0, DueOf(alive, expire, now), DueOf(alive', expire', now), expire0);
    AccountedNext(alive, expire, alive', expire', t, now, due0, fired, script);
  }

  lemma AccountedNext(alive: set<Id>, expire: map<Id, nat>, alive': set<Id>, expire': map<Id, nat>, t: Id, now: nat,
                      due0: set<Id>, fired: seq<Id>, script: Id -> seq<Action>)
    requires Accounted(fired, due0, DueOf(alive, expire, now), script)
    requires Excused(alive, expire, alive', expire', t, now, script(t))
    ensures Accounted(fired + [t], due0, DueOf(alive', expire', now), script)
  {
    hide Asked;
    var all := fired + [t];
    forall u | u in due0 && u !in all && u !in DueOf(alive', expire', now)
      ensures exists i :: 0 <= i < |all| && Asked(script(all[i]), u)
    {
      assert t in all && forall v :: v in fired ==> v in all;
      if u in DueOf(alive, expire, now) {
        assert all[|fired|] == t && Asked(script(t), u);
      } else {
        var i :| 0 <= i < |fired| && Asked(script(fired[i]), u);
        assert all[i] == fired[i];
      }
    }
  }

  lemma QuitMore(fired: seq<Id>, t: Id, script: Id -> seq<Action>)
    ensures Quits(fired + [t], script) <==> Quits(fired, script) || Quit in script(t)
  {
    var all := fired + [t];
    if i :| 0 <= i < |fired| && Quit in script(fired[i]) { assert all[i] == fired[i]; }
    if Quit in script(t) { assert all[|fired|] == t; }
  }

  lemma Over(xs: seq<Id>, p: Option<Id>, alive: set<Id>, msecs: map<Id, nat>, expire: map<Id, nat>,
             armed: map<Id, nat>, clock: nat, now: nat,
             due0: set<Id>, fired: seq<Id>, expire0: map<Id, nat>, off: bool, script: Id -> seq<Action>)
    requires Going(xs, p, alive, expire, now, due0, fired, expire0, off, script)
    requires Timed(alive, msecs, expire, armed, clock)
    ensures Tally(fired, due0, DueOf(alive, expire, now), expire0)
    ensures Accounted(fired, due0, DueOf(alive, expire, now), script)
    ensures DueOf(alive, expire, now) == {} || (p == None && !off) ==>
      forall u :: u in alive ==> u in expire && expire[u] > now
  {
    hide Tally, Accounted;
    if DueOf(alive, expire, now) == {} || (p == None && !off) {
      forall u | u in alive ensures u in expire && expire[u] > now {
        assert u in DueOf(alive, expire, now) || expire[u] > now;
      }
    }
  }

  /** What a firing leaves due. */
  lemma FiredOne(alive: set<Id>, expire: map<Id, nat>, alive': set<Id>, expire': map<Id, nat>, t: Id, now: nat)
    requires Steady(alive, expire, alive', expire', t, now)
    requires t in alive' ==> t in expire' && expire'[t] > now
    ensures DueOf(alive', expire', now) <= DueOf(alive, expire, now) - {t}
    ensures forall u :: u in DueOf(alive', expire', now) ==> u in expire && u in expire' && expire'[u] == expire[u]
  {
  }

  lemma PlacedOn(xs: seq<Id>, x: Option<Id>, t: Id, alive: set<Id>, expire: map<Id, nat>, now: nat, off: bool)
    requires Placed(xs, x, t, alive, expire, now, off)
    ensures x.Some? ==> x.value in xs && x.value != t
  {
  }

  lemma PlacedInsert(xs: seq<Id>, x: Option<Id>, t: Id, id: Id, alive: set<Id>, alive': set<Id>,
                     expire: map<Id, nat>, expire': map<Id, nat>, now: nat, off: bool)
    requires Placed(xs, x, t, alive, expire, now, off) && id in expire' && expire'[id] > now && id !in xs && t in xs
    requires Known(xs, expire') && alive' == alive + {id} && expire' == expire[id := expire'[id]]
    ensures var r := Insert(xs, id, alive', expire'); Placed(r, x, t, alive', expire', now, off) && t in r
  {
    hide Insert, Rest;
    RestInsert(xs, x, id, alive', expire');
    RestInsertOnly(xs, x, id, alive', expire');
    InsertMembers(xs, id, alive', expire');
  }

  /** Arming u anew, which is not where the walk goes on. */
  lemma PlacedMove(xs: seq<Id>, x: Option<Id>, t: Id, u: Id, alive: set<Id>,
                   expire: map<Id, nat>, expire': map<Id, nat>, now: nat, off: bool)
    requires Placed(xs, x, t, alive, expire, now, off) && (x != Some(u) || u == t) && t in xs
    requires u in expire' && expire'[u] > now && expire' == expire[u := expire'[u]]
    requires Known(Without<Id>(xs, u), expire')
    ensures var r := Insert(Without<Id>(xs, u), u, alive, expire'); Placed(r, x, t, alive, expire', now, off) && t in r
  {
    hide Insert, Without, Rest;
    var w := Without<Id>(xs, u);
    RestWithout(xs, x, u);
    RestInsert(w, x, u, alive, expire');
    RestInsertOnly(w, x, u, alive, expire');
    InsertMembers(w, u, alive, expire');
    WithoutMembers<Id>(xs, u);
    WithoutMembers<Id>(Rest(xs, x), u);
  }

  /** Where the restarted timer went, what follows it is due no earlier. */
  lemma ParkedHere(xs: seq<Id>, x: Id, t: Id, alive: set<Id>, dead: seq<Id>, expire: map<Id, nat>, n: nat, now: nat)
    requires Listed(xs, alive, dead, expire, n) && x in alive && x != t && x in expire && expire[x] > now
    ensures Placed(xs, Some(x), t, alive, expire, now, true)
  {
    hide Sorted, FirstLive;
    RestFacts(xs, x);
    RestSorted(xs, Some(x), alive, expire);
    FirstLiveOf(Rest(xs, Some(x)), alive, expire);
  }

  lemma StillListed(xs: seq<Id>, t: Id, u: Id, alive: set<Id>, expire: map<Id, nat>)
    requires t in xs && u in expire && Known(Without<Id>(xs, u), expire)
    ensures t in Insert(Without<Id>(xs, u), u, alive, expire)
  {
    hide Insert, Without;
    WithoutMembers<Id>(xs, u);
    InsertMembers(Without<Id>(xs, u), u, alive, expire);
  }

  lemma PlacedWalk(xs: seq<Id>, x: Option<Id>, t: Id, alive: set<Id>, expire: map<Id, nat>, now: nat, off: bool)
    requires Placed(xs, x, t, alive, expire, now, off) && (t in alive ==> t in expire && expire[t] > now)
    ensures Walk(xs, x, alive, expire, now, off)
  {
    hide Rest;
  }

  /** The callback of timer 0 restarts timer 1, saved to go on from: the walk
      then passes over timer 2, which is due. */
  lemma Derailed()
    ensures var expire: map<Id, nat>, expire' := map[0 := 0, 1 := 0, 2 := 0], map[0 := 0, 1 := 9, 2 := 0];
      var xs, alive := [0, 1, 2], {0, 1, 2};
      var xs' := Insert(Without<Id>(xs, 1), 1, alive, expire');
      && Ahead(xs, Some(1), 0, alive, expire, 5) && Next(xs, 0) == Some(1)
      && xs' == [0, 2, 1] && Rest(xs', Some(1)) == [1] && 2 in DueOf(alive, expire', 5)
  {
    var e: map<Id, nat>, xs: seq<Id>, alive := map[0 := 0, 1 := 9, 2 := 0], [0, 1, 2], {0, 1, 2};
    var a: seq<Id>, b: seq<Id>, c: seq<Id>, d: seq<Id> := [1, 2], [2], [2, 1], [1];
    assert xs[1..] == a && a[1..] == b && b[1..] == [] && c[1..] == d && [0, 2, 1][1..] == c;
    assert Without<Id>(b, 1) == b && Without<Id>(a, 1) == b && Without<Id>(xs, 1) == [0, 2];
    assert [0, 2][1..] == b && Insert([], 1, alive, e) == d && Insert(b, 1, alive, e) == c;
    assert Rest(xs, Some(1)) == a && Rest(xs, Some(0)) == xs;
  }

  lemma InListBounds(xs: seq<Id>, alive: set<Id>, dead: seq<Id>, expire: map<Id, nat>, n: nat)
    requires Listed(xs, alive, dead, expire, n)
    ensures forall u :: u in alive ==> u in xs && u in expire && u < n
    ensures forall u :: u in xs ==> u < n
  {
  }

  lemma InListBound(xs: seq<Id>, t: Id, alive: set<Id>, dead: seq<Id>, expire: map<Id, nat>, n: nat)
    requires Listed(xs, alive, dead, expire, n) && t in alive
    ensures t in xs && t < n
  {
  }

  lemma FirstLiveOther(xs: seq<Id>, t: Id, alive: set<Id>)
    requires FirstLive(xs, alive) != Some(t)
    ensures FirstLive(xs, alive - {t}) == FirstLive(xs, alive)
  {
  }

  lemma SteadyStart(alive: set<Id>, expire: map<Id, nat>, t: Id, now: nat)
    requires forall u :: u in alive ==> u in expire
    ensures Steady(alive, expire, alive, expire, t, now) && Excused(alive, expire, alive, expire, t, now, [])
  {
  }

  lemma SteadyNone(alive: set<Id>, expire: map<Id, nat>, t: Id, now: nat, a: Action)
    requires forall u :: u in alive ==> u in expire
    ensures Steady(alive, expire, alive, expire, t, now) && Excused(alive, expire, alive, expire, t, now, [a])
  {
  }

  /** A timer that is new, or armed anew. */
  lemma SteadyMove(alive: set<Id>, expire: map<Id, nat>, alive': set<Id>, expire': map<Id, nat>,
                   t: Id, u: Id, now: nat, a: Action)
    requires alive' == alive + {u} && u in expire' && expire'[u] > now && expire' == expire[u := expire'[u]]
    requires (forall v :: v in alive ==> v in expire) && (u !in alive || (a.Mod? && a.t == u))
    ensures Steady(alive, expire, alive', expire', t, now) && Excused(alive, expire, alive', expire', t, now, [a])
  {
    assert [a][0] == a;
  }

  lemma SteadyDel(xs: seq<Id>, x: Option<Id>, alive: set<Id>, alive': set<Id>, expire: map<Id, nat>,
                  t: Id, d: Id, now: nat, off: bool)
    requires alive' == alive - {d} && (forall v :: v in alive ==> v in expire)
    requires Placed(xs, x, t, alive, expire, now, off)
    ensures Steady(alive, expire, alive', expire, t, now) && Excused(alive, expire, alive', expire, t, now, [Del(d)])
    ensures Placed(xs, x, t, alive', expire, now, off)
  {
    hide Rest;
    assert [Del(d)][0] == Del(d);
  }

  lemma NothingAsked()
    ensures forall u :: !Derails([], u) && !Asked([], u)
  {
  }

  lemma SteadyTrans(a0: set<Id>, e0: map<Id, nat>, a1: set<Id>, e1: map<Id, nat>,
                    a2: set<Id>, e2: map<Id, nat>, t: Id, now: nat)
    requires Steady(a0, e0, a1, e1, t, now) && Steady(a1, e1, a2, e2, t, now)
    ensures Steady(a0, e0, a2, e2, t, now)
  {
  }

  lemma ExcusedTrans(a0: set<Id>, e0: map<Id, nat>, a1: set<Id>, e1: map<Id, nat>,
                     a2: set<Id>, e2: map<Id, nat>, t: Id, now: nat, acts: seq<Action>, i: nat)
    requires i < |acts|
    requires Excused(a0, e0, a1, e1, t, now, acts[..i]) && Excused(a1, e1, a2, e2, t, now, [acts[i]])
    ensures Excused(a0, e0, a2, e2, t, now, acts[..i + 1])
  {
    forall u | u in a0 && u in e0 && e0[u] <= now && u != t && !(u in a2 && u in e2 && e2[u] <= now)
      ensures Asked(acts[..i + 1], u)
    {
      AskedMore(acts, i, u);
    }
  }

  lemma SteadySame(a0: set<Id>, e0: map<Id, nat>, a1: set<Id>, e1: map<Id, nat>, e2: map<Id, nat>, t: Id, now: nat)
    requires Steady(a0, e0, a1, e1, t, now)
    requires forall u :: u in e1 && u != t ==> u in e2 && e2[u] == e1[u]
    ensures Steady(a0, e0, a1, e2, t, now)
  {
  }

  lemma ExcusedSame(a0: set<Id>, e0: map<Id, nat>, a1: set<Id>, e1: map<Id, nat>, e2: map<Id, nat>,
                    t: Id, now: nat, acts: seq<Action>)
    requires Excused(a0, e0, a1, e1, t, now, acts)
    requires forall u :: u in e1 && u != t ==> u in e2 && e2[u] == e1[u]
    ensures Excused(a0, e0, a1, e2, t, now, acts)
  {
    hide Asked;
  }

  lemma LogEnd(log: seq<Event>, alive: set<Id>, armed: map<Id, nat>, n: nat, t: Id, time: nat)
    requires Spaced(log) && Logged(log, alive, armed, n) && t < n && (t in alive ==> t in armed && time <= armed[t])
    ensures Spaced(log + [Ended(t, time)]) && Logged(log + [Ended(t, time)], alive, armed, n)
  {
  }
}
