/** The slab-backed hash table, updated in place, against the insertion-ordered
    list `log` of the entries it holds. */
module HashTable {
  import opened Seqs
  import opened HashLog
  import opened HashOrder
  import opened HashTurns
  import opened HashSlab
  import opened HashWalk

  /** Bucket lists and the list of used buckets are what the log dictates. */
  ghost predicate ListsOk(cfg: Config, log: seq<Entry>, buckets: seq<seq<nat>>)
    requires cfg.nbucket > 0 && LogOk(log)
  {
    && |buckets| == cfg.nbucket
    && (forall b: nat :: b < cfg.nbucket ==> buckets[b] == BucketOf(cfg, log, b))
  }

  /** The entry del and replace act on: by cookie alone if a live entry has it. */
  ghost function Target(cfg: Config, log: seq<Entry>, key: Key, cookie: nat): Option<Entry> {
    if cookie != NONE then ByCookie(log, cookie) else First(cfg, log, key, NONE)
  }

  // ----- list updates -----

  lemma AppendLists(cfg: Config, log: seq<Entry>, slots: map<nat, Entry>, buckets: seq<seq<nat>>, e: Entry)
    requires cfg.nbucket > 0 && LogOk(log) && SlotsOk(log, slots) && ListsOk(cfg, log, buckets)
    requires e.cookie != NONE && e.cookie - 1 !in slots
    ensures LogOk(log + [e]) && SlotsOk(log + [e], slots[e.cookie - 1 := e])
    ensures var b, s := cfg.B(e.key), e.cookie - 1;
      && ListsOk(cfg, log + [e], buckets[b := buckets[b] + [s]])
      && forall c :: 0 <= c < |buckets| ==> s !in buckets[c]
  {
    AppendOk(log, e);
    var b, s := cfg.B(e.key), e.cookie - 1;
    var bk := buckets[b := buckets[b] + [s]];
    forall c: nat | c < cfg.nbucket
      ensures bk[c] == BucketOf(cfg, log + [e], c) && s !in buckets[c]
    {
      hide SlotsOk, LogOk, Rebind;
      AppendBucket(cfg, log, e, c);
      BucketMembers(cfg, log, c, slots);
    }
  }

  lemma {:induction false} LinkBoth(cfg: Config, log: seq<Entry>, slots: map<nat, Entry>, buckets: seq<seq<nat>>,
                                    used: seq<nat>, pos: Pos, e: Entry)
    requires Consistent(cfg, log, slots, buckets, used, pos) && e.cookie != NONE && e.cookie - 1 !in slots
    ensures cfg.nbucket > 0 && |buckets| == cfg.nbucket && InRange(used, buckets)
    ensures var b, s := cfg.B(e.key), e.cookie - 1;
      var used', bk := if b in used then used else used + [b], buckets[b := buckets[b] + [s]];
      && Consistent(cfg, log + [e], slots[s := e], bk, used', pos)
      && InRange(used', bk)
      && (forall d: Dir :: Without<nat>(Pending(d, pos, used', bk), s) == Pending(d, pos, used, buckets))
      && forall d: Dir :: Joins(d, IterOrder(d, used, buckets), IterOrder(d, used', bk), s, buckets[b])
  {
    hide Pending, BucketOf, SlotSet, SlotsOk, LogOk, PosOk, Disjoint, IterOrder, Joins;
    AppendLists(cfg, log, slots, buckets, e);
    LinkPending(pos, used, buckets, cfg.B(e.key), e.cookie - 1);
    var used' := if cfg.B(e.key) in used then used else used + [cfg.B(e.key)];
    forall d: Dir {
      LinkJoins(d, used, buckets, cfg.B(e.key), e.cookie - 1);
    }
  }

  lemma {:induction false} DropSlotsOk(log: seq<Entry>, slots: map<nat, Entry>, s: nat)
    requires LogOk(log) && SlotsOk(log, slots) && s in slots
    ensures var log' := Drop(log, s + 1);
      LogOk(log') && SlotsOk(log', slots - {s}) && |log'| == |log| - 1
  {
    hide Drop, SlotSet, LogOk;
    DropOk(log, s + 1);
    DropSlots(log, s + 1);
    SlotSetSize(log);
    SlotSetSize(Drop(log, s + 1));
    DropElements(log, slots, s);
  }

  lemma DropElements(log: seq<Entry>, slots: map<nat, Entry>, s: nat)
    requires LogOk(log) && SlotsOk(log, slots)
    ensures var log' := Drop(log, s + 1);
      forall i :: 0 <= i < |log'| ==> log'[i].cookie - 1 in slots - {s} && (slots - {s})[log'[i].cookie - 1] == log'[i]
  {
    var log' := Drop(log, s + 1);
    forall i | 0 <= i < |log'|
      ensures log'[i].cookie - 1 in slots - {s} && (slots - {s})[log'[i].cookie - 1] == log'[i]
    {
      DropElement(log, slots, s + 1, i);
    }
  }

  lemma {:induction false} DropElement(log: seq<Entry>, slots: map<nat, Entry>, cookie: nat, i: nat)
    requires forall k :: 0 <= k < |log| ==>
      log[k].cookie != NONE && log[k].cookie - 1 in slots && slots[log[k].cookie - 1] == log[k]
    requires i < |Drop(log, cookie)|
    ensures var e := Drop(log, cookie)[i];
      e.cookie != NONE && e.cookie != cookie && e.cookie - 1 in slots && slots[e.cookie - 1] == e
  {
    if log[0].cookie == cookie {
      DropElement(log[1..], slots, cookie, i);
    } else if i > 0 {
      DropElement(log[1..], slots, cookie, i - 1);
    }
  }

  lemma {:induction false} DropLists(cfg: Config, log: seq<Entry>, slots: map<nat, Entry>, buckets: seq<seq<nat>>,
                                     s: nat)
    requires cfg.nbucket > 0 && LogOk(log) && SlotsOk(log, slots) && ListsOk(cfg, log, buckets)
    requires s in slots && LogOk(Drop(log, s + 1))
    ensures var b := cfg.B(slots[s].key);
      s in buckets[b] && ListsOk(cfg, Drop(log, s + 1), buckets[b := Without<nat>(buckets[b], s)])
  {
    var b := cfg.B(slots[s].key);
    var bk := buckets[b := Without<nat>(buckets[b], s)];
    forall c: nat | c < cfg.nbucket ensures bk[c] == BucketOf(cfg, Drop(log, s + 1), c) {
      DropBucket(cfg, log, s + 1, c);
      BucketMembers(cfg, log, c, slots);
      if c != b { WithoutAbsent<nat>(buckets[c], s); }
    }
    BucketMembers(cfg, log, b, slots);
  }

  /** The linked lists of a table agree with its log. */
  ghost predicate Consistent(cfg: Config, log: seq<Entry>, slots: map<nat, Entry>, buckets: seq<seq<nat>>,
                             used: seq<nat>, pos: Pos) {
    && cfg.Ok() && LogOk(log) && SlotsOk(log, slots)
    && ListsOk(cfg, log, buckets)
    && UsedOk(used, buckets) && Disjoint(buckets) && PosOk(pos, used, buckets)
  }

  /** The used list after deleting slot s from its bucket when the emptiness
      check looks at bucket b. */
  function UsedAfter(used: seq<nat>, bk: seq<seq<nat>>, b: nat): seq<nat>
    requires b < |bk|
  {
    if bk[b] == [] then Without<nat>(used, b) else used
  }

  /** Deleting through the right bucket, or from a bucket that keeps an entry. */
  lemma {:induction false} UnlinkGood(cfg: Config, log: seq<Entry>, slots: map<nat, Entry>, buckets: seq<seq<nat>>,
                                      used: seq<nat>, pos: Pos, b: nat, s: nat)
    requires Consistent(cfg, log, slots, buckets, used, pos) && b < |buckets| && s in slots && (pos.At? ==> pos.e != s)
    requires b == cfg.B(slots[s].key) || buckets[cfg.B(slots[s].key)] != [s]
    ensures var home := cfg.B(slots[s].key);
      var bk := buckets[home := Without<nat>(buckets[home], s)];
      && (UsedAfter(used, bk, b), bk) == Unlink(used, buckets, home, s)
      && Consistent(cfg, Drop(log, s + 1), slots - {s}, bk, UsedAfter(used, bk, b), pos)
  {
    var home := cfg.B(slots[s].key);
    BucketMembers(cfg, log, home, slots);
    WithoutShrinks(buckets[home], s);
    PendingUnlink(Forward, pos, used, buckets, home, s);
    var bk := buckets[home := Without<nat>(buckets[home], s)];
    if b != home && bk[b] == [] {
      assert b !in used;
      WithoutAbsent<nat>(used, b);
    }
    DropSlotsOk(log, slots, s);
    DropLists(cfg, log, slots, buckets, s);
  }

  /** Otherwise an empty bucket stays on the used list. */
  lemma {:induction false} UnlinkBad(cfg: Config, log: seq<Entry>, slots: map<nat, Entry>, buckets: seq<seq<nat>>,
                                     used: seq<nat>, pos: Pos, b: nat, s: nat)
    requires Consistent(cfg, log, slots, buckets, used, pos) && b < |buckets| && s in slots
    requires b != cfg.B(slots[s].key) && buckets[cfg.B(slots[s].key)] == [s]
    ensures var home := cfg.B(slots[s].key);
      var bk := buckets[home := Without<nat>(buckets[home], s)];
      !UsedOk(UsedAfter(used, bk, b), bk)
  {
    var home := cfg.B(slots[s].key);
    BucketMembers(cfg, log, home, slots);
    WithoutShrinks(buckets[home], s);
    WithoutMembers<nat>(used, b);
    assert home in used;
  }

  /** The only entry, of bucket 0, deleted by its cookie with a key of bucket 1:
      the next iteration asks for the first bucket for ever. */
  lemma EmptyUsedBucket()
    ensures var bk: seq<seq<nat>> := [Without<nat>([0], 0), []]; var used := UsedAfter([0], bk, 1);
      Advance(Forward, NoPos, used, bk) == Again(None) && NextBucket(Forward, used, bk, None) == Again(None)
  {
    assert Without<nat>([0], 0) == [];
    assert Step(Forward, [0], None) == Some(0);
  }

  lemma {:induction false} UnlinkBoth(cfg: Config, log: seq<Entry>, slots: map<nat, Entry>, buckets: seq<seq<nat>>,
                                      used: seq<nat>, pos: Pos, b: nat, s: nat)
    requires Consistent(cfg, log, slots, buckets, used, pos) && b < |buckets| && s in slots && (pos.At? ==> pos.e != s)
    ensures cfg.nbucket > 0 && |buckets| == cfg.nbucket && InRange(used, buckets)
    ensures |Drop(log, s + 1)| == |log| - 1
    ensures var home := cfg.B(slots[s].key);
      var bk := buckets[home := Without<nat>(buckets[home], s)];
      var ok := b == home || buckets[home] != [s];
      && (Consistent(cfg, Drop(log, s + 1), slots - {s}, bk, UsedAfter(used, bk, b), pos) <==> ok)
      && (ok ==> InRange(UsedAfter(used, bk, b), bk)
                 && (forall d: Dir ::
                       Pending(d, pos, UsedAfter(used, bk, b), bk) == Without<nat>(Pending(d, pos, used, buckets), s))
                 && forall d: Dir ::
                      IterOrder(d, UsedAfter(used, bk, b), bk) == Without<nat>(IterOrder(d, used, buckets), s))
  {
    hide Pending, Unlink, SlotsOk, ListsOk, IterOrder;
    var home := cfg.B(slots[s].key);
    HomeBucket(cfg, log, slots, buckets, s);
    DropSlotsOk(log, slots, s);
    if b == home || buckets[home] != [s] {
      UnlinkGood(cfg, log, slots, buckets, used, pos, b, s);
      UnlinkPending(pos, used, buckets, home, s);
      forall d: Dir {
        IterOrderUnlink(d, used, buckets, home, s);
      }
    } else {
      UnlinkBad(cfg, log, slots, buckets, used, pos, b, s);
    }
  }

  lemma HomeBucket(cfg: Config, log: seq<Entry>, slots: map<nat, Entry>, buckets: seq<seq<nat>>, s: nat)
    requires cfg.nbucket > 0 && LogOk(log) && SlotsOk(log, slots) && ListsOk(cfg, log, buckets) && s in slots
    ensures |buckets| == cfg.nbucket && s in buckets[cfg.B(slots[s].key)] && Distinct<nat>(buckets[cfg.B(slots[s].key)])
  {
    BucketMembers(cfg, log, cfg.B(slots[s].key), slots);
  }

  /** Stepping on from s loses an entry, or starts the order again, exactly unless
      s is all there is. */
  lemma StepOnLoses(order: seq<nat>, s: nat)
    requires Distinct<nat>(order) && s in order
    ensures var p := After<nat>(order, s);
      Without<nat>(if p == [] then order else p[1..], s) == Without<nat>(p, s) <==> forall t :: t in order <==> t == s
  {
    var p := After<nat>(order, s);
    AfterDistinct<nat>(order, s);
    AfterMembers<nat>(order, s);
    WithoutAbsent<nat>(p, s);
    OnlyEntry(order, s);
    if p != [] {
      assert p[0] in p && p[0] in order;
      WithoutLength(p[1..], s);
    }
  }

  /** An order without s is empty exactly if s is all there is. */
  lemma OnlyEntry(order: seq<nat>, s: nat)
    requires s in order
    ensures Without<nat>(order, s) == [] <==> forall t :: t in order <==> t == s
  {
    hide Without;
    WithoutMembers<nat>(order, s);
    if Without<nat>(order, s) == [] {
      forall t | t in order ensures t == s { assert t == s || t in Without<nat>(order, s); }
    } else {
      assert Without<nat>(order, s)[0] in Without<nat>(order, s);
    }
  }

  lemma WithoutHead(xs: seq<nat>, s: nat)
    ensures Without<nat>([s] + xs, s) == Without<nat>(xs, s)
    ensures [] + xs == xs
  {
    assert ([s] + xs)[1..] == xs;
  }

  lemma HeadFirst(xs: seq<nat>)
    ensures xs != [] ==> xs == [xs[0]] + xs[1..]
  {
  }

  lemma WithoutShrinks(xs: seq<nat>, s: nat)
    requires Distinct<nat>(xs) && s in xs
    ensures Without<nat>(xs, s) == [] <==> xs == [s]
  {
    WithoutDistinct<nat>(xs, s);
  }

  lemma {:induction false} RebindSlots(log: seq<Entry>, slots: map<nat, Entry>, s: nat, key: Key, obj: Obj)
    requires LogOk(log) && SlotsOk(log, slots) && s in slots
    ensures LogOk(Rebind(log, s + 1, key, obj))
    ensures SlotsOk(Rebind(log, s + 1, key, obj), slots[s := Entry(key, obj, s + 1)])
  {
    RebindOk(log, s + 1, key, obj);
    assert slots[s := Entry(key, obj, s + 1)].Keys == slots.Keys;
  }

  lemma {:induction false} RebindLists(cfg: Config, log: seq<Entry>, slots: map<nat, Entry>, buckets: seq<seq<nat>>,
                                       s: nat, key: Key, obj: Obj)
    requires cfg.nbucket > 0 && LogOk(log) && SlotsOk(log, slots) && ListsOk(cfg, log, buckets) && s in slots
    ensures LogOk(Rebind(log, s + 1, key, obj))
    ensures ListsOk(cfg, Rebind(log, s + 1, key, obj), buckets) <==> cfg.B(key) == cfg.B(slots[s].key)
  {
    var log', slots' := Rebind(log, s + 1, key, obj), slots[s := Entry(key, obj, s + 1)];
    RebindSlots(log, slots, s, key, obj);
    if cfg.B(key) == cfg.B(slots[s].key) {
      forall c: nat | c < cfg.nbucket ensures buckets[c] == BucketOf(cfg, log', c) {
        RebindBucket(cfg, log, s + 1, key, obj, c);
      }
    } else {
      BucketMembers(cfg, log, cfg.B(key), slots);
      BucketMembers(cfg, log', cfg.B(key), slots');
      assert s in slots' && slots'[s].key == key;
      assert s in BucketOf(cfg, log', cfg.B(key)) && s !in buckets[cfg.B(key)];
    }
  }

  class Table {
    const cfg: Config
    const slab: Slab
    var nentry: nat
    var slots: map<nat, Entry>      // entries whose cookie is set
    var hasBuckets: bool
    var buckets: seq<seq<nat>>      // slots of each bucket, in list order
    var used: seq<nat>              // non-empty buckets, in list order
    var pos: Pos                    // the shared iterator
    var dir: Option<Dir>            // the direction stored with it, if any
    var gen: nat
    ghost var log: seq<Entry>

    ghost predicate Lists() reads this {
      Consistent(cfg, log, slots, buckets, used, pos) && (!hasBuckets ==> log == [])
    }

    ghost predicate Valid() reads this, slab {
      && Lists()
      && slab.Valid() && slab.live == slots.Keys
      && nentry == |log| == |slots.Keys|
    }

    /** Entries that an iteration in direction d has still to visit. */
    ghost function ToVisit(d: Dir): seq<nat>
      reads this
      requires Lists()
    {
      Pending(d, pos, used, buckets)
    }

    /** All entries, in the order of an iteration in direction d. */
    ghost function Whole(d: Dir): seq<nat>
      reads this
      requires Lists()
    {
      IterOrder(d, used, buckets)
    }

    /** The slots of the bucket of a key, in list order. */
    ghost function Mates(key: Key): seq<nat>
      reads this
      requires Lists()
    {
      buckets[cfg.B(key)]
    }

    /** The direction in which del and replace step the iterator off an entry:
        against the stored one; forward when none is stored. */
    function Against(): Dir reads this { if dir.Some? then dir.value.Flip() else Forward }

    /** The iterator stands on entry s. */
    predicate Visits(s: nat) reads this { pos.At? && pos.e == s }

    /** What an iteration in direction d has still to visit once the iterator has
        stepped off entry s, if it stood there: s again, when the step goes
        against d; otherwise one entry less, or all of them when there is none. */
    ghost function Stepped(d: Dir, s: nat): seq<nat>
      reads this
      requires Lists()
    {
      if pos.At? && pos.e == s then Off(d, Against(), pos, used, buckets) else ToVisit(d)
    }

    lemma Facts()
      requires Lists()
      ensures cfg.nbucket > 0 && |buckets| == cfg.nbucket && LogOk(log)
      ensures UsedOk(used, buckets) && Disjoint(buckets) && PosOk(pos, used, buckets)
    {
    }

    constructor (cfg: Config, nlimit: nat)
      requires cfg.Ok()
      ensures Valid() && log == [] && this.cfg == cfg && slab.nlimit == nlimit && fresh(slab)
    {
      this.cfg := cfg;
      slab := new Slab(nlimit);
      nentry, slots := 0, map[];
      hasBuckets, buckets, used := false, seq(cfg.nbucket, _ => []), [];
      pos, dir, gen := NoPos, None, 0;
      log := [];
    }

    /** hash_bucket: the bucket of a key; allocates the bucket array on first use. */
    method HashBucket(key: Key, env: Env) returns (b: Option<nat>)
      requires Valid()
      modifies `hasBuckets
      ensures Valid()
      ensures b == if old(hasBuckets) || env.buckets then Some(cfg.B(key)) else None
      ensures hasBuckets == (old(hasBuckets) || env.buckets)
      ensures b.Some? ==> b.value < |buckets|
    {
      if !hasBuckets && !env.buckets { return None; }
      hasBuckets := true;
      b := Some(cfg.B(key));
    }

    /** hash_entry: walk the key's bucket for the first match. */
    method HashEntry(key: Key, cookie: nat) returns (s: Option<nat>)
      requires Valid()
      ensures s == match First(cfg, log, key, cookie) case None => None case Some(e) => Some(e.cookie - 1)
    {
      var xs := buckets[cfg.B(key)];
      FirstInBucket(cfg, log, slots, key, cookie);
      var i := 0;
      while i < |xs|
        invariant 0 <= i <= |xs|
        invariant forall x :: x in xs[i..] ==> x in slots
        invariant FirstIn(cfg, xs[i..], slots, key, cookie) == FirstIn(cfg, xs, slots, key, cookie)
      {
        var e := slots[xs[i]];
        if cfg.comp(key, e.key) == 0 && (cookie == NONE || e.cookie == cookie) {
          return Some(xs[i]);
        }
        assert xs[i..][1..] == xs[i + 1..];
        i := i + 1;
      }
      return None;
    }

    /** iot_hashtbl_lookup. */
    method Lookup(key: Key, cookie: nat, env: Env) returns (r: Option<Obj>)
      requires Valid()
      modifies `hasBuckets, slab`nalloc, slab`nlast, slab`chunks, slab`space
      ensures Valid() && forall d: Dir :: ToVisit(d) == old(ToVisit(d))
      ensures r == match First(cfg, log, key, cookie) case None => None case Some(e) => Some(e.obj)
    {
      hide Consistent, Pending, First, ByCookie, Slab.Valid;
      LookupFacts(key, cookie);
      var b := HashBucket(key, env);
      if b.None? { return None; }
      var s: Option<nat> := None;
      if cookie != NONE {
        s := slab.CookieEntry(cookie, env);
        if s.None? || s.value !in slots || slots[s.value].cookie != cookie || cfg.comp(key, slots[s.value].key) != 0 {
          s := HashEntry(key, cookie);
        }
      } else {
        s := HashEntry(key, cookie);
      }
      if s.None? { return None; }
      r := Some(slots[s.value].obj);
    }

    lemma LookupFacts(key: Key, cookie: nat)
      requires Lists()
      ensures !hasBuckets ==> First(cfg, log, key, cookie) == None
      ensures match First(cfg, log, key, cookie)
        case None => true
        case Some(e) => e.cookie != NONE && e.cookie - 1 in slots && slots[e.cookie - 1] == e
      ensures cookie != NONE && cookie - 1 in slots && slots[cookie - 1].cookie == cookie ==>
        cfg.comp(key, slots[cookie - 1].key) == 0 ==> First(cfg, log, key, cookie) == Some(slots[cookie - 1])
    {
      FirstSlot(key, cookie);
      if cookie != NONE {
        FirstByCookie(cfg, log, key, cookie);
        CookieSlot(cookie);
      }
    }

    /** The slot of a cookie holds the live entry of that cookie, if any. */
    lemma CookieSlot(cookie: nat)
      requires Lists() && cookie != NONE
      ensures cookie - 1 in slots ==>
        ByCookie(log, cookie) == Some(slots[cookie - 1]) && slots[cookie - 1].cookie == cookie
      ensures cookie - 1 !in slots ==> ByCookie(log, cookie).None?
    {
      if cookie - 1 in slots {
        var i := SlotSetWitness(log, cookie - 1);
        ByCookieFinds(log, i);
      } else {
        ByCookieIsMember(log, cookie);
      }
    }

    /** An entry found by its cookie has that cookie. */
    lemma TargetCookie(key: Key, cookie: nat)
      requires Lists()
      ensures cookie != NONE && Target(cfg, log, key, cookie).Some? ==>
        Target(cfg, log, key, cookie).value.cookie == cookie
    {
      ByCookieIsMember(log, cookie);
    }

    lemma NoTarget(key: Key, cookie: nat)
      requires Lists() && cookie != NONE && Target(cfg, log, key, cookie).None?
      ensures cookie - 1 !in slots
    {
      CookieSlot(cookie);
    }

    lemma FirstSlot(key: Key, cookie: nat)
      requires Lists()
      ensures match First(cfg, log, key, cookie)
        case None => true
        case Some(e) => e.cookie != NONE && e.cookie - 1 in slots && slots[e.cookie - 1] == e && e in log
                        && ByCookie(log, e.cookie) == Some(e)
    {
      if First(cfg, log, key, cookie).Some? {
        FirstIsMember(cfg, log, key, cookie);
        var e := First(cfg, log, key, cookie).value;
        var i :| 0 <= i < |log| && log[i] == e;
        ByCookieFinds(log, i);
      }
    }

    /** Whether an add can get a slot: not at the limit, and a slot is left or
        one more chunk can be had. */
    ghost predicate Room(env: Env) reads this, slab {
      && (slab.nlimit > 0 ==> nentry < slab.nlimit)
      && (nentry < slab.nalloc || (env.resize && env.chunks >= 1))
    }

    /** iot_hashtbl_add without a caller-chosen cookie. It fails for lack of a
        slot only at the limit or when memory runs out. A failure to allocate
        the bucket array comes after the slot was taken, and leaks it. */
    method Add(key: Key, obj: Obj, env: Env) returns (cookie: Option<nat>)
      requires Valid()
      modifies this, slab
      ensures dir == old(dir) && gen == old(gen) && pos == old(pos)
      ensures cookie.Some? <==> old(Room(env)) && (old(hasBuckets) || env.buckets)
      ensures cookie.Some? ==>
        && Valid() && 0 < cookie.value && log == old(log) + [Entry(key, obj, cookie.value)]
        && (forall d: Dir :: Without<nat>(ToVisit(d), cookie.value - 1) == old(ToVisit(d)))
        && forall d: Dir :: Joins(d, old(Whole(d)), Whole(d), cookie.value - 1, old(Mates(key)))
      ensures cookie.None? ==> log == old(log)
      ensures Valid() <==> (old(Room(env)) ==> old(hasBuckets) || env.buckets)
      ensures cookie.None? && Valid() ==> forall d: Dir :: ToVisit(d) == old(ToVisit(d))
    {
      hide Consistent, Pending, Slab.Valid, Whole, Mates, Joins;
      var k := TakeSlot(env);
      if k.None? { return None; }
      var e := Entry(key, obj, k.value + 1);
      if !hasBuckets && !env.buckets {
        slots := slots[k.value := e];
        assert slots.Keys == old(slots.Keys) + {k.value};
        assert |slots.Keys| == old(|slots.Keys|) + 1;
        return None;
      }
      Link(e);
      cookie := Some(e.cookie);
    }

    /** The limit check, the growth and the slot search of an add. */
    method TakeSlot(env: Env) returns (k: Option<nat>)
      requires Valid()
      modifies slab
      ensures slab.Valid()
      ensures k.Some? <==> old(Room(env))
      ensures k.Some? ==> k.value !in slots && slab.live == slots.Keys + {k.value}
      ensures k.None? ==> slab.live == slots.Keys
    {
      if slab.nlimit != 0 && nentry >= slab.nlimit { return None; }
      if slab.nalloc <= nentry {
        LiveBound(slab.live, slab.nalloc);
        var n := if slab.nalloc + NPER < slab.nlimit then NPER
                 else if slab.nlimit != 0 then slab.nlimit - slab.nalloc
                 else NPER;
        var _ := slab.AllocateChunks(n, env);
      }
      k := slab.AllocEntry();
    }

    /** Fill the entry's slot and append it to its bucket. */
    method Link(e: Entry)
      requires Lists() && e.cookie != NONE && e.cookie - 1 !in slots
      modifies `slots, `hasBuckets, `buckets, `used, `nentry, `log
      ensures Lists() && log == old(log) + [e] && slots.Keys == old(slots.Keys) + {e.cookie - 1}
      ensures hasBuckets && nentry == old(nentry) + 1
      ensures forall d: Dir :: Without<nat>(ToVisit(d), e.cookie - 1) == old(ToVisit(d))
      ensures forall d: Dir :: Joins(d, old(Whole(d)), Whole(d), e.cookie - 1, old(Mates(e.key)))
    {
      hide Consistent, Pending, IterOrder, Joins;
      LinkBoth(cfg, log, slots, buckets, used, pos, e);
      var s, b := e.cookie - 1, cfg.B(e.key);
      assert slots[s := e].Keys == slots.Keys + {s};
      slots, hasBuckets, buckets, used, nentry, log :=
        slots[s := e], true, buckets[b := buckets[b] + [s]],
        if b in used then used else used + [b], nentry + 1, log + [e];
    }

    /** Find the entry for del and replace. */
    method FindTarget(key: Key, cookie: nat, env: Env) returns (s: Option<nat>)
      requires Valid()
      modifies slab`nalloc, slab`nlast, slab`chunks, slab`space
      ensures Valid() && slab.live == old(slab.live)
      ensures cookie == NONE ==> slab.nalloc == old(slab.nalloc)
      ensures cookie != NONE ==> (cookie <= slab.nalloc <==> old(slab.Reaches(cookie, env)))
      ensures s == match Target(cfg, log, key, cookie) case None => None case Some(e) => Some(e.cookie - 1)
      ensures s.Some? ==>
        && s.value in slots && slots[s.value] == Target(cfg, log, key, cookie).value
        && slots[s.value].cookie == s.value + 1
    {
      s := None;
      FirstSlot(key, cookie);
      if cookie != NONE {
        FirstByCookie(cfg, log, key, cookie);
        CookieSlot(cookie);
        s := slab.CookieEntry(cookie, env);
        if s.None? || s.value !in slots || slots[s.value].cookie != cookie {
          s := HashEntry(key, cookie);
        }
      } else {
        s := HashEntry(key, cookie);
      }
    }

    /** If the iterator stands on s, move it one place against the stored
        direction. Running off the end puts that direction back. */
    method Retreat(s: nat)
      requires Lists() && s in slots
      modifies `pos
      ensures Lists() && (pos.At? ==> pos.e != s) && (!old(Visits(s)) ==> pos == old(pos))
      ensures forall d: Dir :: ToVisit(d) == old(Stepped(d, s)) && Whole(d) == old(Whole(d))
    {
      hide Pending, IterOrder, Off, LogOk, SlotsOk, ListsOk, UsedOk, Disjoint, PosOk, Advance;
      InReach();
      if pos.At? && pos.e == s {
        StepOff(Against(), pos, used, buckets);
        var back := Advance(Against(), pos, used, buckets);
        pos := if back.Found? then At(back.b, back.e) else NoPos;
      }
    }

    lemma InReach()
      requires Lists()
      ensures InRange(used, buckets) && (pos.At? ==> pos.b < |buckets|)
    {
    }

    /** Unlink entry s, and bucket b if that is now empty: b is the bucket of the
        key the caller passed, which need not be the bucket s is in. */
    method UnlinkEntry(b: nat, s: nat)
      requires Lists() && nentry == |log| && b < |buckets| && s in slots && (pos.At? ==> pos.e != s)
      modifies `slots, `buckets, `used, `nentry, `log
      ensures log == Drop(old(log), s + 1) && slots == old(slots) - {s}
      ensures |log| == old(|log|) - 1 && nentry == old(nentry) - 1
      ensures Lists() <==> b == cfg.B(old(slots)[s].key) || old(buckets)[cfg.B(old(slots)[s].key)] != [s]
      ensures Lists() ==> forall d: Dir :: ToVisit(d) == Without<nat>(old(ToVisit(d)), s)
      ensures Lists() ==> forall d: Dir :: Whole(d) == Without<nat>(old(Whole(d)), s)
    {
      hide Consistent, Pending, IterOrder, Drop, Unlink, UsedAfter, LogOk, InRange;
      UnlinkBoth(cfg, log, slots, buckets, used, pos, b, s);
      var home := cfg.B(slots[s].key);
      var bk := buckets[home := Without<nat>(buckets[home], s)];
      slots, buckets, used, nentry, log :=
        slots - {s}, bk, UsedAfter(used, bk, b), nentry - 1, Drop(log, s + 1);
    }

    /** iot_hashtbl_del. A cookie is looked up without regard to the key; if then
        the key belongs to another bucket and the entry was the last one in its
        own, that bucket stays on the used list although it is empty. */
    method Del(key: Key, cookie: nat, env: Env) returns (r: Option<Obj>)
      requires Valid()
      modifies this, slab
      ensures dir == old(dir) && gen == old(gen)
      ensures match Target(cfg, old(log), key, cookie)
        case None =>
          && r == None && Valid() && log == old(log) && pos == old(pos)
          && forall d: Dir :: ToVisit(d) == old(ToVisit(d))
        case Some(e) =>
          && r == Some(e.obj) && log == Drop(old(log), e.cookie)
          && e.cookie != NONE && (!old(Visits(e.cookie - 1)) ==> pos == old(pos))
          && (Valid() <==> cfg.B(key) == cfg.B(e.key) || old(buckets)[cfg.B(e.key)] != [e.cookie - 1])
          && (Valid() ==> forall d: Dir :: ToVisit(d) == Without<nat>(old(Stepped(d, e.cookie - 1)), e.cookie - 1))
          && (Valid() ==> forall d: Dir :: Whole(d) == Without<nat>(old(Whole(d)), e.cookie - 1))
    {
      hide Consistent, Pending, IterOrder, Without, Drop, SlabOk, LimitOk, First, ByCookie, Slab.Valid;
      var b, t := Locate(key, cookie, env);
      if t.None? { return None; }
      r := Some(slots[t.value].obj);
      Remove(b, t.value);
    }

    /** The bucket of the key and the entry to act on: the start of del and replace. */
    method Locate(key: Key, cookie: nat, env: Env) returns (b: nat, t: Option<nat>)
      requires Valid()
      modifies `hasBuckets, slab`nalloc, slab`nlast, slab`chunks, slab`space
      ensures Valid() && (hasBuckets <==> old(hasBuckets) || env.buckets)
      ensures forall d: Dir :: ToVisit(d) == old(ToVisit(d)) && Whole(d) == old(Whole(d))
      ensures b == cfg.B(key) < |buckets|
      ensures cookie == NONE || !hasBuckets ==> slab.nalloc == old(slab.nalloc)
      ensures cookie != NONE && hasBuckets ==> (cookie <= slab.nalloc <==> old(slab.Reaches(cookie, env)))
      ensures t == match Target(cfg, log, key, cookie) case None => None case Some(e) => Some(e.cookie - 1)
      ensures t.Some? ==>
        && t.value in slots && slots[t.value] == Target(cfg, log, key, cookie).value
        && slots[t.value].cookie == t.value + 1
    {
      hide Consistent, Pending, IterOrder, SlabOk, LimitOk, First, ByCookie, Slab.Valid;
      NoBuckets(key, cookie);
      b, t := cfg.B(key), None;
      var bucket := HashBucket(key, env);
      if bucket.Some? {
        t := FindTarget(key, cookie, env);
      }
    }

    lemma NoBuckets(key: Key, cookie: nat)
      requires Lists()
      ensures cfg.nbucket > 0 && |buckets| == cfg.nbucket
      ensures !hasBuckets ==> Target(cfg, log, key, cookie) == None
    {
    }

    /** Take entry s out of the table; b is the bucket del looked up for its key. */
    method Remove(b: nat, s: nat)
      requires Valid() && b < |buckets| && s in slots
      modifies this, slab
      ensures dir == old(dir) && gen == old(gen) && log == Drop(old(log), s + 1)
      ensures !old(Visits(s)) ==> pos == old(pos)
      ensures Valid() <==> b == cfg.B(old(slots)[s].key) || old(buckets)[cfg.B(old(slots)[s].key)] != [s]
      ensures Valid() ==> forall d: Dir :: ToVisit(d) == Without<nat>(old(Stepped(d, s)), s)
      ensures Valid() ==> forall d: Dir :: Whole(d) == Without<nat>(old(Whole(d)), s)
    {
      hide Consistent, Pending, IterOrder, Without, Drop, SlabOk, LimitOk, Slab.Valid;
      Retreat(s);
      slab.FreeEntry(s);
      UnlinkEntry(b, s);
    }

    /** Whether an add with a caller-chosen cookie stores the entry. */
    ghost predicate Stores(cookie: nat, env: Env) reads this, slab {
      (slab.nlimit > 0 ==> nentry < slab.nlimit) && slab.Reaches(cookie, env)
    }

    /** iot_hashtbl_add with a caller-chosen cookie: the slot is used without
        marking it in its chunk's mask, and even if a live entry is in it. */
    method AddAt(key: Key, obj: Obj, cookie: nat, env: Env) returns (ok: bool)
      requires Valid() && cookie != NONE
      modifies this, slab
      ensures Valid() <==> !old(Stores(cookie, env))
      ensures ok <==> old(Stores(cookie, env)) && (old(hasBuckets) || env.buckets)
      ensures log == if ok && cookie - 1 !in old(slots) then old(log) + [Entry(key, obj, cookie)] else old(log)
      ensures dir == old(dir) && gen == old(gen) && pos == old(pos)
      ensures Valid() ==> log == old(log) && forall d: Dir :: ToVisit(d) == old(ToVisit(d))
    {
      hide Consistent, Pending, SlabOk, LimitOk, Slab.Valid;
      ok := false;
      Facts();
      if slab.nlimit != 0 && nentry >= slab.nlimit { return; }
      var s := slab.CookieEntry(cookie, env);
      if s.None? { return; }
      var e := Entry(key, obj, cookie);
      ok := hasBuckets || env.buckets;
      if s.value in slots {
        NoneStored();
        Overwrite(e);
      } else if ok {
        Link(e);
        assert s.value in slots;
      } else {
        slots := slots[s.value := e];
        assert s.value in slots;
      }
    }

    /** The entry of a slot in use linked a second time. */
    method Overwrite(e: Entry)
      requires Valid() && hasBuckets && e.cookie != NONE && e.cookie - 1 in slots && cfg.B(e.key) < |buckets|
      modifies `slots, `buckets, `nentry
      ensures !Valid()
    {
      var b := cfg.B(e.key);
      slots, buckets := slots[e.cookie - 1 := e], buckets[b := buckets[b] + [e.cookie - 1]];
      nentry := nentry + 1;
    }

    /** Without buckets there is no entry. */
    lemma NoneStored()
      requires Lists()
      ensures !hasBuckets ==> slots.Keys == {}
    {
    }

    /** The add at the end of a replace that found nothing; c is the new cookie. */
    method AddMissing(key: Key, cookie: nat, obj: Obj, env: Env) returns (ghost c: Option<nat>)
      requires Valid() && Target(cfg, log, key, cookie).None?
      modifies this, slab
      ensures dir == old(dir) && gen == old(gen) && pos == old(pos)
      ensures c.Some? <==> cookie == NONE && old(Room(env)) && (old(hasBuckets) || env.buckets)
      ensures c.Some? ==>
        && Valid() && 0 < c.value && log == old(log) + [Entry(key, obj, c.value)]
        && (forall d: Dir :: Without<nat>(ToVisit(d), c.value - 1) == old(ToVisit(d)))
        && forall d: Dir :: Joins(d, old(Whole(d)), Whole(d), c.value - 1, old(Mates(key)))
      ensures c.None? && Valid() ==> log == old(log) && forall d: Dir :: ToVisit(d) == old(ToVisit(d))
      ensures c.None? && !Valid() ==> log == old(log) || log == old(log) + [Entry(key, obj, cookie)]
      ensures cookie == NONE ==> (Valid() <==> (old(Room(env)) ==> old(hasBuckets) || env.buckets))
      ensures cookie != NONE ==> (Valid() <==> !old(Stores(cookie, env)))
    {
      hide Consistent, Pending, SlabOk, LimitOk, First, ByCookie, Slab.Valid;
      c := None;
      if cookie == NONE {
        c := Add(key, obj, env);
      } else {
        NoTarget(key, cookie);
        var _ := AddAt(key, obj, cookie, env);
      }
    }

    /** The object-swapping half of iot_hashtbl_replace. */
    method Rebinding(s: nat, key: Key, obj: Obj)
      requires Lists() && s in slots
      modifies `slots, `log
      ensures log == Rebind(old(log), s + 1, key, obj) && |log| == |old(log)| && slots.Keys == old(slots.Keys)
      ensures Lists() <==> cfg.B(key) == cfg.B(old(slots)[s].key)
      ensures Lists() ==> forall d: Dir :: ToVisit(d) == old(ToVisit(d)) && Whole(d) == old(Whole(d))
    {
      hide SlotsOk, ListsOk, LogOk, UsedOk, Disjoint, PosOk, Pending, IterOrder;
      RebindSlots(log, slots, s, key, obj);
      RebindLists(cfg, log, slots, buckets, s, key, obj);
      var slots', log' := slots[s := Entry(key, obj, s + 1)], Rebind(log, s + 1, key, obj);
      assert slots'.Keys == slots.Keys;
      assert SlotsOk(log', slots') && (ListsOk(cfg, log', buckets) <==> cfg.B(key) == cfg.B(slots[s].key));
      slots, log := slots', log';
    }

    /** iot_hashtbl_replace. On a hit the entry keeps its place; the table stays
        sound iff the new key falls into the entry's bucket. On a miss it adds, under
        the cookie c; if a cookie was given, that is a caller-chosen cookie. */
    method Replace(key: Key, cookie: nat, obj: Obj, env: Env) returns (r: Option<Obj>, ghost c: Option<nat>)
      requires Valid()
      modifies this, slab
      ensures dir == old(dir) && gen == old(gen)
      ensures match Target(cfg, old(log), key, cookie)
        case Some(e) =>
          && r == Some(e.obj) && log == Rebind(old(log), e.cookie, key, obj) && e.cookie != NONE && c == None
          && (!old(Visits(e.cookie - 1)) ==> pos == old(pos))
          && (Valid() <==> cfg.B(key) == cfg.B(e.key))
          && (Valid() ==>
                forall d: Dir :: ToVisit(d) == old(Stepped(d, e.cookie - 1)) && Whole(d) == old(Whole(d)))
        case None =>
          && r == None && pos == old(pos)
          && (c.Some? <==> cookie == NONE && old(Room(env)) && (old(hasBuckets) || env.buckets))
          && (c.Some? ==>
                && Valid() && 0 < c.value && log == old(log) + [Entry(key, obj, c.value)]
                && (forall d: Dir :: Without<nat>(ToVisit(d), c.value - 1) == old(ToVisit(d)))
                && forall d: Dir :: Joins(d, old(Whole(d)), Whole(d), c.value - 1, old(Mates(key))))
          && (c.None? && Valid() ==> log == old(log) && forall d: Dir :: ToVisit(d) == old(ToVisit(d)))
          && (c.None? && !Valid() ==> log == old(log) || log == old(log) + [Entry(key, obj, cookie)])
          && (cookie == NONE ==> (Valid() <==> (old(Room(env)) ==> old(hasBuckets) || env.buckets)))
          && (cookie != NONE ==> (Valid() <==> !old(Stores(cookie, env))))
    {
      hide Consistent, Pending, SlabOk, LimitOk, First, ByCookie, Rebind, Slab.Valid;
      var b, t := Locate(key, cookie, env);
      r, c := None, None;
      if t.None? {
        // memory for chunks that ran out while looking for the entry is still out
        c := AddMissing(key, cookie, obj, if cookie != NONE && hasBuckets then env.(chunks := 0) else env);
        return;
      }
      r := Some(slots[t.value].obj);
      Renew(t.value, key, obj);
    }

    /** The found half of iot_hashtbl_replace. */
    method Renew(s: nat, key: Key, obj: Obj)
      requires Valid() && s in slots
      modifies `pos, `slots, `log
      ensures log == Rebind(old(log), s + 1, key, obj) && (!old(Visits(s)) ==> pos == old(pos))
      ensures Valid() <==> cfg.B(key) == cfg.B(old(slots)[s].key)
      ensures Valid() ==> forall d: Dir :: ToVisit(d) == old(Stepped(d, s)) && Whole(d) == old(Whole(d))
    {
      hide Consistent, Pending, Rebind, SlabOk, LimitOk, Slab.Valid;
      Retreat(s);
      Rebinding(s, key, obj);
    }

    /** _iot_hashtbl_begin. */
    method Begin(d: Dir) returns (g: nat)
      requires Valid()
      modifies `pos, `dir, `gen
      ensures Valid() && dir == Some(d) && gen == g == old(gen) + 1
      ensures pos == NoPos && ToVisit(d) == IterOrder(d, used, buckets)
      ensures AllLive(log, ToVisit(d)) && InTurn(cfg, log, d, ToVisit(d))
    {
      hide InTurn;
      VisitsInTurn(d);
      pos, dir, gen := NoPos, Some(d), gen + 1;
      g := gen;
      WholeOrder(d);
    }

    /** What is still to visit, and all there is, comes bucket by bucket in the
        order in which it was added, backwards the other way round. */
    lemma VisitsInTurn(d: Dir)
      requires Lists()
      ensures cfg.nbucket > 0 && InTurn(cfg, log, d, ToVisit(d)) && InTurn(cfg, log, d, Whole(d))
    {
      hide Disjoint, PosOk, SlotsOk, InTurn, Pending, BucketOf, IterOrder;
      WholeInTurn(cfg, log, used, buckets, d);
      PendingInTurn(cfg, log, pos, used, buckets, d);
    }

    lemma WholeOrder(d: Dir)
      requires Lists()
      ensures var p := IterOrder(d, used, buckets);
        Distinct<nat>(p) && AllLive(log, p) && forall s :: s in slots <==> s in p
    {
      hide Consistent, SlotsOk, Disjoint, PosOk;
      Facts();
      var p := IterOrder(d, used, buckets);
      OrderCovers(d);
      forall i | 0 <= i < |p| ensures ByCookie(log, p[i] + 1).Some? {
        assert p[i] in p;
        CookieSlot(p[i] + 1);
      }
    }

    lemma OrderCovers(d: Dir)
      requires Lists()
      ensures var p := IterOrder(d, used, buckets);
        Distinct<nat>(p) && forall s :: s in slots <==> s in p
    {
      hide SlotsOk, LogOk, Disjoint, IterOrder, BucketOf;
      var p := IterOrder(d, used, buckets);
      PendingDistinct(d, NoPos, used, buckets);
      forall b | 0 <= b < |buckets| ensures forall s :: s in buckets[b] <==> s in slots && cfg.B(slots[s].key) == b {
        BucketMembers(cfg, log, b, slots);
      }
      forall s | s in slots ensures s in p {
        assert s in buckets[cfg.B(slots[s].key)];
      }
    }

    /** What is still to visit is live, and comes once; the current entry is not
        part of it. */
    lemma PendingLive(d: Dir)
      requires Lists()
      ensures Distinct<nat>(ToVisit(d)) && AllLive(log, ToVisit(d))
      ensures pos.At? ==> pos.e !in ToVisit(d)
      ensures forall s :: s in slots ==> slots[s].cookie == s + 1 && ByCookie(log, s + 1) == Some(slots[s])
    {
      hide SlotsOk, LogOk, Disjoint, IterOrder, BucketOf, ByCookie;
      var p := ToVisit(d);
      PendingDistinct(d, pos, used, buckets);
      NotPending(d);
      forall b | 0 <= b < |buckets| ensures forall s :: s in buckets[b] ==> s in slots {
        BucketMembers(cfg, log, b, slots);
      }
      forall s | s in slots ensures slots[s].cookie == s + 1 && ByCookie(log, s + 1) == Some(slots[s]) {
        CookieSlot(s + 1);
      }
      forall i | 0 <= i < |p| ensures ByCookie(log, p[i] + 1).Some? { assert p[i] in p && p[i] in slots; }
    }

    /** In the stored direction the step is back. */
    lemma StepsBack(d: Dir)
      requires Lists() && dir == Some(d)
      ensures forall s: nat :: Stepped(d, s) == (if Visits(s) then [s] else []) + ToVisit(d)
      ensures forall s: nat :: Without<nat>(Stepped(d, s), s) == Without<nat>(ToVisit(d), s)
    {
      hide Consistent, Pending;
      InReach();
      forall s: nat ensures Stepped(d, s) == (if Visits(s) then [s] else []) + ToVisit(d)
        && Without<nat>(Stepped(d, s), s) == Without<nat>(ToVisit(d), s)
      {
        WithoutHead(ToVisit(d), s);
        assert [] + ToVisit(d) == ToVisit(d);
      }
    }

    lemma OnEntry()
      requires Lists() && pos.At?
      ensures pos.e in slots
    {
      hide SlotsOk, LogOk, Disjoint, BucketOf;
      BucketMembers(cfg, log, pos.b, slots);
    }

    lemma NotPending(d: Dir)
      requires Lists()
      ensures pos.At? ==> pos.e !in ToVisit(d)
    {
      hide IterOrder;
      if pos.At? {
        OrderCovers(d);
        AfterDistinct<nat>(IterOrder(d, used, buckets), pos.e);
      }
    }

    /** _iot_hashtbl_iter in direction d, with the generation g the caller began
        with. The end of the iteration, and a call with an outdated generation,
        reset the shared iterator and clear its stored direction. */
    method Iter(g: nat, d: Dir) returns (s: Option<nat>)
      requires Valid()
      modifies `pos, `dir
      ensures Valid()
      ensures s.Some? ==>
        g == gen && old(ToVisit(d)) == [s.value] + ToVisit(d) && dir == old(dir) && pos.At? && pos.e == s.value
      ensures s.None? ==> (g == gen ==> old(ToVisit(d)) == []) && pos == NoPos && dir == None
      ensures s.None? ==> ToVisit(d) == IterOrder(d, used, buckets)
      ensures InTurn(cfg, log, d, old(ToVisit(d)))
    {
      hide Consistent, Pending, Advance, PosOk, Disjoint, InTurn;
      VisitsInTurn(d);
      IterStep(d);
      if g != gen {
        pos, dir := NoPos, None;
        return None;
      }
      var a := Advance(d, pos, used, buckets);
      if a.Found? {
        pos, s := At(a.b, a.e), Some(a.e);
      } else {
        pos, dir, s := NoPos, None, None;
      }
    }

    lemma IterStep(d: Dir)
      requires Lists()
      ensures InRange(used, buckets) && (pos.At? ==> pos.b < |buckets|)
      ensures var a := Advance(d, pos, used, buckets);
        var next := if a.Found? then At(a.b, a.e) else NoPos;
        && Consistent(cfg, log, slots, buckets, used, next)
        && Pending(d, pos, used, buckets) == if a.Found? then [a.e] + Pending(d, next, used, buckets) else []
      ensures Consistent(cfg, log, slots, buckets, used, NoPos)
      ensures Pending(d, NoPos, used, buckets) == IterOrder(d, used, buckets)
    {
      AdvanceTakesHead(d, pos, used, buckets);
      HeadFirst(Pending(d, pos, used, buckets));
    }

    /** Deleting entry s takes just s from what an iteration in direction d has
        still to visit, exactly unless the iterator stands on s, the stored
        direction makes it step on, not back, and there are other entries. */
    lemma {:induction false} Undisturbed(d: Dir, s: nat)
      requires Lists() && s in slots
      ensures Without<nat>(Stepped(d, s), s) == Without<nat>(ToVisit(d), s)
         <==> !(pos.At? && pos.e == s) || Against() == d.Flip() || slots.Keys == {s}
    {
      hide Consistent, IterOrder, Without, After;
      InReach();
      if pos.At? && pos.e == s {
        OrderCovers(d);
        WithoutHead(ToVisit(d), s);
        StepOnLoses(IterOrder(d, used, buckets), s);
      }
    }

    /** Carry out what a loop body asks for. */
    method Apply(rs: seq<Request>, env: Env) returns (ds: seq<nat>)
      requires Valid() && dir.Some?
      modifies this, slab
      ensures Valid() && gen == old(gen) && dir == old(dir)
      ensures (log, ds) == DropAll(cfg, old(log), rs)
      ensures ToVisit(dir.value) == WithoutAll(old(ToVisit(dir.value)), ds)
      decreases rs
    {
      hide Consistent, Pending, First, ByCookie, Slab.Valid;
      Facts();
      if rs == [] { return []; }
      ghost var e := Asked(cfg, log, rs[0]);
      if e.Some? { AskedIsLive(cfg, log, rs[0]); }
      var d := ApplyOne(rs[0], env);
      ds := Apply(rs[1..], env);
      if d.Some? {
        ds := [d.value] + ds;
      }
    }

    method ApplyOne(r: Request, env: Env) returns (d: Option<nat>)
      requires Valid() && dir.Some?
      modifies this, slab
      ensures Valid() && gen == old(gen) && dir == old(dir)
      ensures match Asked(cfg, old(log), r)
        case None => d == None && log == old(log) && ToVisit(dir.value) == old(ToVisit(dir.value))
        case Some(e) => e.cookie != NONE && d == Some(e.cookie - 1) && log == Drop(old(log), e.cookie)
                        && ToVisit(dir.value) == Without<nat>(old(ToVisit(dir.value)), e.cookie - 1)
    {
      hide Consistent, Pending, Drop, Slab.Valid;
      match r
      case ByKey(k) =>
        FirstSlot(k, NONE);
        HomeOfFirst(k);
        d := HashEntry(k, NONE);
        if d.Some? { Undisturbed(dir.value, d.value); }
        var _ := Del(k, NONE, env);
      case BySlot(s) =>
        CookieSlot(s + 1);
        if s in slots {
          Undisturbed(dir.value, s);
          var _ := Del(slots[s].key, s + 1, env);
          d := Some(s);
        } else {
          d := None;
        }
    }

    lemma HomeOfFirst(key: Key)
      requires Lists()
      ensures match First(cfg, log, key, NONE) case None => true case Some(e) => cfg.B(key) == cfg.B(e.key)
    {
      if First(cfg, log, key, NONE).Some? {
        FirstIsMember(cfg, log, key, NONE);
      }
    }

    /** Loop over all entries in direction d; the body may delete any entries.
        Nothing is yielded twice or after its deletion, and a body that never
        stops the loop is given every entry that it does not delete first. */
    method ForEach(d: Dir, body: Body, env: Env) returns (trace: seq<Event>)
      requires Valid()
      modifies this, slab
      ensures Valid()
      ensures trace == Remaining(cfg, old(log), IterOrder(d, old(used), old(buckets)), true, body, [])
      ensures Orderly(trace, IterOrder(d, old(used), old(buckets)))
      ensures (forall t, e :: body(t, e).more) ==>
        forall s :: s in old(slots) ==> Yielded(s) in trace || Deleted(s) in trace
    {
      hide Consistent, Pending, AllLive, Remaining, Orderly, Slab.Valid;
      Guarantee(d, body);
      trace := Loop(d, body, env);
    }

    lemma Guarantee(d: Dir, body: Body)
      requires Lists()
      ensures InRange(used, buckets) && LogOk(log) && AllLive(log, IterOrder(d, used, buckets))
      ensures var order := IterOrder(d, used, buckets);
        var trace := Remaining(cfg, log, order, true, body, []);
        && Orderly(trace, order)
        && ((forall t, e :: body(t, e).more) ==> forall s :: s in slots ==> Yielded(s) in trace || Deleted(s) in trace)
    {
      WholeOrder(d);
      DeletionSafe(cfg, log, IterOrder(d, used, buckets), body, []);
    }

    /** Between two passes: with cur just yielded, the events so far and those to
        come make up goal. */
    ghost predicate Midway(g: nat, d: Dir, cur: Option<nat>, more: bool, pending: seq<nat>, body: Body,
                           trace: seq<Event>, goal: seq<Event>)
      reads this, slab
    {
      && Valid() && gen == g && AllLive(log, pending)
      && (more ==> pending == if cur.Some? then [cur.value] + ToVisit(d) else [])
      && (more && cur.Some? ==> dir == Some(d))
      && trace + Remaining(cfg, log, pending, more, body, trace) == goal
    }

    method Loop(d: Dir, body: Body, env: Env) returns (trace: seq<Event>)
      requires Valid()
      modifies this, slab
      ensures Valid()
      ensures trace == Remaining(cfg, old(log), IterOrder(d, old(used), old(buckets)), true, body, [])
    {
      hide Midway, Consistent, Remaining;
      var g, cur;
      ghost var pending, goal;
      g, cur, pending, goal := Start(d, body);
      trace := [];
      var more := true;
      while cur.Some? && more
        invariant Midway(g, d, cur, more, pending, body, trace, goal)
        decreases |pending|, more
      {
        pending, cur, trace, more := Pass(g, d, cur.value, pending, body, trace, goal, env);
      }
      Finish(g, d, cur, more, pending, body, trace, goal);
    }

    method Start(d: Dir, body: Body) returns (g: nat, cur: Option<nat>, ghost pending: seq<nat>, ghost goal: seq<Event>)
      requires Valid()
      modifies `pos, `dir, `gen
      ensures Midway(g, d, cur, true, pending, body, [], goal)
      ensures goal == Remaining(cfg, old(log), IterOrder(d, old(used), old(buckets)), true, body, [])
    {
      hide Consistent, Pending, AllLive, Remaining, Slab.Valid;
      Facts();
      g := Begin(d);
      pending := ToVisit(d);
      goal := Remaining(cfg, log, pending, true, body, []);
      cur := Iter(g, d);
    }

    lemma Finish(g: nat, d: Dir, cur: Option<nat>, more: bool, pending: seq<nat>, body: Body, trace: seq<Event>,
                 goal: seq<Event>)
      requires Midway(g, d, cur, more, pending, body, trace, goal) && (cur.None? || !more)
      ensures Valid() && trace == goal
    {
      RemainingEnd(cfg, log, pending, more, body, trace);
    }

    method Pass(g: nat, d: Dir, s: nat, ghost pending: seq<nat>, body: Body, seen: seq<Event>, ghost goal: seq<Event>,
                env: Env)
      returns (ghost rest: seq<nat>, cur: Option<nat>, trace: seq<Event>, more: bool)
      requires Midway(g, d, Some(s), true, pending, body, seen, goal)
      modifies this, slab
      ensures Midway(g, d, cur, more, rest, body, trace, goal) && |rest| < |pending|
    {
      hide Consistent, Pending, AllLive, Remaining, Slab.Valid;
      rest, trace, more := Visit(s, body, seen, env);
      cur := None;
      if more {
        cur := Iter(g, d);
      }
    }

    /** One pass of the loop: run the body on the entry in slot s. */
    method Visit(s: nat, body: Body, seen: seq<Event>,
                 env: Env) returns (ghost rest: seq<nat>, trace: seq<Event>, more: bool)
      requires Valid() && dir.Some? && AllLive(log, [s] + ToVisit(dir.value))
      modifies this, slab
      ensures Valid() && gen == old(gen) && dir == old(dir)
      ensures rest == ToVisit(dir.value) && |rest| <= |old(ToVisit(dir.value))| && AllLive(log, rest)
      ensures seen + Remaining(cfg, old(log), [s] + old(ToVisit(dir.value)), true, body, seen)
           == trace + Remaining(cfg, log, rest, more, body, trace)
    {
      hide Consistent, Pending, AllLive, DropAll, Remaining, ByCookie, Slab.Valid;
      ghost var pending := [s] + ToVisit(dir.value);
      Facts();
      CookieSlot(s + 1);
      RemainingStep(cfg, log, pending, body, seen);
      assert pending[0] == s && pending[1..] == ToVisit(dir.value);
      var resp := body(seen + [Yielded(s)], slots[s]);
      var ds := Apply(resp.requests, env);
      trace := seen + ([Yielded(s)] + Deletions(ds));
      more := resp.more;
      rest := ToVisit(dir.value);
    }
  }
}
