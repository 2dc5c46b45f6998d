/** The insertion-ordered list of entries that a hash table stands for, and the
    concrete lists (buckets, used buckets) a table derives from it. */
module HashLog {
  import opened Seqs

  type Key = int
  type Obj = int

  /** IOT_HASH_COOKIE_NONE. */
  const NONE: nat := 0

  datatype Entry = Entry(key: Key, obj: Obj, cookie: nat)

  /** User callbacks and bucket count. */
  datatype Config = Config(hash: Key -> nat, comp: (Key, Key) -> int, nbucket: nat) {

    /** The one assumption on the callbacks: keys that compare equal hash equally. */
    ghost predicate Ok() {
      nbucket > 0 && forall k, l :: comp(k, l) == 0 ==> hash(k) == hash(l)
    }

    function B(key: Key): nat
      requires nbucket > 0
    {
      hash(key) % nbucket
    }

    predicate Matches(e: Entry, key: Key, cookie: nat) {
      comp(key, e.key) == 0 && (cookie == NONE || e.cookie == cookie)
    }
  }

  // ----- the abstract list -----

  ghost predicate LogOk(log: seq<Entry>) {
    && (forall i :: 0 <= i < |log| ==> log[i].cookie != NONE)
    && (forall i, j :: 0 <= i < j < |log| ==> log[i].cookie != log[j].cookie)
  }

  /** The earliest added entry matching key (and cookie, unless that is NONE). */
  ghost function First(cfg: Config, log: seq<Entry>, key: Key, cookie: nat): Option<Entry> {
    if log == [] then None
    else if cfg.Matches(log[0], key, cookie) then Some(log[0])
    else First(cfg, log[1..], key, cookie)
  }

  ghost function ByCookie(log: seq<Entry>, cookie: nat): Option<Entry> {
    if log == [] then None
    else if log[0].cookie == cookie then Some(log[0])
    else ByCookie(log[1..], cookie)
  }

  ghost function Drop(log: seq<Entry>, cookie: nat): seq<Entry> {
    if log == [] then []
    else if log[0].cookie == cookie then Drop(log[1..], cookie)
    else [log[0]] + Drop(log[1..], cookie)
  }

  /** The list with the entry of the given cookie rebound in place. */
  ghost function Rebind(log: seq<Entry>, cookie: nat, key: Key, obj: Obj): seq<Entry> {
    seq(|log|, i requires 0 <= i < |log| =>
      if log[i].cookie == cookie then Entry(key, obj, cookie) else log[i])
  }

  // ----- concrete views of the list; an entry lives in slot cookie - 1 -----

  ghost function SlotSet(log: seq<Entry>): set<nat>
    requires LogOk(log)
  {
    if log == [] then {} else {log[0].cookie - 1} + SlotSet(log[1..])
  }

  ghost function BucketOf(cfg: Config, log: seq<Entry>, b: nat): seq<nat>
    requires cfg.nbucket > 0 && LogOk(log)
  {
    if log == [] then []
    else if cfg.B(log[0].key) == b then [log[0].cookie - 1] + BucketOf(cfg, log[1..], b)
    else BucketOf(cfg, log[1..], b)
  }

  ghost predicate SlotsOk(log: seq<Entry>, slots: map<nat, Entry>)
    requires LogOk(log)
  {
    && slots.Keys == SlotSet(log)
    && forall i :: 0 <= i < |log| ==> log[i].cookie - 1 in slots && slots[log[i].cookie - 1] == log[i]
  }

  /** First match along a list of slots. */
  function FirstIn(cfg: Config, xs: seq<nat>, slots: map<nat, Entry>, key: Key, cookie: nat): Option<nat>
    requires forall x :: x in xs ==> x in slots
  {
    if xs == [] then None
    else if cfg.Matches(slots[xs[0]], key, cookie) then Some(xs[0])
    else FirstIn(cfg, xs[1..], slots, key, cookie)
  }

  // ----- lemmas -----

  lemma SlotSetMembers(log: seq<Entry>, i: nat)
    requires LogOk(log) && i < |log|
    ensures log[i].cookie - 1 in SlotSet(log)
  {
    if i > 0 {
      SlotSetMembers(log[1..], i - 1);
    }
  }

  lemma SlotSetWitness(log: seq<Entry>, s: nat) returns (i: nat)
    requires LogOk(log) && s in SlotSet(log)
    ensures i < |log| && log[i].cookie == s + 1
  {
    if log[0].cookie == s + 1 {
      i := 0;
    } else {
      i := SlotSetWitness(log[1..], s);
      i := i + 1;
    }
  }

  lemma HeadSlotFresh(log: seq<Entry>)
    requires LogOk(log) && log != []
    ensures log[0].cookie - 1 !in SlotSet(log[1..])
  {
    var s := log[0].cookie - 1;
    if s in SlotSet(log[1..]) {
      var i := SlotSetWitness(log[1..], s);
      assert false;
    }
  }

  lemma SlotSetSize(log: seq<Entry>)
    requires LogOk(log)
    ensures |SlotSet(log)| == |log|
  {
    if log != [] {
      SlotSetSize(log[1..]);
      HeadSlotFresh(log);
    }
  }

  lemma BucketMembers(cfg: Config, log: seq<Entry>, b: nat, slots: map<nat, Entry>)
    requires cfg.nbucket > 0 && LogOk(log) && SlotsOk(log, slots)
    ensures forall s :: s in BucketOf(cfg, log, b) <==> s in slots && cfg.B(slots[s].key) == b
    ensures Distinct<nat>(BucketOf(cfg, log, b))
  {
    if log != [] {
      var rest := log[1..];
      var s0 := log[0].cookie - 1;
      HeadSlotFresh(log);
      var slots' := map s | s in slots && s != s0 :: slots[s];
      assert slots'.Keys == SlotSet(rest);
      forall i | 0 <= i < |rest|
        ensures rest[i].cookie - 1 in slots' && slots'[rest[i].cookie - 1] == rest[i]
      {
        assert rest[i] == log[i + 1];
      }
      BucketMembers(cfg, rest, b, slots');
      assert slots[s0] == log[0];
      if cfg.B(log[0].key) == b {
        DistinctConcat<nat>([s0], BucketOf(cfg, rest, b));
      }
    }
  }

  lemma FirstInBucket(cfg: Config, log: seq<Entry>, slots: map<nat, Entry>, key: Key, cookie: nat)
    requires cfg.Ok() && LogOk(log)
    requires forall i :: 0 <= i < |log| ==> log[i].cookie - 1 in slots && slots[log[i].cookie - 1] == log[i]
    ensures forall s :: s in BucketOf(cfg, log, cfg.B(key)) ==> s in slots
    ensures FirstIn(cfg, BucketOf(cfg, log, cfg.B(key)), slots, key, cookie)
         == match First(cfg, log, key, cookie) case None => None case Some(e) => Some(e.cookie - 1)
  {
    if log != [] {
      forall i | 0 <= i < |log[1..]|
        ensures log[1..][i].cookie - 1 in slots && slots[log[1..][i].cookie - 1] == log[1..][i]
      {
        assert log[1..][i] == log[i + 1];
      }
      FirstInBucket(cfg, log[1..], slots, key, cookie);
      var bs := BucketOf(cfg, log, cfg.B(key));
      if cfg.B(log[0].key) == cfg.B(key) {
        assert bs[1..] == BucketOf(cfg, log[1..], cfg.B(key));
      }
    }
  }

  lemma FirstIsMember(cfg: Config, log: seq<Entry>, key: Key, cookie: nat)
    requires First(cfg, log, key, cookie).Some?
    ensures var e := First(cfg, log, key, cookie).value;
      e in log && cfg.Matches(e, key, cookie)
  {
    if !cfg.Matches(log[0], key, cookie) {
      FirstIsMember(cfg, log[1..], key, cookie);
    }
  }

  ghost predicate EarliestAt(cfg: Config, log: seq<Entry>, key: Key, cookie: nat, i: int) {
    && 0 <= i < |log| && cfg.Matches(log[i], key, cookie)
    && forall j :: 0 <= j < i ==> !cfg.Matches(log[j], key, cookie)
  }

  /** What "earliest match" means: nothing in front of the result matches; and
      a miss means nothing matches at all. */
  lemma {:induction false} FirstIsEarliest(cfg: Config, log: seq<Entry>, key: Key, cookie: nat)
    ensures match First(cfg, log, key, cookie)
      case None => forall i :: 0 <= i < |log| ==> !cfg.Matches(log[i], key, cookie)
      case Some(e) => exists i :: EarliestAt(cfg, log, key, cookie, i) && log[i] == e
  {
    if log != [] && cfg.Matches(log[0], key, cookie) {
      assert EarliestAt(cfg, log, key, cookie, 0);
    } else if log != [] {
      FirstIsEarliest(cfg, log[1..], key, cookie);
      match First(cfg, log[1..], key, cookie)
      case None =>
        forall i | 0 <= i < |log| ensures !cfg.Matches(log[i], key, cookie) {
          if i > 0 { assert log[i] == log[1..][i - 1]; }
        }
      case Some(e) =>
        var i :| EarliestAt(cfg, log[1..], key, cookie, i) && log[1..][i] == e;
        forall j | 0 <= j < i + 1 ensures !cfg.Matches(log[j], key, cookie) {
          if j > 0 { assert log[j] == log[1..][j - 1]; }
        }
        assert EarliestAt(cfg, log, key, cookie, i + 1) && log[i + 1] == e;
    }
  }

  /** With a cookie, a match exists iff the live entry of that cookie has the key. */
  lemma {:induction false} FirstByCookie(cfg: Config, log: seq<Entry>, key: Key, cookie: nat)
    requires LogOk(log) && cookie != NONE
    ensures First(cfg, log, key, cookie)
         == match ByCookie(log, cookie)
            case None => None
            case Some(e) => if cfg.comp(key, e.key) == 0 then Some(e) else None
  {
    if log != [] {
      if log[0].cookie == cookie {
        FirstIsEarliest(cfg, log, key, cookie);
        if cfg.comp(key, log[0].key) != 0 {
          assert forall i :: 0 < i < |log| ==> log[i].cookie != cookie;
        }
      } else {
        FirstByCookie(cfg, log[1..], key, cookie);
      }
    }
  }

  lemma ByCookieFinds(log: seq<Entry>, i: nat)
    requires LogOk(log) && i < |log|
    ensures ByCookie(log, log[i].cookie) == Some(log[i])
  {
    if i > 0 {
      ByCookieFinds(log[1..], i - 1);
    }
  }

  lemma ByCookieIsMember(log: seq<Entry>, cookie: nat)
    ensures ByCookie(log, cookie).None? ==> forall e :: e in log ==> e.cookie != cookie
    ensures ByCookie(log, cookie).Some? ==>
      ByCookie(log, cookie).value in log && ByCookie(log, cookie).value.cookie == cookie
  {
  }

  lemma DropMembers(log: seq<Entry>, cookie: nat)
    ensures forall e :: e in Drop(log, cookie) <==> e in log && e.cookie != cookie
    ensures (forall e :: e in log ==> e.cookie != cookie) ==> Drop(log, cookie) == log
  {
    if log != [] {
      assert log == [log[0]] + log[1..];
      DropMembers(log[1..], cookie);
    }
  }

  lemma {:induction false} DropOk(log: seq<Entry>, cookie: nat)
    requires LogOk(log)
    ensures LogOk(Drop(log, cookie))
  {
    if log != [] {
      var rest := log[1..];
      var d := Drop(rest, cookie);
      DropOk(rest, cookie);
      forall j | 0 <= j < |d| ensures d[j].cookie != log[0].cookie {
        var k := DropOrigin(rest, cookie, j);
        assert log[k + 1] == d[j];
      }
      assert LogOk([log[0]] + d);
    }
  }

  lemma DropOrigin(log: seq<Entry>, cookie: nat, j: nat) returns (k: nat)
    requires j < |Drop(log, cookie)|
    ensures k < |log| && log[k] == Drop(log, cookie)[j] && log[k].cookie != cookie
  {
    if log[0].cookie == cookie {
      k := DropOrigin(log[1..], cookie, j);
      k := k + 1;
    } else if j == 0 {
      k := 0;
    } else {
      k := DropOrigin(log[1..], cookie, j - 1);
      k := k + 1;
    }
  }

  lemma DropSlots(log: seq<Entry>, cookie: nat)
    requires LogOk(log) && cookie != NONE
    ensures LogOk(Drop(log, cookie))
    ensures SlotSet(Drop(log, cookie)) == SlotSet(log) - {cookie - 1}
  {
    DropOk(log, cookie);
    if log != [] {
      HeadSlotFresh(log);
      DropSlots(log[1..], cookie);
      if log[0].cookie != cookie {
        assert Drop(log, cookie)[1..] == Drop(log[1..], cookie);
      }
    }
  }

  lemma DropBucket(cfg: Config, log: seq<Entry>, cookie: nat, b: nat)
    requires cfg.nbucket > 0 && LogOk(log) && cookie != NONE
    ensures LogOk(Drop(log, cookie))
    ensures BucketOf(cfg, Drop(log, cookie), b) == Without<nat>(BucketOf(cfg, log, b), cookie - 1)
  {
    DropOk(log, cookie);
    if log != [] {
      var rest, s := log[1..], cookie - 1;
      DropBucket(cfg, rest, cookie, b);
      var t := BucketOf(cfg, rest, b);
      if log[0].cookie != cookie {
        assert Drop(log, cookie)[1..] == Drop(rest, cookie);
      }
      if cfg.B(log[0].key) == b {
        assert BucketOf(cfg, log, b)[1..] == t;
      }
    }
  }

  lemma AppendOk(log: seq<Entry>, e: Entry)
    requires LogOk(log) && e.cookie != NONE && e.cookie - 1 !in SlotSet(log)
    ensures LogOk(log + [e])
    ensures SlotSet(log + [e]) == SlotSet(log) + {e.cookie - 1}
  {
    forall i | 0 <= i < |log| ensures log[i].cookie != e.cookie {
      SlotSetMembers(log, i);
    }
    AppendSlots(log, e);
  }

  lemma {:induction false} AppendSlots(log: seq<Entry>, e: Entry)
    requires LogOk(log) && e.cookie != NONE && LogOk(log + [e])
    ensures SlotSet(log + [e]) == SlotSet(log) + {e.cookie - 1}
  {
    if log != [] {
      assert (log + [e])[1..] == log[1..] + [e];
      AppendSlots(log[1..], e);
    }
  }

  lemma AppendBucket(cfg: Config, log: seq<Entry>, e: Entry, b: nat)
    requires cfg.nbucket > 0 && LogOk(log) && e.cookie != NONE && LogOk(log + [e])
    ensures BucketOf(cfg, log + [e], b)
         == BucketOf(cfg, log, b) + if cfg.B(e.key) == b then [e.cookie - 1] else []
  {
    if log != [] {
      assert (log + [e])[1..] == log[1..] + [e];
      AppendBucket(cfg, log[1..], e, b);
    }
  }

  lemma RebindOk(log: seq<Entry>, cookie: nat, key: Key, obj: Obj)
    requires LogOk(log)
    ensures LogOk(Rebind(log, cookie, key, obj))
    ensures SlotSet(Rebind(log, cookie, key, obj)) == SlotSet(log)
  {
    if log != [] {
      RebindOk(log[1..], cookie, key, obj);
      assert Rebind(log, cookie, key, obj)[1..] == Rebind(log[1..], cookie, key, obj);
    }
  }

  lemma RebindBucket(cfg: Config, log: seq<Entry>, cookie: nat, key: Key, obj: Obj, b: nat)
    requires cfg.nbucket > 0 && LogOk(log)
    requires forall i :: 0 <= i < |log| && log[i].cookie == cookie ==> cfg.B(log[i].key) == cfg.B(key)
    ensures LogOk(Rebind(log, cookie, key, obj))
    ensures BucketOf(cfg, Rebind(log, cookie, key, obj), b) == BucketOf(cfg, log, b)
  {
    RebindOk(log, cookie, key, obj);
    if log != [] {
      RebindBucket(cfg, log[1..], cookie, key, obj, b);
      assert Rebind(log, cookie, key, obj)[1..] == Rebind(log[1..], cookie, key, obj);
    }
  }
}
