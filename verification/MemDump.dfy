/** The debugging allocator: its running totals, and the dump that groups the
    blocks by backtrace, sorts the groups by size and puts the blocks back. */
module MemDump {
  import opened Seqs

  type Id = nat
  type Trace = seq<nat>

  const NBUCKET: nat := 1024
  const UINT32: nat := 0x1_0000_0000

  function Tr(trace: map<Id, Trace>, x: Id): Trace { if x in trace then trace[x] else [] }
  function Sz(size: map<Id, nat>, x: Id): nat { if x in size then size[x] else 0 }

  function Sum(xs: seq<Id>, size: map<Id, nat>): nat {
    if xs == [] then 0 else Sum(xs[..|xs| - 1], size) + Sz(size, xs[|xs| - 1])
  }

  // ----- what grouping means -----

  ghost predicate HasHead(hs: seq<Id>, trace: map<Id, Trace>, t: Trace)
  {
    exists i :: 0 <= i < |hs| && Tr(trace, hs[i]) == t
  }

  /** The first block of every backtrace. */
  ghost function Heads(xs: seq<Id>, trace: map<Id, Trace>): seq<Id> {
    if xs == [] then []
    else
      var hs, x := Heads(xs[..|xs| - 1], trace), xs[|xs| - 1];
      if HasHead(hs, trace, Tr(trace, x)) then hs else hs + [x]
  }

  /** The blocks that are not the first of their backtrace. */
  ghost function Others(xs: seq<Id>, trace: map<Id, Trace>): seq<Id> {
    if xs == [] then []
    else
      var hs, x := Heads(xs[..|xs| - 1], trace), xs[|xs| - 1];
      Others(xs[..|xs| - 1], trace) + if HasHead(hs, trace, Tr(trace, x)) then [x] else []
  }

  ghost function Kin(xs: seq<Id>, trace: map<Id, Trace>, t: Trace): seq<Id> {
    if xs == [] then []
    else Kin(xs[..|xs| - 1], trace, t) + if Tr(trace, xs[|xs| - 1]) == t then [xs[|xs| - 1]] else []
  }

  ghost function Bucket(hs: seq<Id>, trace: map<Id, Trace>, hash: Trace -> nat, i: nat): seq<Id> {
    if hs == [] then []
    else
      var init, h := hs[..|hs| - 1], hs[|hs| - 1];
      Bucket(init, trace, hash, i) + if hash(Tr(trace, h)) % NBUCKET == i then [h] else []
  }

  /** Bytes in the group of h besides h itself. */
  ghost function Beside(xs: seq<Id>, trace: map<Id, Trace>, size: map<Id, nat>, h: Id): nat {
    Sum(Kin(Others(xs, trace), trace, Tr(trace, h)), size)
  }

  lemma SnocSum(xs: seq<Id>, x: Id, size: map<Id, nat>)
    ensures Sum(xs + [x], size) == Sum(xs, size) + Sz(size, x)
  {
    assert (xs + [x])[..|xs|] == xs;
  }

  lemma SnocKin(xs: seq<Id>, x: Id, trace: map<Id, Trace>, t: Trace)
    ensures Kin(xs + [x], trace, t) == Kin(xs, trace, t) + if Tr(trace, x) == t then [x] else []
  {
    assert (xs + [x])[..|xs|] == xs;
  }

  lemma SnocBucket(hs: seq<Id>, x: Id, trace: map<Id, Trace>, hash: Trace -> nat, i: nat)
    ensures Bucket(hs + [x], trace, hash, i)
         == Bucket(hs, trace, hash, i) + if hash(Tr(trace, x)) % NBUCKET == i then [x] else []
  {
    assert (hs + [x])[..|hs|] == hs;
  }

  lemma SnocHeads(xs: seq<Id>, x: Id, trace: map<Id, Trace>)
    ensures var known := HasHead(Heads(xs, trace), trace, Tr(trace, x));
      && Heads(xs + [x], trace) == Heads(xs, trace) + (if known then [] else [x])
      && Others(xs + [x], trace) == Others(xs, trace) + (if known then [x] else [])
  {
    assert (xs + [x])[..|xs|] == xs;
  }

  lemma {:induction false} Partition(xs: seq<Id>, trace: map<Id, Trace>)
    requires Distinct<Id>(xs)
    ensures Distinct<Id>(Heads(xs, trace)) && Distinct<Id>(Others(xs, trace))
    ensures forall x :: x in xs <==> x in Heads(xs, trace) || x in Others(xs, trace)
    ensures forall x :: x in Heads(xs, trace) ==> x !in Others(xs, trace)
    ensures |xs| == |Heads(xs, trace)| + |Others(xs, trace)|
  {
    if xs != [] {
      var p, x := xs[..|xs| - 1], xs[|xs| - 1];
      assert xs == p + [x] && x !in p;
      Partition(p, trace);
      if HasHead(Heads(p, trace), trace, Tr(trace, x)) {
        DistinctConcat<Id>(Others(p, trace), [x]);
      } else {
        DistinctConcat<Id>(Heads(p, trace), [x]);
      }
    }
  }

  lemma {:induction false} KinMembers(xs: seq<Id>, trace: map<Id, Trace>, t: Trace)
    ensures forall x :: x in Kin(xs, trace, t) <==> x in xs && Tr(trace, x) == t
  {
    if xs != [] {
      KinMembers(xs[..|xs| - 1], trace, t);
      assert xs == xs[..|xs| - 1] + [xs[|xs| - 1]];
    }
  }

  lemma {:induction false} BucketMembers(hs: seq<Id>, trace: map<Id, Trace>, hash: Trace -> nat, i: nat)
    ensures forall x :: x in Bucket(hs, trace, hash, i) <==> x in hs && hash(Tr(trace, x)) % NBUCKET == i
    ensures Distinct<Id>(hs) ==> Distinct<Id>(Bucket(hs, trace, hash, i))
  {
    if hs != [] {
      var p, x := hs[..|hs| - 1], hs[|hs| - 1];
      BucketMembers(p, trace, hash, i);
      assert hs == p + [x];
      if Distinct<Id>(hs) {
        assert x !in p;
        DistinctConcat<Id>(Bucket(p, trace, hash, i), [x]);
      }
    }
  }

  lemma {:induction false} SumAgain(xs: seq<Id>, size: map<Id, nat>, size': map<Id, nat>)
    requires forall i :: 0 <= i < |xs| ==> Sz(size, xs[i]) == Sz(size', xs[i])
    ensures Sum(xs, size) == Sum(xs, size')
  {
    if xs != [] {
      SumAgain(xs[..|xs| - 1], size, size');
    }
  }

  lemma {:induction false} SumConcat(xs: seq<Id>, ys: seq<Id>, size: map<Id, nat>)
    ensures Sum(xs + ys, size) == Sum(xs, size) + Sum(ys, size)
  {
    if ys == [] {
      assert xs + ys == xs;
    } else {
      assert (xs + ys)[..|xs + ys| - 1] == xs + ys[..|ys| - 1];
      SumConcat(xs, ys[..|ys| - 1], size);
    }
  }

  lemma {:induction false} SumWithout(xs: seq<Id>, x: Id, size: map<Id, nat>)
    requires Distinct<Id>(xs) && x in xs
    ensures Sum(xs, size) == Sum(Without<Id>(xs, x), size) + Sz(size, x)
  {
    var tail := xs[1..];
    assert xs == [xs[0]] + tail && xs[0] !in tail;
    SumConcat([xs[0]], tail, size);
    assert Sum([xs[0]], size) == Sz(size, xs[0]) by { assert [xs[0]][..0] == []; }
    if xs[0] == x {
      WithoutAbsent<Id>(tail, x);
    } else {
      SumWithout(tail, x, size);
      SumConcat([xs[0]], Without<Id>(tail, x), size);
    }
  }

  /** Sums do not depend on order. */
  lemma {:induction false} SumSame(xs: seq<Id>, ys: seq<Id>, size: map<Id, nat>)
    requires Distinct<Id>(xs) && Distinct<Id>(ys) && |xs| == |ys| && forall x :: x in xs <==> x in ys
    ensures Sum(xs, size) == Sum(ys, size)
    decreases |xs|
  {
    if xs != [] {
      hide Without;
      var x := xs[0];
      WithoutMembers<Id>(xs, x);
      WithoutDistinct<Id>(xs, x);
      WithoutMembers<Id>(ys, x);
      WithoutDistinct<Id>(ys, x);
      SumWithout(xs, x, size);
      SumWithout(ys, x, size);
      SumSame(Without<Id>(xs, x), Without<Id>(ys, x), size);
    }
  }

  // ----- order -----

  ghost predicate Before(xs: seq<Id>, x: Id, y: Id) {
    exists p, q :: 0 <= p < q < |xs| && xs[p] == x && xs[q] == y
  }

  /** Head x comes to be sorted before head y: it is in an earlier bucket, or in
      the same one and before y in the list of blocks. */
  ghost predicate Sooner(xs: seq<Id>, trace: map<Id, Trace>, hash: Trace -> nat, x: Id, y: Id) {
    var b, c := hash(Tr(trace, x)) % NBUCKET, hash(Tr(trace, y)) % NBUCKET;
    b < c || (b == c && Before(xs, x, y))
  }

  /** The head of a backtrace is the first block that has it. */
  lemma {:induction false} HeadsFirst(xs: seq<Id>, trace: map<Id, Trace>, k: nat)
    requires Distinct<Id>(xs) && k < |xs|
    ensures xs[k] in Heads(xs, trace) <==> forall j :: 0 <= j < k ==> Tr(trace, xs[j]) != Tr(trace, xs[k])
  {
    hide Tr, HasHead, Heads, Others;
    var n := |xs| - 1;
    var p, x := xs[..n], xs[n];
    assert xs == p + [x];
    SnocHeads(p, x, trace);
    Partition(p, trace);
    if k < n {
      HeadsFirst(p, trace, k);
    } else {
      HeadOfAny(p, trace, Tr(trace, x));
    }
  }

  lemma {:induction false} HeadOfAny(xs: seq<Id>, trace: map<Id, Trace>, t: Trace)
    ensures HasHead(Heads(xs, trace), trace, t) <==> exists j :: 0 <= j < |xs| && Tr(trace, xs[j]) == t
  {
    if xs != [] {
      hide Tr, Heads, Others;
      var n := |xs| - 1;
      var p, x := xs[..n], xs[n];
      assert xs == p + [x];
      SnocHeads(p, x, trace);
      HeadOfAny(p, trace, t);
      var hs := Heads(p, trace);
      if HasHead(hs, trace, Tr(trace, x)) { HeadSnoc(hs, [], trace, t); } else { HeadSnoc(hs, [x], trace, t); }
      if j :| 0 <= j < |p| && Tr(trace, p[j]) == t { assert xs[j] == p[j]; }
    }
  }

  lemma HeadSnoc(hs: seq<Id>, more: seq<Id>, trace: map<Id, Trace>, t: Trace)
    requires |more| <= 1
    ensures HasHead(hs + more, trace, t) <==> HasHead(hs, trace, t) || (more != [] && Tr(trace, more[0]) == t)
  {
    hide Tr;
    if HasHead(hs, trace, t) { HeadGrows(hs, more, trace, t); }
    if more != [] { assert (hs + more)[|hs|] == more[0]; }
  }

  lemma SnocBefore(xs: seq<Id>, z: Id, x: Id, y: Id)
    ensures Before(xs + [z], x, y) <==> Before(xs, x, y) || (x in xs && y == z)
  {
    var r := xs + [z];
    if p, q :| 0 <= p < q < |xs| && xs[p] == x && xs[q] == y { assert r[p] == x && r[q] == y; }
    if x in xs && y == z {
      var p :| 0 <= p < |xs| && xs[p] == x;
      assert r[p] == x && r[|xs|] == y;
    }
  }

  /** Heads and others are in the order of the blocks. */
  lemma {:induction false} KeptOrder(xs: seq<Id>, trace: map<Id, Trace>, x: Id, y: Id)
    requires Distinct<Id>(xs)
    ensures Before(Heads(xs, trace), x, y) || Before(Others(xs, trace), x, y) ==> Before(xs, x, y)
  {
    if xs != [] {
      hide Heads, Others, Before, HasHead;
      var n := |xs| - 1;
      var p, z := xs[..n], xs[n];
      assert xs == p + [z];
      KeptOrder(p, trace, x, y);
      Partition(p, trace);
      SnocHeads(p, z, trace);
      SnocBefore(p, z, x, y);
      SnocBefore(Heads(p, trace), z, x, y);
      SnocBefore(Others(p, trace), z, x, y);
    }
  }

  /** So are the heads of a bucket. */
  lemma {:induction false} BucketOrder(hs: seq<Id>, trace: map<Id, Trace>, hash: Trace -> nat, i: nat, x: Id, y: Id)
    ensures Before(Bucket(hs, trace, hash, i), x, y) ==> Before(hs, x, y)
  {
    if hs != [] {
      hide Bucket, Before, Tr;
      var n := |hs| - 1;
      var p, z := hs[..n], hs[n];
      assert hs == p + [z];
      BucketOrder(p, trace, hash, i, x, y);
      BucketMembers(p, trace, hash, i);
      SnocBucket(p, z, trace, hash, i);
      SnocBefore(p, z, x, y);
      SnocBefore(Bucket(p, trace, hash, i), z, x, y);
    }
  }

  // ----- sorting the groups -----

  /** Ascending size; of two of the same size the one that came later is first. */
  ghost predicate Latest(hs: seq<Id>, trace: map<Id, Trace>, hash: Trace -> nat, size: map<Id, nat>, sorted: seq<Id>) {
    forall i, j :: 0 <= i < j < |sorted| && Sz(size, sorted[i]) >= Sz(size, sorted[j]) ==>
      Sz(size, sorted[i]) == Sz(size, sorted[j]) && Sooner(hs, trace, hash, sorted[j], sorted[i])
  }

  /** Ascending group size. */
  ghost predicate Ascending(hs: seq<Id>, size: map<Id, nat>) {
    forall i, j :: 0 <= i < j < |hs| ==> Sz(size, hs[i]) <= Sz(size, hs[j])
  }

  method InsertSorted(sorted: seq<Id>, h: Id, size: map<Id, nat>) returns (r: seq<Id>, k: nat)
    requires Ascending(sorted, size) && Distinct<Id>(sorted) && h !in sorted
    ensures k <= |sorted| && r == sorted[..k] + [h] + sorted[k..]
    ensures forall i :: 0 <= i < |sorted| ==> (i < k <==> Sz(size, sorted[i]) < Sz(size, h))
    ensures Ascending(r, size) && Distinct<Id>(r) && forall x :: x in r <==> x == h || x in sorted
  {
    k := 0;
    while k < |sorted| && Sz(size, h) > Sz(size, sorted[k])
      invariant 0 <= k <= |sorted| && forall i :: 0 <= i < k ==> Sz(size, sorted[i]) < Sz(size, h)
    {
      k := k + 1;
    }
    r := sorted[..k] + [h] + sorted[k..];
    InsertedAt(sorted, k, h, size);
  }

  /** A head that comes after all those in the list keeps it so. */
  lemma LatestNext(hs: seq<Id>, trace: map<Id, Trace>, hash: Trace -> nat, size: map<Id, nat>, sorted: seq<Id>, h: Id,
                   k: nat)
    requires Latest(hs, trace, hash, size, sorted) && k <= |sorted|
    requires forall i :: 0 <= i < |sorted| ==> (i < k <==> Sz(size, sorted[i]) < Sz(size, h))
    requires forall x :: x in sorted ==> Sooner(hs, trace, hash, x, h)
    ensures Latest(hs, trace, hash, size, sorted[..k] + [h] + sorted[k..])
  {
    hide Sz, Sooner;
    var r := sorted[..k] + [h] + sorted[k..];
    forall i, j | 0 <= i < j < |r| && Sz(size, r[i]) >= Sz(size, r[j])
      ensures Sz(size, r[i]) == Sz(size, r[j]) && Sooner(hs, trace, hash, r[j], r[i])
    {
      assert r[i] == if i < k then sorted[i] else if i == k then h else sorted[i - 1];
      assert r[j] == if j < k then sorted[j] else if j == k then h else sorted[j - 1];
    }
  }

  lemma InsertedAt(sorted: seq<Id>, k: nat, h: Id, size: map<Id, nat>)
    requires k <= |sorted| && Ascending(sorted, size) && Distinct<Id>(sorted) && h !in sorted
    requires k > 0 ==> Sz(size, sorted[k - 1]) <= Sz(size, h)
    requires k < |sorted| ==> Sz(size, h) <= Sz(size, sorted[k])
    ensures var r := sorted[..k] + [h] + sorted[k..];
      Ascending(r, size) && Distinct<Id>(r) && forall x :: x in r <==> x == h || x in sorted
  {
    hide Sz;
    var a, b := sorted[..k], sorted[k..];
    var r := a + [h] + b;
    assert sorted == a + b;
    assert Distinct<Id>(r) by {
      DistinctConcat<Id>(a, [h]);
      DistinctConcat<Id>(a + [h], b);
    }
    InsertedAscending(sorted, k, h, size);
  }

  lemma InsertedAscending(sorted: seq<Id>, k: nat, h: Id, size: map<Id, nat>)
    requires k <= |sorted| && Ascending(sorted, size)
    requires k > 0 ==> Sz(size, sorted[k - 1]) <= Sz(size, h)
    requires k < |sorted| ==> Sz(size, h) <= Sz(size, sorted[k])
    ensures Ascending(sorted[..k] + [h] + sorted[k..], size)
  {
    hide Sz;
    var r := sorted[..k] + [h] + sorted[k..];
    forall i, j | 0 <= i < j < |r| ensures Sz(size, r[i]) <= Sz(size, r[j]) {
      assert r[i] == if i < k then sorted[i] else if i == k then h else sorted[i - 1];
      assert r[j] == if j < k then sorted[j] else if j == k then h else sorted[j - 1];
    }
  }

  // ----- what collecting leaves behind -----

  /** The blocks p have been collected: heads in the buckets of their hashes
      carrying the size of their group, the others in `more` of their heads. */
  ghost predicate Collected(p: seq<Id>, trace: map<Id, Trace>, hash: Trace -> nat, size: map<Id, nat>,
                            buckets: seq<seq<Id>>, more: map<Id, seq<Id>>, size': map<Id, nat>) {
    && |buckets| == NBUCKET
    && (forall i :: 0 <= i < NBUCKET ==> buckets[i] == Bucket(Heads(p, trace), trace, hash, i))
    && (forall h :: h in Heads(p, trace) ==> Grouped(p, trace, size, more, size', h))
    && (forall x :: x !in Heads(p, trace) ==> Sz(size', x) == Sz(size, x))
  }

  ghost predicate Grouped(p: seq<Id>, trace: map<Id, Trace>, size: map<Id, nat>, more: map<Id, seq<Id>>,
                          size': map<Id, nat>, h: Id) {
    && h in more && more[h] == Kin(Others(p, trace), trace, Tr(trace, h))
    && Sz(size', h) == Sz(size, h) + Beside(p, trace, size, h)
  }

  lemma CollectedHead(p: seq<Id>, x: Id, trace: map<Id, Trace>, hash: Trace -> nat, size: map<Id, nat>,
                      buckets: seq<seq<Id>>, more: map<Id, seq<Id>>, size': map<Id, nat>)
    requires Collected(p, trace, hash, size, buckets, more, size') && x !in p && Distinct<Id>(p)
    requires !HasHead(Heads(p, trace), trace, Tr(trace, x))
    ensures var i := hash(Tr(trace, x)) % NBUCKET;
      Collected(p + [x], trace, hash, size, buckets[i := buckets[i] + [x]], more[x := []], size')
    ensures Others(p + [x], trace) == Others(p, trace) && Heads(p + [x], trace) == Heads(p, trace) + [x]
  {
    hide Bucket, Kin, Heads, Others, Sum, Sz, HasHead, Tr;
    Partition(p, trace);
    SnocHeads(p, x, trace);
    var hs := Heads(p, trace);
    var i := hash(Tr(trace, x)) % NBUCKET;
    var more' := more[x := []];
    forall k | 0 <= k < NBUCKET ensures buckets[i := buckets[i] + [x]][k] == Bucket(hs + [x], trace, hash, k) {
      SnocBucket(hs, x, trace, hash, k);
    }
    NoKin(p, trace, Tr(trace, x), size);
    assert Others(p + [x], trace) == Others(p, trace) && Heads(p + [x], trace) == hs + [x];
    forall h | h in hs + [x] ensures Grouped(p + [x], trace, size, more', size', h) {
      if h != x { assert Grouped(p, trace, size, more, size', h); }
    }
  }

  /** A backtrace without a head has no other blocks either. */
  lemma {:induction false} NoKin(p: seq<Id>, trace: map<Id, Trace>, t: Trace, size: map<Id, nat>)
    requires !HasHead(Heads(p, trace), trace, t)
    ensures Kin(Others(p, trace), trace, t) == [] && Sum(Kin(Others(p, trace), trace, t), size) == 0
  {
    if p != [] {
      hide Kin, Heads, Others, Tr;
      var q, x := p[..|p| - 1], p[|p| - 1];
      assert p == q + [x];
      SnocHeads(q, x, trace);
      SnocKin(Others(q, trace), x, trace, t);
      var hs := Heads(q, trace);
      if HasHead(hs, trace, t) {
        HeadGrows(hs, if HasHead(hs, trace, Tr(trace, x)) then [] else [x], trace, t);
        assert false;
      }
      NoKin(q, trace, t, size);
      if HasHead(hs, trace, Tr(trace, x)) {
        assert Others(p, trace) == Others(q, trace) + [x];
        assert t != Tr(trace, x);
      } else {
        assert Others(p, trace) == Others(q, trace);
      }
    }
  }

  lemma HeadGrows(hs: seq<Id>, more: seq<Id>, trace: map<Id, Trace>, t: Trace)
    requires HasHead(hs, trace, t)
    ensures HasHead(hs + more, trace, t)
  {
    var i :| 0 <= i < |hs| && Tr(trace, hs[i]) == t;
    assert (hs + more)[i] == hs[i];
  }

  lemma CollectedMore(p: seq<Id>, x: Id, h: Id, trace: map<Id, Trace>, hash: Trace -> nat, size: map<Id, nat>,
                      buckets: seq<seq<Id>>, more: map<Id, seq<Id>>, size': map<Id, nat>)
    requires Collected(p, trace, hash, size, buckets, more, size') && x !in p && Distinct<Id>(p)
    requires h in size' && OneEach(Heads(p, trace), trace)
    requires h in Heads(p, trace) && Tr(trace, h) == Tr(trace, x)
    ensures h in more && Collected(p + [x], trace, hash, size, buckets, more[x := []][h := more[h] + [x]],
      size'[h := size'[h] + Sz(size', x)])
    ensures Others(p + [x], trace) == Others(p, trace) + [x] && Heads(p + [x], trace) == Heads(p, trace)
  {
    hide Bucket, Kin, Heads, Others, Sum, Tr;
    Partition(p, trace);
    SnocHeads(p, x, trace);
    assert Grouped(p, trace, size, more, size', h);
    SnocSum(more[h], x, size);
    var hs := Heads(p, trace);
    assert HasHead(hs, trace, Tr(trace, x)) by { var i :| 0 <= i < |hs| && hs[i] == h; }
    var more', size'' := more[x := []][h := more[h] + [x]], size'[h := size'[h] + Sz(size', x)];
    assert h in p && h != x;
    assert Others(p + [x], trace) == Others(p, trace) + [x] && Heads(p + [x], trace) == hs;
    forall g | g in hs ensures Grouped(p + [x], trace, size, more', size'', g) {
      assert g in p && Grouped(p, trace, size, more, size', g);
      SnocKin(Others(p, trace), x, trace, Tr(trace, g));
      if g != h {
        SameHead(hs, trace, g, h);
        assert Kin(Others(p + [x], trace), trace, Tr(trace, g)) == more[g];
      }
    }
  }

  /** No two heads share a backtrace. */
  ghost predicate OneEach(hs: seq<Id>, trace: map<Id, Trace>) {
    forall i, j :: 0 <= i < j < |hs| ==> Tr(trace, hs[i]) != Tr(trace, hs[j])
  }

  lemma SameHead(hs: seq<Id>, trace: map<Id, Trace>, g: Id, h: Id)
    requires OneEach(hs, trace) && g in hs && h in hs && g != h
    ensures Tr(trace, g) != Tr(trace, h)
  {
    var i :| 0 <= i < |hs| && hs[i] == g;
    var j :| 0 <= j < |hs| && hs[j] == h;
  }

  lemma {:induction false} HeadsOneEach(p: seq<Id>, trace: map<Id, Trace>)
    ensures OneEach(Heads(p, trace), trace)
  {
    if p != [] {
      HeadsOneEach(p[..|p| - 1], trace);
    }
  }

  /** A backtrace has a head exactly if its bucket holds one. */
  lemma FoundInBucket(hs: seq<Id>, trace: map<Id, Trace>, hash: Trace -> nat, t: Trace)
    ensures HasHead(hs, trace, t) <==> exists h :: h in Bucket(hs, trace, hash, hash(t) % NBUCKET) && Tr(trace, h) == t
    ensures forall h :: h in Bucket(hs, trace, hash, hash(t) % NBUCKET) ==> h in hs
  {
    hide Tr;
    BucketMembers(hs, trace, hash, hash(t) % NBUCKET);
    if i :| 0 <= i < |hs| && Tr(trace, hs[i]) == t { assert hs[i] in Bucket(hs, trace, hash, hash(t) % NBUCKET); }
    if h :| h in Bucket(hs, trace, hash, hash(t) % NBUCKET) && Tr(trace, h) == t {
      var i :| 0 <= i < |hs| && hs[i] == h;
    }
  }

  /** The part of a number that 32 bits do not hold. */
  function Excess(n: nat): (e: nat)
    ensures n == e + n % UINT32 && (e == 0 <==> n < UINT32)
  {
    n - n % UINT32
  }

  /** What the dump makes of a size: the part of a group beyond 32 bits stays
      with its head. */
  ghost function Dumped(xs: seq<Id>, trace: map<Id, Trace>, size: map<Id, nat>, x: Id): nat {
    Sz(size, x) + if x in Heads(xs, trace) then Excess(Beside(xs, trace, size, x)) else 0
  }

  /** Total size of the group of h. */
  ghost function Total(xs: seq<Id>, trace: map<Id, Trace>, size: map<Id, nat>, h: Id): nat
  {
    Sz(size, h) + Beside(xs, trace, size, h)
  }

  /** Groups by ascending total; of two with the same total the one collected later
      is first. */
  ghost predicate Ranked(xs: seq<Id>, trace: map<Id, Trace>, hash: Trace -> nat, size: map<Id, nat>, sorted: seq<Id>) {
    forall i, j :: 0 <= i < j < |sorted| ==>
      && Total(xs, trace, size, sorted[i]) <= Total(xs, trace, size, sorted[j])
      && (Total(xs, trace, size, sorted[i]) == Total(xs, trace, size, sorted[j]) ==>
            Sooner(xs, trace, hash, sorted[j], sorted[i]))
  }

  /** mm.c: the debugging allocator's books. */
  class Books {
    const hash: Trace -> nat
    var blocks: seq<Id>
    var size: map<Id, nat>
    var trace: map<Id, Trace>
    var more: map<Id, seq<Id>>
    var curBlocks: nat
    var maxBlocks: nat
    var curAlloc: nat
    var maxAlloc: nat
    var count: nat

    ghost predicate Listed() reads this {
      Distinct<Id>(blocks) && forall i ::
        0 <= i < |blocks| ==> blocks[i] < count && blocks[i] in size && blocks[i] in trace
    }

    /** The totals are those of the linked blocks, and the maxima bound them. */
    ghost predicate Valid() reads this {
      && Listed()
      && curBlocks == |blocks| <= maxBlocks
      && curAlloc == Sum(blocks, size) <= maxAlloc
    }

    constructor (hash: Trace -> nat)
      ensures Valid() && blocks == []
    {
      this.hash := hash;
      blocks, size, trace, more := [], map[], map[], map[];
      curBlocks, maxBlocks, curAlloc, maxAlloc, count := 0, 0, 0, 0, 0;
    }

    /** memblk_alloc */
    method Alloc(sz: nat, bt: Trace, mem: bool) returns (x: Option<Id>)
      requires Valid()
      modifies this
      ensures Valid() && x == if sz > 0 && mem then Some(old(count)) else None
      ensures blocks == if x.Some? then old(blocks) + [x.value] else old(blocks)
      ensures x.Some? ==> size == old(size)[x.value := sz] && trace == old(trace)[x.value := bt]
      ensures maxBlocks == Max(old(maxBlocks), curBlocks) && maxAlloc == Max(old(maxAlloc), curAlloc)
    {
      if sz == 0 || !mem { return None; }
      var id := count;
      x := Some(id);
      SumAgain(blocks, size, size[id := sz]);
      SnocSum(blocks, id, size[id := sz]);
      blocks, size, trace, more, count := blocks + [id], size[id := sz], trace[id := bt], more[id := []], count + 1;
      curBlocks, curAlloc := curBlocks + 1, curAlloc + sz;
      maxBlocks, maxAlloc := Max(maxBlocks, curBlocks), Max(maxAlloc, curAlloc);
    }

    /** memblk_free */
    method Free(x: Id)
      requires Valid() && x in blocks
      modifies this
      ensures Valid() && blocks == Without<Id>(old(blocks), x) && size == old(size) && trace == old(trace)
      ensures maxBlocks == old(maxBlocks) && maxAlloc == old(maxAlloc)
    {
      hide Without;
      Unlinked(blocks, x, size);
      blocks := Without<Id>(blocks, x);
      curBlocks, curAlloc := curBlocks - 1, curAlloc - Sz(size, x);
    }

    /** memblk_resize of a block: it moves to the end of the list, whether or
        not there is memory; a size of 0 frees it. */
    method Resize(x: Id, sz: nat, bt: Trace, mem: bool) returns (r: Option<Id>)
      requires Valid() && x in blocks
      modifies this
      ensures Valid() && r == if sz > 0 && mem then Some(x) else None
      ensures blocks == Without<Id>(old(blocks), x) + if sz > 0 then [x] else []
      ensures r.Some? ==> size == old(size)[x := sz] && trace == old(trace)[x := bt]
      ensures r.None? ==> size == old(size) && trace == old(trace)
      ensures maxBlocks == old(maxBlocks) && maxAlloc == if sz > 0 then Max(old(maxAlloc), curAlloc) else old(maxAlloc)
    {
      hide Without, Sum;
      r := None;
      if sz == 0 { Free(x); return; }
      ToTheEnd(blocks, x, size, sz);
      blocks := Without<Id>(blocks, x) + [x];
      if mem {
        curAlloc := curAlloc - size[x] + sz;
        maxAlloc := Max(maxAlloc, curAlloc);
        size, trace := size[x := sz], trace[x := bt];
        r := Some(x);
      }
    }

    /** blkfind */
    method BlkFind(bucket: seq<Id>, t: Trace) returns (h: Option<Id>)
      ensures h.None? ==> forall x :: x in bucket ==> Tr(trace, x) != t
      ensures h.Some? ==> h.value in bucket && Tr(trace, h.value) == t
    {
      for k := 0 to |bucket|
        invariant forall i :: 0 <= i < k ==> Tr(trace, bucket[i]) != t
      {
        if Tr(trace, bucket[k]) == t { return Some(bucket[k]); }
      }
      h := None;
    }

    /** collect_blocks: the first block of each backtrace goes from the list to
        its bucket, the rest stay. */
    method Collect() returns (buckets: seq<seq<Id>>)
      requires Listed()
      modifies this`blocks, this`size, this`more
      ensures blocks == Others(old(blocks), trace)
      ensures Collected(old(blocks), trace, hash, old(size), buckets, more, size)
      ensures size.Keys == old(size).Keys
    {
      hide Heads, Others, Bucket, Kin, Sum, Collected, Tr, HasHead;
      buckets := seq(NBUCKET, _ => []);
      ghost var xs, k := blocks, 0;
      CollectedNone(trace, hash, size, buckets, more);
      assert xs[..0] == [] && blocks[..0] == [] && blocks[0..] == xs[0..];
      var pos := 0;
      while pos < |blocks|
        invariant 0 <= k <= |xs| && 0 <= pos <= |blocks| && blocks[..pos] == Others(xs[..k], trace)
        invariant blocks[pos..] == xs[k..]
        invariant Collected(xs[..k], trace, hash, old(size), buckets, more, size) && size.Keys == old(size).Keys
        decreases |xs| - k
      {
        Splits(xs, k, blocks, pos);
        buckets, pos := CollectOne(buckets, pos, xs[..k], old(size));
        k := k + 1;
      }
      assert xs[..k] == xs && blocks[..pos] == blocks;
    }

    /** One step of the walk, with p the blocks already dealt with. */
    method CollectOne(buckets: seq<seq<Id>>, pos: nat, ghost p: seq<Id>,
                      ghost size0: map<Id, nat>) returns (buckets': seq<seq<Id>>, pos': nat)
      requires pos < |blocks| && blocks[pos] !in p && Distinct<Id>(p) && blocks[..pos] == Others(p, trace)
      requires blocks[pos] in trace && forall i :: 0 <= i < |p| ==> p[i] in size
      requires Collected(p, trace, hash, size0, buckets, more, size)
      modifies this`blocks, this`size, this`more
      ensures Collected(p + [old(blocks)[pos]], trace, hash, size0, buckets', more, size) && size.Keys == old(size).Keys
      ensures pos' <= |blocks| && blocks[..pos'] == Others(p + [old(blocks)[pos]], trace)
      ensures blocks[pos'..] == old(blocks)[pos + 1..]
    {
      hide Heads, Others, Bucket, Kin, Sum, Collected, Tr, HasHead;
      var x := blocks[pos];
      var i := hash(trace[x]) % NBUCKET;
      ghost var more0 := more;
      buckets', pos' := buckets, pos;
      TrIs(trace, x);
      BucketIs(p, trace, hash, size0, buckets, more, size, i);
      FoundInBucket(Heads(p, trace), trace, hash, trace[x]);
      more := more[x := []];
      var h := BlkFind(buckets[i], trace[x]);
      if h.Some? {
        AHead(p, trace, h.value);
        HeadsOneEach(p, trace);
        CollectedMore(p, x, h.value, trace, hash, size0, buckets, more0, size);
        more := more[h.value := more[h.value] + [x]];
        size := size[h.value := size[h.value] + Sz(size, x)];
        pos' := pos + 1;
      } else {
        CollectedHead(p, x, trace, hash, size0, buckets, more0, size);
        blocks := blocks[..pos] + blocks[pos + 1..];
        buckets' := buckets[i := buckets[i] + [x]];
      }
    }

    /** sort_blocks: insertion sort of all heads, by the size of their groups. */
    method SortBlocks(buckets: seq<seq<Id>>, ghost hs: seq<Id>) returns (sorted: seq<Id>)
      requires |buckets| == NBUCKET && Distinct<Id>(hs)
      requires forall i :: 0 <= i < NBUCKET ==> buckets[i] == Bucket(hs, trace, hash, i)
      ensures Ascending(sorted, size) && Distinct<Id>(sorted)
      ensures Latest(hs, trace, hash, size, sorted)
      ensures forall x :: x in sorted <==> x in hs
    {
      hide Bucket, Tr, Latest, Sooner, Ascending, Sz;
      NoneSorted(hs, trace, hash, size);
      sorted := [];
      for i := 0 to NBUCKET
        invariant Ascending(sorted, size) && Distinct<Id>(sorted) && Latest(hs, trace, hash, size, sorted)
        invariant forall x :: x in sorted <==> x in hs && hash(Tr(trace, x)) % NBUCKET < i
      {
        BucketMembers(hs, trace, hash, i);
        var b := buckets[i];
        ghost var s0 := sorted;
        for j := 0 to |b|
          invariant Ascending(sorted, size) && Distinct<Id>(sorted) && Latest(hs, trace, hash, size, sorted)
          invariant forall x :: x in sorted <==> x in s0 || x in b[..j]
        {
          assert b[j] in b && b[j] !in b[..j];
          forall x | x in sorted ensures Sooner(hs, trace, hash, x, b[j]) {
            ComesLater(hs, trace, hash, i, x, b, j);
          }
          ghost var was := sorted;
          var k;
          sorted, k := InsertSorted(sorted, b[j], size);
          LatestNext(hs, trace, hash, size, was, b[j], k);
          assert b[..j + 1] == b[..j] + [b[j]];
        }
        assert b[..|b|] == b;
      }
    }

    /** group_usage without the head: a sum of 32 bits. */
    method GroupUsage(xs: seq<Id>) returns (total: nat)
      ensures total == Sum(xs, size) % UINT32
    {
      total := 0;
      assert xs[..0] == [];
      for k := 0 to |xs|
        invariant total == Sum(xs[..k], size) % UINT32
      {
        assert xs[..k + 1] == xs[..k] + [xs[k]];
        SnocSum(xs[..k], xs[k], size);
        total := (total + Sz(size, xs[k])) % UINT32;
      }
      assert xs[..|xs|] == xs;
    }

    /** relink_blocks: the heads go back to the list, in order of size, and are
        given back their own sizes. */
    method Relink(sorted: seq<Id>, ghost xs: seq<Id>, ghost size0: map<Id, nat>)
      requires Distinct<Id>(sorted) && Distinct<Id>(xs) && forall x :: x in sorted <==> x in Heads(xs, trace)
      requires forall x :: x in xs ==> x in size
      requires forall h :: h in Heads(xs, trace) ==> Grouped(xs, trace, size0, more, size, h)
      requires forall x :: x !in Heads(xs, trace) ==> Sz(size, x) == Sz(size0, x)
      modifies this`blocks, this`size
      ensures blocks == old(blocks) + sorted && size.Keys == old(size).Keys
      ensures forall x :: Sz(size, x) == Dumped(xs, trace, size0, x)
    {
      hide Heads, Others, Kin, Sum, Tr, Dumped;
      Partition(xs, trace);
      for j := 0 to |sorted|
        invariant blocks == old(blocks) + sorted[..j] && size.Keys == old(size).Keys
        invariant forall x :: Sz(size, x) == if x in sorted[..j] then Dumped(xs, trace, size0, x) else Sz(old(size), x)
      {
        var h := sorted[j];
        assert h in sorted && h !in sorted[..j] && sorted[..j + 1] == sorted[..j] + [h];
        assert Grouped(xs, trace, size0, more, old(size), h);
        blocks := blocks + [h];
        var rest := GroupUsage(more[h]);
        KinUnchanged(xs, trace, size0, size, h, sorted);
        RelinkOne(xs, trace, size0, h);
        size := size[h := size[h] - rest];
      }
      assert sorted[..|sorted|] == sorted;
      DumpedOthers(xs, trace, size0);
    }

    /** iot_mm_dump: the blocks end up in another order, those that are not the
        first of their backtrace first. Every size comes out as it was exactly
        if no group has 4 GiB besides its head; otherwise the books are off. */
    method Dump() returns (ghost sorted: seq<Id>)
      requires Valid()
      modifies this`blocks, this`size, this`more
      ensures blocks == Others(old(blocks), trace) + sorted && Listed()
      ensures forall x :: x in blocks <==> x in old(blocks)
      ensures forall x :: x in sorted <==> x in Heads(old(blocks), trace)
      ensures Ranked(old(blocks), trace, hash, old(size), sorted)
      ensures forall x :: Sz(size, x) == Dumped(old(blocks), trace, old(size), x)
      ensures Valid() <==>
        forall h :: h in Heads(old(blocks), trace) ==> Beside(old(blocks), trace, old(size), h) < UINT32
    {
      hide Heads, Others, Bucket, Kin, Sum, Tr, Dumped, Beside, Collected;
      ghost var xs, size0 := blocks, size;
      Partition(xs, trace);
      var buckets := Collect();
      CollectedFacts(xs, trace, hash, size0, buckets, more, size);
      var s := SortBlocks(buckets, Heads(xs, trace));
      SortedTotals(xs, trace, hash, size0, more, size, s);
      Relink(s, xs, size0);
      sorted := s;
      Relinked(xs, trace, blocks, size0, size, s);
      forall i | 0 <= i < |blocks| ensures blocks[i] in xs { assert blocks[i] in blocks; }
    }
  }

  lemma NoneSorted(hs: seq<Id>, trace: map<Id, Trace>, hash: Trace -> nat, size: map<Id, nat>)
    ensures Ascending([], size) && Latest(hs, trace, hash, size, [])
  {
  }

  lemma ComesLater(hs: seq<Id>, trace: map<Id, Trace>, hash: Trace -> nat, i: nat, x: Id, b: seq<Id>, j: nat)
    requires b == Bucket(hs, trace, hash, i) && j < |b|
    requires hash(Tr(trace, x)) % NBUCKET < i || x in b[..j]
    ensures Sooner(hs, trace, hash, x, b[j])
  {
    hide Tr, Bucket;
    BucketMembers(hs, trace, hash, i);
    assert b[j] in b;
    if x in b[..j] {
      var p :| 0 <= p < j && b[p] == x;
      assert b[p] in b && Before(b, x, b[j]);
      BucketOrder(hs, trace, hash, i, x, b[j]);
    }
  }

  lemma CollectedFacts(p: seq<Id>, trace: map<Id, Trace>, hash: Trace -> nat, size: map<Id, nat>,
                       buckets: seq<seq<Id>>, more: map<Id, seq<Id>>, size': map<Id, nat>)
    requires Collected(p, trace, hash, size, buckets, more, size')
    ensures |buckets| == NBUCKET && forall i ::
      0 <= i < NBUCKET ==> buckets[i] == Bucket(Heads(p, trace), trace, hash, i)
    ensures forall h :: h in Heads(p, trace) ==> Grouped(p, trace, size, more, size', h)
    ensures forall x :: x !in Heads(p, trace) ==> Sz(size', x) == Sz(size, x)
  {
  }

  lemma SortedTotals(xs: seq<Id>, trace: map<Id, Trace>, hash: Trace -> nat, size: map<Id, nat>, more: map<Id, seq<Id>>,
                     size': map<Id, nat>, sorted: seq<Id>)
    requires Distinct<Id>(xs) && forall h :: h in Heads(xs, trace) ==> Grouped(xs, trace, size, more, size', h)
    requires Ascending(sorted, size') && forall x :: x in sorted <==> x in Heads(xs, trace)
    requires Latest(Heads(xs, trace), trace, hash, size', sorted)
    ensures Ranked(xs, trace, hash, size, sorted)
  {
    hide Heads, Kin, Beside, Sz, Sooner, Tr;
    forall i | 0 <= i < |sorted| ensures Total(xs, trace, size, sorted[i]) == Sz(size', sorted[i]) {
      assert sorted[i] in sorted;
      assert Grouped(xs, trace, size, more, size', sorted[i]);
    }
    forall i, j | 0 <= i < j < |sorted| && Sooner(Heads(xs, trace), trace, hash, sorted[j], sorted[i])
      ensures Sooner(xs, trace, hash, sorted[j], sorted[i])
    {
      SoonerOfAll(xs, trace, hash, sorted[j], sorted[i]);
    }
  }

  lemma SoonerOfAll(xs: seq<Id>, trace: map<Id, Trace>, hash: Trace -> nat, x: Id, y: Id)
    requires Distinct<Id>(xs) && Sooner(Heads(xs, trace), trace, hash, x, y)
    ensures Sooner(xs, trace, hash, x, y)
  {
    KeptOrder(xs, trace, x, y);
  }

  /** The members of a group are no heads, so their sizes have not changed. */
  lemma KinUnchanged(xs: seq<Id>, trace: map<Id, Trace>, size: map<Id, nat>, size': map<Id, nat>, h: Id, heads: seq<Id>)
    requires Distinct<Id>(xs) && forall x :: x in heads <==> x in Heads(xs, trace)
    requires forall x :: x !in Heads(xs, trace) ==> Sz(size', x) == Sz(size, x)
    ensures Sum(Kin(Others(xs, trace), trace, Tr(trace, h)), size') == Beside(xs, trace, size, h)
  {
    hide Heads, Others, Kin, Sum, Tr, Sz;
    Partition(xs, trace);
    var kin := Kin(Others(xs, trace), trace, Tr(trace, h));
    KinMembers(Others(xs, trace), trace, Tr(trace, h));
    forall i | 0 <= i < |kin| ensures Sz(size, kin[i]) == Sz(size', kin[i]) { assert kin[i] in kin; }
    SumAgain(kin, size, size');
  }

  lemma RelinkOne(xs: seq<Id>, trace: map<Id, Trace>, size: map<Id, nat>, h: Id)
    requires h in Heads(xs, trace)
    ensures Dumped(xs, trace, size, h) == Sz(size, h) + Beside(xs, trace, size, h) - Beside(xs, trace, size, h) % UINT32
  {
  }

  lemma DumpedOthers(xs: seq<Id>, trace: map<Id, Trace>, size: map<Id, nat>)
    ensures forall x :: x !in Heads(xs, trace) ==> Dumped(xs, trace, size, x) == Sz(size, x)
  {
  }

  /** What became of the books. */
  lemma Relinked(xs: seq<Id>, trace: map<Id, Trace>, blocks: seq<Id>, size: map<Id, nat>, size': map<Id, nat>,
                 sorted: seq<Id>)
    requires Distinct<Id>(xs) && Distinct<Id>(sorted) && (forall x :: x in sorted <==> x in Heads(xs, trace))
    requires blocks == Others(xs, trace) + sorted && forall x :: Sz(size', x) == Dumped(xs, trace, size, x)
    ensures Distinct<Id>(blocks) && |blocks| == |xs| && forall x :: x in blocks <==> x in xs
    ensures Sum(blocks, size') >= Sum(xs, size)
    ensures Sum(blocks, size') == Sum(xs, size) <==>
      forall h :: h in Heads(xs, trace) ==> Beside(xs, trace, size, h) < UINT32
  {
    hide Heads, Others, Sum, Beside, Sz, Dumped;
    Partition(xs, trace);
    DistinctConcat<Id>(Others(xs, trace), sorted);
    SameLength(sorted, Heads(xs, trace));
    SumSame(xs, blocks, size);
    DumpedSum(xs, trace, blocks, size, size');
  }

  lemma DumpedSum(xs: seq<Id>, trace: map<Id, Trace>, blocks: seq<Id>, size: map<Id, nat>, size': map<Id, nat>)
    requires forall x :: x in Heads(xs, trace) ==> x in blocks
    requires forall x :: Sz(size', x) == Dumped(xs, trace, size, x)
    ensures Sum(blocks, size') >= Sum(blocks, size)
    ensures Sum(blocks, size') == Sum(blocks, size) <==>
      forall h :: h in Heads(xs, trace) ==> Beside(xs, trace, size, h) < UINT32
  {
    hide Heads, Others, Sum, Beside, Sz;
    SumMore(blocks, size, size');
    if h :| h in Heads(xs, trace) && Beside(xs, trace, size, h) >= UINT32 {
      var i :| 0 <= i < |blocks| && blocks[i] == h;
    }
  }

  lemma SameLength(xs: seq<Id>, ys: seq<Id>)
    requires Distinct<Id>(xs) && Distinct<Id>(ys) && forall x :: x in xs <==> x in ys
    ensures |xs| == |ys|
  {
    NoLonger(xs, ys);
    NoLonger(ys, xs);
  }

  lemma {:induction false} NoLonger(xs: seq<Id>, ys: seq<Id>)
    requires Distinct<Id>(xs) && Distinct<Id>(ys) && forall x :: x in xs ==> x in ys
    ensures |xs| <= |ys|
    decreases |xs|
  {
    if xs != [] {
      hide Without;
      var x := xs[0];
      WithoutMembers<Id>(ys, x);
      WithoutDistinct<Id>(ys, x);
      assert x in ys;
      forall y | y in xs[1..] ensures y in Without<Id>(ys, x) { assert y != x; }
      NoLonger(xs[1..], Without<Id>(ys, x));
    }
  }

  lemma {:induction false} SumMore(xs: seq<Id>, size: map<Id, nat>, size': map<Id, nat>)
    requires forall i :: 0 <= i < |xs| ==> Sz(size', xs[i]) >= Sz(size, xs[i])
    ensures Sum(xs, size') >= Sum(xs, size)
    ensures Sum(xs, size') == Sum(xs, size) <==> forall i :: 0 <= i < |xs| ==> Sz(size', xs[i]) == Sz(size, xs[i])
  {
    if xs != [] {
      SumMore(xs[..|xs| - 1], size, size');
    }
  }

  lemma Splits(xs: seq<Id>, k: nat, blocks: seq<Id>, pos: nat)
    requires k <= |xs| && pos < |blocks| && blocks[pos..] == xs[k..] && Distinct<Id>(xs)
    ensures k < |xs| && blocks[pos] == xs[k] && blocks[pos + 1..] == xs[k + 1..]
    ensures xs[..k + 1] == xs[..k] + [xs[k]] && xs[k] !in xs[..k] && Distinct<Id>(xs[..k])
  {
    assert blocks[pos] == blocks[pos..][0];
    assert blocks[pos..][1..] == xs[k..][1..];
  }

  function Max(a: nat, b: nat): (m: nat)
    ensures m >= a && m >= b && (m == a || m == b)
  {
    if a > b then a else b
  }

  lemma TrIs(trace: map<Id, Trace>, x: Id)
    requires x in trace
    ensures Tr(trace, x) == trace[x]
  {
  }

  lemma Unlinked(xs: seq<Id>, x: Id, size: map<Id, nat>)
    requires Distinct<Id>(xs) && x in xs
    ensures var r := Without<Id>(xs, x);
      Distinct<Id>(r) && |r| == |xs| - 1 && x !in r && Sum(xs, size) == Sum(r, size) + Sz(size, x)
    ensures var r := Without<Id>(xs, x); forall i :: 0 <= i < |r| ==> r[i] in xs && r[i] != x
  {
    hide Without;
    WithoutMembers<Id>(xs, x);
    WithoutDistinct<Id>(xs, x);
    SumWithout(xs, x, size);
    var r := Without<Id>(xs, x);
    forall i | 0 <= i < |r| ensures r[i] in xs && r[i] != x { assert r[i] in r; }
  }

  lemma ToTheEnd(xs: seq<Id>, x: Id, size: map<Id, nat>, sz: nat)
    requires Distinct<Id>(xs) && x in xs && x in size
    ensures var r := Without<Id>(xs, x) + [x]; Distinct<Id>(r) && |r| == |xs| && forall i :: 0 <= i < |r| ==> r[i] in xs
    ensures var r := Without<Id>(xs, x) + [x];
      Sum(r, size) == Sum(xs, size) && Sum(r, size[x := sz]) == Sum(xs, size) - size[x] + sz
  {
    hide Without, Sum;
    Unlinked(xs, x, size);
    var rest := Without<Id>(xs, x);
    DistinctConcat<Id>(rest, [x]);
    SnocSum(rest, x, size);
    SnocSum(rest, x, size[x := sz]);
    SumAgain(rest, size, size[x := sz]);
  }

  lemma CollectedNone(trace: map<Id, Trace>, hash: Trace -> nat, size: map<Id, nat>, buckets: seq<seq<Id>>,
                      more: map<Id, seq<Id>>)
    requires |buckets| == NBUCKET && forall i :: 0 <= i < NBUCKET ==> buckets[i] == []
    ensures Collected([], trace, hash, size, buckets, more, size) && Others([], trace) == []
  {
  }

  lemma BucketIs(p: seq<Id>, trace: map<Id, Trace>, hash: Trace -> nat, size: map<Id, nat>, buckets: seq<seq<Id>>,
                 more: map<Id, seq<Id>>, size': map<Id, nat>, i: nat)
    requires Collected(p, trace, hash, size, buckets, more, size') && i < NBUCKET
    ensures |buckets| == NBUCKET && buckets[i] == Bucket(Heads(p, trace), trace, hash, i)
  {
  }

  lemma AHead(p: seq<Id>, trace: map<Id, Trace>, h: Id)
    requires Distinct<Id>(p) && h in Heads(p, trace)
    ensures h in p
  {
    Partition(p, trace);
  }
}
