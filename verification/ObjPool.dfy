/** The object pool: chunks of equal slots, each chunk with a two-level mask of
    free slots, on the list of chunks with space or on that of full ones. Mask
    words are the sets of their bits; a set bit means free. */
module ObjPool {
  import opened Seqs
  import opened PoolSize

  /** Bit i of the cache says that word i has a free slot. */
  datatype Chunk = Chunk(cache: set<nat>, used: seq<set<nat>>)

  /** A slot: the chunk's address and the index in the chunk. */
  datatype Slot = Slot(base: nat, s: nat)

  function Free(c: Chunk, s: nat): bool { s / 32 < |c.used| && s % 32 in c.used[s / 32] }

  /** The cache is exact, and the mask covers the n slots and no more. */
  ghost predicate ChunkOk(c: Chunk, n: nat) {
    && |c.used| == Words(n)
    && (forall i :: 0 <= i < |c.used| ==> (i in c.cache <==> c.used[i] != {}))
    && (forall i :: i in c.cache ==> i < |c.used|)
    && (forall i, b :: 0 <= i < |c.used| && b in c.used[i] ==> b < 32 && 32 * i + b < n)
  }

  /** ffs: the least bit of a word that is not 0. */
  function Ffs(word: set<nat>, from: nat): (r: nat)
    requires from < 32 && exists b :: from <= b < 32 && b in word
    ensures r in word && from <= r < 32 && forall b :: from <= b < r ==> b !in word
    decreases 32 - from
  {
    if from in word then from else Ffs(word, from + 1)
  }

  // ----- one chunk -----

  /** How many of the n slots are left behind i words. */
  function SlotsLeft(n: nat, i: nat): nat { if 32 * i <= n then n - 32 * i else 0 }

  /** The bits of word i that stand for slots. */
  function WordMask(n: nat, i: nat): (m: set<nat>)
    ensures forall b: nat :: b in m <==> b < 32 && 32 * i + b < n
  {
    if SlotsLeft(n, i) >= 32 then Range(32) else Range(SlotsLeft(n, i))
  }

  lemma SlotsLeftFacts(n: nat, i: nat)
    ensures SlotsLeft(n, i) > 0 <==> i < Words(n)
    ensures SlotsLeft(n, i + 1) == if SlotsLeft(n, i) >= 32 then SlotsLeft(n, i) - 32 else 0
  {
  }

  /** chunk_init: none if the shift by the number of mask words is undefined. For
      31 words (1 << 31) - 1 is taken to wrap around, as it does in practice. */
  method ChunkInit(n: nat) returns (r: Option<Chunk>)
    ensures r.Some? <==> Words(n) <= 31
    ensures r.Some? ==> ChunkOk(r.value, n) && forall s: nat :: s < n ==> Free(r.value, s)
  {
    hide WordMask, Range, ChunkOk, Free, Words, SlotsLeft;
    var used, left, i := [], n, 0;
    SlotsLeftStart(n);
    while left > 0
      invariant |used| == i && left == SlotsLeft(n, i) && i <= Words(n)
      invariant forall j :: 0 <= j < i ==> used[j] == WordMask(n, j)
    {
      SlotsLeftFacts(n, i);
      WordMaskIs(n, i);
      used := used + [if left >= 32 then Range(32) else Range(left)];
      left := if left >= 32 then left - 32 else 0;
      i := i + 1;
    }
    SlotsLeftFacts(n, i);
    if Words(n) > 31 { return None; }
    var c := Chunk(Range(Words(n)), used);
    InitOk(c, n);
    r := Some(c);
  }

  lemma WordMaskIs(n: nat, i: nat)
    ensures WordMask(n, i) == if SlotsLeft(n, i) >= 32 then Range(32) else Range(SlotsLeft(n, i))
  {
  }

  lemma SlotsLeftStart(n: nat)
    ensures SlotsLeft(n, 0) == n
  {
  }

  lemma InitOk(c: Chunk, n: nat)
    requires |c.used| == Words(n) && (forall j :: 0 <= j < Words(n) ==> c.used[j] == WordMask(n, j))
    requires c.cache == Range(Words(n))
    ensures ChunkOk(c, n) && forall s: nat :: s < n ==> Free(c, s)
  {
    hide WordMask, Range;
    forall j | 0 <= j < Words(n) ensures c.used[j] != {} { assert 0 in WordMask(n, j); }
  }

  function Taken(c: Chunk, s: nat): Chunk
    requires s / 32 < |c.used|
  {
    var used := c.used[s / 32 := c.used[s / 32] - {s % 32}];
    Chunk(if used[s / 32] == {} then c.cache - {s / 32} else c.cache, used)
  }

  function Given(c: Chunk, s: nat): Chunk
    requires s / 32 < |c.used|
  {
    Chunk(c.cache + {s / 32}, c.used[s / 32 := c.used[s / 32] + {s % 32}])
  }

  lemma TakenOk(c: Chunk, s: nat, n: nat)
    requires ChunkOk(c, n) && Free(c, s)
    ensures ChunkOk(Taken(c, s), n)
    ensures forall t: nat :: Free(Taken(c, s), t) <==> Free(c, t) && t != s
  {
    forall t: nat ensures t == s <==> t / 32 == s / 32 && t % 32 == s % 32 {}
  }

  lemma GivenOk(c: Chunk, s: nat, n: nat)
    requires ChunkOk(c, n) && s < n
    ensures ChunkOk(Given(c, s), n)
    ensures forall t: nat :: Free(Given(c, s), t) <==> Free(c, t) || t == s
  {
    forall t: nat ensures t == s <==> t / 32 == s / 32 && t % 32 == s % 32 {}
  }

  /** The slot found by two ffs: the first free one. */
  function FirstFree(c: Chunk): nat
    requires exists i :: 0 <= i < 32 && i in c.cache
    requires forall i :: i in c.cache ==> i < |c.used| && exists b :: 0 <= b < 32 && b in c.used[i]
  {
    var cidx := Ffs(c.cache, 0);
    cidx * 32 + Ffs(c.used[cidx], 0)
  }

  lemma FirstFreeOk(c: Chunk, n: nat)
    requires ChunkOk(c, n) && c.cache != {} && Words(n) <= 32
    ensures exists i :: 0 <= i < 32 && i in c.cache
    ensures forall i :: i in c.cache ==> i < |c.used| && exists b :: 0 <= b < 32 && b in c.used[i]
    ensures FirstFree(c) < n && Free(c, FirstFree(c)) && forall t: nat :: t < FirstFree(c) ==> !Free(c, t)
  {
    var i :| i in c.cache;
    assert i < 32;
    forall i | i in c.cache ensures exists b :: 0 <= b < 32 && b in c.used[i] {
      var b :| b in c.used[i];
      assert b < 32;
    }
    var cidx := Ffs(c.cache, 0);
    var uidx := Ffs(c.used[cidx], 0);
    assert FirstFree(c) / 32 == cidx && FirstFree(c) % 32 == uidx;
    forall t: nat | t < FirstFree(c) ensures !Free(c, t) {
      var i, b := t / 32, t % 32;
      assert i < cidx || (i == cidx && b < uidx);
    }
  }

  /** chunk_empty: nothing is allocated. The cache word is compared with 16
      ones, so only chunks of 16 mask words are ever found empty. */
  method ChunkEmpty(c: Chunk, n: nat) returns (empty: bool)
    requires ChunkOk(c, n)
    ensures empty <==> Words(n) == 16 && forall s: nat :: s < n ==> Free(c, s)
  {
    hide WordMask, Range, ChunkOk, Free, Words, SlotsLeft;
    EmptyCache(c, n);
    if c.cache != Range(16) {
      return false;
    }
    var left, i := n, 0;
    SlotsLeftStart(n);
    while left > 0
      invariant i <= Words(n) == |c.used| && left == SlotsLeft(n, i)
      invariant forall j :: 0 <= j < i ==> WordMask(n, j) <= c.used[j]
    {
      SlotsLeftFacts(n, i);
      WordMaskIs(n, i);
      var mask := if left >= 32 then Range(32) else Range(left);
      if !(mask <= c.used[i]) {
        return false;
      }
      left := if left >= 32 then left - 32 else 0;
      i := i + 1;
    }
    SlotsLeftFacts(n, i);
    empty := true;
  }

  /** With 4 KiB pages and objects of more than 16 bytes, a chunk without any
      object is not found empty, so such pools never shrink. */
  method FreshChunk(objsize: nat) returns (c: Chunk, empty: bool)
    requires objsize > 16
    ensures CalcSizes(8192, SlotSize(objsize)).Sizes?
    ensures var n := CalcSizes(8192, SlotSize(objsize)).nperchunk;
      ChunkOk(c, n) && forall s: nat :: s < n ==> Free(c, s)
    ensures !empty
  {
    hide CalcSizes, SlotSize, ChunkOk, Free;
    SlotSizeFits(objsize);
    CacheWide(objsize);
    var n := CalcSizes(8192, SlotSize(objsize)).nperchunk;
    var r := ChunkInit(n);
    c := r.value;
    empty := ChunkEmpty(c, n);
  }

  /** What the tests of chunk_empty amount to. */
  lemma EmptyCache(c: Chunk, n: nat)
    requires ChunkOk(c, n)
    ensures |c.used| == Words(n)
    ensures (forall s: nat :: s < n ==> Free(c, s)) <==> forall j :: 0 <= j < Words(n) ==> WordMask(n, j) <= c.used[j]
    ensures (forall s: nat :: s < n ==> Free(c, s)) ==> (c.cache == Range(16) <==> Words(n) == 16)
  {
    hide WordMask, Range;
    if forall j :: 0 <= j < Words(n) ==> WordMask(n, j) <= c.used[j] {
      forall s: nat | s < n ensures Free(c, s) { assert s % 32 in WordMask(n, s / 32); }
    }
    if forall s: nat :: s < n ==> Free(c, s) {
      forall j | 0 <= j < Words(n) ensures WordMask(n, j) <= c.used[j] {
        forall b | b in WordMask(n, j) ensures b in c.used[j] { assert Free(c, 32 * j + b); }
      }
      forall j | 0 <= j < Words(n) ensures c.used[j] != {} { assert 0 in WordMask(n, j); }
      assert c.cache == Range(Words(n));
    }
  }

  // ----- the pool -----

  /** Chunks by address, the two lists, and the slots that are allocated. */
  datatype State = State(chunks: map<nat, Chunk>, space: seq<nat>, full: seq<nat>, live: set<Slot>)

  /** Every chunk is on one list, on `full` exactly if its cache is 0. */
  ghost predicate Listed(p: State) {
    && Distinct<nat>(p.space) && Distinct<nat>(p.full)
    && (forall i :: 0 <= i < |p.space| ==> p.space[i] in p.chunks && p.chunks[p.space[i]].cache != {})
    && (forall i :: 0 <= i < |p.full| ==> p.full[i] in p.chunks && p.chunks[p.full[i]].cache == {})
    && (forall b :: b in p.chunks ==> b in p.space || b in p.full)
  }

  ghost predicate Masked(p: State, n: nat) { forall b :: b in p.chunks ==> ChunkOk(p.chunks[b], n) }

  ghost predicate Living(p: State, n: nat) {
    && (forall x :: x in p.live ==> x.base in p.chunks && x.s < n && !Free(p.chunks[x.base], x.s))
    && (forall b, s: nat :: b in p.chunks && s < n && !Free(p.chunks[b], s) ==> Slot(b, s) in p.live)
  }

  ghost predicate Sound(p: State, n: nat) { Listed(p) && Masked(p, n) && Living(p, n) }

  /** Slot s of the first chunk with space allocated. */
  function Took(p: State, s: nat): State
    requires p.space != [] && p.space[0] in p.chunks && s / 32 < |p.chunks[p.space[0]].used|
  {
    var b := p.space[0];
    var c := Taken(p.chunks[b], s);
    if c.cache == {} then State(p.chunks[b := c], p.space[1..], p.full + [b], p.live + {Slot(b, s)})
    else State(p.chunks[b := c], p.space, p.full, p.live + {Slot(b, s)})
  }

  function Gave(p: State, b: nat, s: nat): State
    requires b in p.chunks && s / 32 < |p.chunks[b].used|
  {
    var c := Given(p.chunks[b], s);
    if p.chunks[b].cache == {}
      then State(p.chunks[b := c], p.space + [b], Without<nat>(p.full, b), p.live - {Slot(b, s)})
    else State(p.chunks[b := c], p.space, p.full, p.live - {Slot(b, s)})
  }

  function Grown(p: State, b: nat, c: Chunk): State { State(p.chunks[b := c], p.space + [b], p.full, p.live) }

  function Shrunk(p: State, b: nat): State { State(p.chunks - {b}, Without<nat>(p.space, b), p.full, p.live) }

  lemma TookOk(p: State, s: nat, n: nat)
    requires Sound(p, n) && p.space != [] && p.space[0] in p.chunks && Free(p.chunks[p.space[0]], s) && s < n
    ensures Sound(Took(p, s), n) && Slot(p.space[0], s) !in p.live
  {
    TakenOk(p.chunks[p.space[0]], s, n);
    hide Taken, ChunkOk, Free, Listed;
    TookListed(p, s, n);
    TookLiving(p, s, n);
  }

  lemma TookListed(p: State, s: nat, n: nat)
    requires Listed(p) && p.space != [] && p.space[0] in p.chunks && s / 32 < |p.chunks[p.space[0]].used|
    ensures Listed(Took(p, s))
  {
    hide Taken;
    var b := p.space[0];
    assert p.space == [b] + p.space[1..];
    assert b !in p.full;
    DistinctConcat<nat>(p.full, [b]);
  }

  lemma TookLiving(p: State, s: nat, n: nat)
    requires Living(p, n) && p.space != [] && p.space[0] in p.chunks && s < n && s / 32 < |p.chunks[p.space[0]].used|
    requires Free(p.chunks[p.space[0]], s)
    requires var c := p.chunks[p.space[0]]; forall t: nat :: Free(Taken(c, s), t) <==> Free(c, t) && t != s
    ensures Living(Took(p, s), n) && Slot(p.space[0], s) !in p.live
  {
    hide Taken, Free;
  }

  lemma GaveOk(p: State, b: nat, s: nat, n: nat)
    requires Sound(p, n) && b in p.chunks && s < n && !Free(p.chunks[b], s)
    ensures s / 32 < |p.chunks[b].used| && Sound(Gave(p, b, s), n) && Slot(b, s) in p.live
  {
    SlotWord(p.chunks[b], s, n);
    GivenOk(p.chunks[b], s, n);
    hide Given, ChunkOk, Free, Listed;
    CacheSet(p.chunks[b], s);
    GaveListed(p, b, s);
    GaveLiving(p, b, s, n);
  }

  lemma GaveListed(p: State, b: nat, s: nat)
    requires Listed(p) && b in p.chunks && s / 32 < |p.chunks[b].used| && Given(p.chunks[b], s).cache != {}
    ensures Listed(Gave(p, b, s))
    ensures p.chunks[b].cache == {} ==> |Without<nat>(p.full, b)| == |p.full| - 1
  {
    hide Given, Without;
    if p.chunks[b].cache == {} {
      assert b !in p.space && b in p.full;
      DistinctConcat<nat>(p.space, [b]);
      WithoutEach(p.full, b);
    } else {
      assert b !in p.full;
    }
  }

  lemma GaveLiving(p: State, b: nat, s: nat, n: nat)
    requires Living(p, n) && b in p.chunks && s < n && s / 32 < |p.chunks[b].used| && !Free(p.chunks[b], s)
    requires var c := p.chunks[b]; forall t: nat :: Free(Given(c, s), t) <==> Free(c, t) || t == s
    ensures Living(Gave(p, b, s), n) && Slot(b, s) in p.live
  {
    hide Given, Free;
  }

  lemma SlotWord(c: Chunk, s: nat, n: nat)
    requires ChunkOk(c, n) && s < n
    ensures s / 32 < |c.used|
  {
  }

  lemma CacheSet(c: Chunk, s: nat)
    requires s / 32 < |c.used|
    ensures Given(c, s).cache != {}
  {
    assert s / 32 in Given(c, s).cache;
  }

  lemma WithoutEach(xs: seq<nat>, x: nat)
    requires Distinct<nat>(xs)
    ensures Distinct<nat>(Without<nat>(xs, x)) && |Without<nat>(xs, x)| == if x in xs then |xs| - 1 else |xs|
    ensures forall y :: y in Without<nat>(xs, x) <==> y in xs && y != x
    ensures forall i :: 0 <= i < |Without<nat>(xs, x)| ==> Without<nat>(xs, x)[i] in xs && Without<nat>(xs, x)[i] != x
  {
    hide Without;
    WithoutMembers<nat>(xs, x);
    WithoutDistinct<nat>(xs, x);
    forall i | 0 <= i < |Without<nat>(xs, x)| ensures Without<nat>(xs, x)[i] in xs && Without<nat>(xs, x)[i] != x {
      assert Without<nat>(xs, x)[i] in Without<nat>(xs, x);
    }
  }

  lemma GrownOk(p: State, b: nat, c: Chunk, n: nat)
    requires Sound(p, n) && b !in p.chunks && ChunkOk(c, n) && c.cache != {} && forall s: nat :: s < n ==> Free(c, s)
    ensures Sound(Grown(p, b, c), n)
  {
    hide ChunkOk, Free;
    assert b !in p.space && b !in p.full;
    DistinctConcat<nat>(p.space, [b]);
  }

  lemma ShrunkOk(p: State, b: nat, n: nat)
    requires Sound(p, n) && b in p.space && b in p.chunks && forall s: nat :: s < n ==> Free(p.chunks[b], s)
    ensures Sound(Shrunk(p, b), n)
  {
    hide ChunkOk, Free, Without;
    WithoutEach(p.space, b);
    assert b !in p.full;
    forall x | x in p.live ensures x.base != b {}
  }

  const SIZE_MAX: nat := 0xFFFF_FFFF_FFFF_FFFF

  /** One less, as a size_t. */
  function Less(n: nat): (r: nat)
    ensures n <= SIZE_MAX ==> r <= SIZE_MAX && (r + 1) % (SIZE_MAX + 1) == n
  {
    if n == 0 then SIZE_MAX else n - 1
  }

  /** mm.c: an object pool with chunks of C bytes and n slots of S bytes. */
  class Pool {
    const C: nat
    const S: nat
    const n: nat
    var limit: nat
    var nobj: nat
    var chunks: map<nat, Chunk>
    var space: seq<nat>
    var nspace: nat
    var full: seq<nat>
    var nfull: nat
    ghost var live: set<Slot>

    ghost predicate Sized() { 0 < n && 0 < S && 0 < C && Offset(n, S, n - 1) + S <= C }

    ghost function Now(): State reads this { State(chunks, space, full, live) }

    /** All but the count of objects. A pool whose chunks have too many mask words
        has no chunk. */
    ghost predicate Sane() reads this {
      && Sized() && Sound(Now(), n)
      && (chunks != map[] ==> Words(n) <= 31)
      && nspace == |space| && nfull == |full|
      && forall b :: b in chunks ==> b % C == 0
    }

    ghost predicate Valid() reads this { Sane() && nobj == |live| }

    /** Addresses that the allocator may hand out for new chunks. */
    ghost predicate Unused(bases: seq<nat>) reads this {
      && 0 < C && Distinct<nat>(bases)
      && forall i :: 0 <= i < |bases| ==> bases[i] % C == 0 && bases[i] !in chunks
    }

    /** An object's address leads to its slot. */
    ghost predicate Names(a: nat, x: Slot) reads this {
      && 0 < C && 0 < S && a == Address(x.base, n, S, x.s) && x.s < n
      && ChunkOf(C, a) == x.base && SlotOf(C, n, S, a) == x.s
    }

    constructor (objsize: nat, limit: nat, C: nat)
      requires C >= 64
      requires var z := CalcSizes(C, SlotSize(objsize)); z.Sizes? ==> z.nperchunk > 0
      ensures Valid() && live == {} && chunks == map[] && space == [] && this.C == C && S == SlotSize(objsize)
      ensures CalcSizes(C, SlotSize(objsize)).Sizes? && n == CalcSizes(C, SlotSize(objsize)).nperchunk
      ensures S >= objsize && this.limit == RoundUp(limit, n)
    {
      hide CalcSizes, SlotSize, Offset, Words, Closed, RoundUp;
      Dimensions(C, objsize);
      var z := CalcSizes(C, SlotSize(objsize));
      this.C, S, n := C, SlotSize(objsize), z.nperchunk;
      this.limit := RoundUp(limit, z.nperchunk);
      nobj, chunks, space, nspace, full, nfull, live := 0, map[], [], 0, [], 0, {};
    }

    /** pool_grow: as many chunks as asked for, or as there is memory. The first
        chunk that is had shifts too far if the chunks have too many mask words. */
    method PoolGrow(nchunk: nat, bases: seq<nat>) returns (cnt: nat, shift: bool)
      requires Sane() && Unused(bases)
      modifies this`chunks, this`space, this`nspace
      ensures Sane() && (shift <==> Words(n) > 31 && nchunk > 0 && bases != [])
      ensures cnt == if shift then 0 else if nchunk <= |bases| then nchunk else |bases|
      ensures space == old(space) + bases[..cnt] && full == old(full)
      ensures forall b :: b in chunks <==> b in old(chunks) || b in bases[..cnt]
      ensures forall b :: b in old(chunks) ==> chunks[b] == old(chunks)[b]
      ensures cnt == 0 ==> chunks == old(chunks)
    {
      hide Sound, Words;
      cnt, shift := 0, false;
      while cnt < nchunk && cnt < |bases|
        invariant Sane() && cnt <= nchunk && cnt <= |bases| && full == old(full) && live == old(live)
        invariant cnt > 0 ==> Words(n) <= 31
        invariant space == old(space) + bases[..cnt]
        invariant forall b :: b in chunks <==> b in old(chunks) || b in bases[..cnt]
        invariant forall b :: b in old(chunks) ==> b in chunks && chunks[b] == old(chunks)[b]
        invariant cnt == 0 ==> chunks == old(chunks)
      {
        var b := bases[cnt];
        var init := ChunkInit(n);
        if init.None? { return cnt, true; }
        var c := init.value;
        assert b !in bases[..cnt];
        FreshCache(c, n);
        GrownOk(Now(), b, c, n);
        chunks := chunks[b := c];
        space, nspace := space + [b], nspace + 1;
        assert bases[..cnt + 1] == bases[..cnt] + [b];
        cnt := cnt + 1;
      }
    }

    /** iot_objpool_grow */
    method Grow(count: nat, bases: seq<nat>) returns (ok: bool, shift: bool)
      requires Valid() && Unused(bases)
      modifies this`chunks, this`space, this`nspace
      ensures Valid() && (shift <==> Words(n) > 31 && count > 0 && bases != [])
      ensures ok <==> !shift && count <= |bases| * n
      ensures |space| == |old(space)| + if shift then 0 else if ok then ChunksFor(count, n) else |bases|
      ensures ok ==> count <= (|space| - |old(space)|) * n < count + n
    {
      hide Words, ChunksFor;
      ChunksEnough(count, n);
      ChunksWithin(count, n, 0);
      ChunksWithin(count, n, |bases|);
      var nchunk := ChunksFor(count, n);
      var cnt;
      cnt, shift := PoolGrow(nchunk, bases);
      ok := !shift && cnt == nchunk;
    }

    /** iot_objpool_alloc: none at the limit or without memory for a chunk; a
        first chunk with too many mask words shifts too far. A setup callback
        that refuses the object leaves the count one short. */
    method Alloc(bases: seq<nat>, setup: bool) returns (a: Option<nat>, shift: bool, ghost x: Slot)
      requires Valid() && Unused(bases)
      modifies this
      ensures Sane() && limit == old(limit)
      ensures shift <==> Words(n) > 31 && bases != [] && !old(limit != 0 && nobj >= limit)
      ensures var blocked := shift || old(limit != 0 && nobj >= limit) || (old(space) == [] && bases == []);
        && (a.None? <==> blocked || !setup)
        && (blocked ==> Now() == old(Now()))
        && (Valid() <==> blocked || setup)
        && (!blocked && !setup ==> live == old(live) && nobj == Less(old(nobj)))
      ensures a.Some? ==> Names(a.value, x) && x !in old(live) && live == old(live) + {x}
      ensures a.Some? && old(space) != [] ==> x.base == old(space)[0]
    {
      hide Sound, Offset, Address, ChunkOf, SlotOf, Took, FirstFree, Words;
      a, x, shift := None, Slot(0, 0), false;
      if limit != 0 && nobj >= limit { return; }
      if space == [] {
        var cnt;
        cnt, shift := PoolGrow(1, bases);
        if cnt == 0 { return; }
      }
      ghost var p := Now();
      var b := space[0];
      HasChunk(p, n);
      Found(p, n);
      var s := FirstFree(chunks[b]);
      x := Slot(b, s);
      a := Some(Address(b, n, S, s));
      AddressOk(b, s);
      Take(b, s);
      if setup {
        nobj := nobj + 1;
      } else {
        Release(a, x);
        a := None;
      }
    }

    lemma AddressOk(b: nat, s: nat)
      requires Sized() && b % C == 0 && s < n
      ensures Names(Address(b, n, S, s), Slot(b, s))
    {
      hide Address, ChunkOf, SlotOf;
      MulMonotone(s, n - 1, S);
      AddressRoundTrip(C, S, n, b, s);
    }

    method Take(b: nat, s: nat)
      requires space != [] && b == space[0] && b in chunks && s / 32 < |chunks[b].used|
      modifies this`chunks, this`space, this`nspace, this`full, this`nfull, this`live
      ensures var p := old(Now());
        p.space != [] && p.space[0] in p.chunks && s / 32 < |p.chunks[p.space[0]].used| && Now() == Took(p, s)
      ensures old(nspace) == |old(space)| && old(nfull) == |old(full)| ==> nspace == |space| && nfull == |full|
    {
      chunks := chunks[b := Taken(chunks[b], s)];
      live := live + {Slot(b, s)};
      if chunks[b].cache == {} {
        space, nspace := space[1..], Less(nspace);
        full, nfull := full + [b], nfull + 1;
      }
    }

    method Give(b: nat, s: nat)
      requires b in chunks && s / 32 < |chunks[b].used|
      modifies this`chunks, this`space, this`nspace, this`full, this`nfull, this`live
      ensures var p := old(Now()); b in p.chunks && s / 32 < |p.chunks[b].used| && Now() == Gave(p, b, s)
      ensures old(chunks)[b].cache != {} ==> nspace == old(nspace) && nfull == old(nfull)
      ensures old(chunks)[b].cache == {} ==> nspace == old(nspace) + 1 && nfull == Less(old(nfull))
    {
      var cache := chunks[b].cache;
      chunks := chunks[b := Given(chunks[b], s)];
      live := live - {Slot(b, s)};
      if cache == {} {
        full, nfull := Without<nat>(full, b), Less(nfull);
        space, nspace := space + [b], nspace + 1;
      }
    }

    /** iot_objpool_free: NULL and slots that are free already are left alone. */
    method Release(a: Option<nat>, ghost x: Slot)
      requires Sane() && (a.Some? ==> Names(a.value, x) && x.base in chunks)
      modifies this
      ensures Sane() && limit == old(limit)
      ensures a.None? || x !in old(live) ==> Now() == old(Now()) && nobj == old(nobj)
      ensures a.Some? && x in old(live) ==>
        && x.base in old(chunks) && x.s / 32 < |old(chunks)[x.base].used|
        && Now() == Gave(old(Now()), x.base, x.s) && nobj == Less(old(nobj))
    {
      hide Sound, Offset, Address, ChunkOf, SlotOf, Gave, Words;
      if a == None { return; }
      var b, s := ChunkOf(C, a.value), SlotOf(C, n, S, a.value);
      FreeLive(Now(), b, s, n);
      if Free(chunks[b], s) { return; }
      GaveFacts(Now(), b, s, n);
      Give(b, s);
      nobj := Less(nobj);
    }

    method DropChunk(i: nat)
      requires Sane() && i < |space| && space[i] in chunks && forall s: nat :: s < n ==> Free(chunks[space[i]], s)
      modifies this`chunks, this`space, this`nspace
      ensures Sane() && space == old(space)[..i] + old(space)[i + 1..] && chunks == old(chunks) - {old(space)[i]}
      ensures forall j :: 0 <= j < i ==> space[j] == old(space)[j] && space[j] != old(space)[i]
    {
      hide Sound, Free, Words, Offset;
      var b := space[i];
      SpaceChunk(Now(), i, n);
      ShrunkOk(Now(), b, n);
      WithoutAt(space, i);
      space, nspace := space[..i] + space[i + 1..], Less(nspace);
      chunks := chunks - {b};
    }

    /** pool_shrink: frees chunks that hold no object, up to the number asked
        for; asked for none, it still frees the first chunk if that is empty. */
    method PoolShrink(nchunk: nat) returns (cnt: nat)
      requires Valid()
      modifies this`chunks, this`space, this`nspace
      ensures Valid() && live == old(live) && full == old(full)
      ensures cnt <= (if nchunk == 0 then 1 else nchunk) && |space| + cnt == |old(space)|
      ensures forall b :: b in chunks ==> b in old(chunks) && chunks[b] == old(chunks)[b]
      ensures Words(n) != 16 ==> cnt == 0
      ensures Words(n) == 16 && cnt < nchunk ==>
        forall b :: b in chunks ==> exists s: nat :: s < n && Slot(b, s) in live
    {
      hide Sound, Free, ChunkOk, Words, Offset;
      cnt := 0;
      var i := 0;
      while i < |space|
        invariant Valid() && i <= |space| && |space| + cnt == |old(space)|
        invariant (if nchunk == 0 then cnt == 0 else cnt < nchunk)
        invariant forall b :: b in chunks ==> b in old(chunks) && chunks[b] == old(chunks)[b]
        invariant Words(n) != 16 ==> cnt == 0
        invariant Words(n) == 16 ==>
          forall j :: 0 <= j < i ==> space[j] in chunks && exists s: nat :: s < n && Slot(space[j], s) in live
        decreases |space| - i
      {
        var b := space[i];
        SpaceChunk(Now(), i, n);
        var empty := ChunkEmpty(chunks[b], n);
        if empty {
          DropChunk(i);
          cnt := cnt + 1;
        } else {
          Occupied(Now(), b, n);
          i := i + 1;
        }
        if cnt >= nchunk { break; }
      }
      EveryChunk(Now(), n);
    }

    /** chunk_foreach_object, with free_object as the callback: words that are
        all free are skipped. */
    method SweepChunk(b: nat) returns (ghost visited: seq<Slot>)
      requires Valid() && b in chunks
      modifies this
      ensures Valid() && chunks.Keys == old(chunks).Keys && limit == old(limit)
      ensures Distinct<Slot>(visited) && forall x :: x in visited <==> x in old(live) && x.base == b
      ensures forall x :: x in live <==> x in old(live) && x.base != b
      ensures b in old(chunks) && if old(chunks)[b].cache == {}
        then full == Without<nat>(old(full), b) && space == old(space) + [b]
        else full == old(full) && space == old(space)
    {
      hide Sound, Free, ChunkOk, Offset, Address, ChunkOf, SlotOf, Gave, Without, Names, Swept, Words;
      visited := [];
      var sidx := 0;
      ghost var p := Now();
      SweptNone(p, b);
      while sidx < n
        invariant Valid() && chunks.Keys == p.chunks.Keys && limit == old(limit)
        invariant Swept(p, Now(), b, sidx, visited)
        decreases n - sidx
      {
        SlotHere(p, Now(), b, sidx, n, visited);
        var used := chunks[b].used[sidx / 32];
        if sidx % 32 !in used {
          Visit(b, sidx, p, visited);
          visited := visited + [Slot(b, sidx)];
          sidx := sidx + 1;
        } else if used == Range(32) {
          SweptWord(p, Now(), b, sidx, n, visited);
          sidx := (sidx / 32 + 1) * 32;
        } else {
          sidx := sidx + 1;
        }
      }
      SweptAll(p, Now(), b, sidx, n, visited);
    }

    method Visit(b: nat, s: nat, ghost p: State, ghost visited: seq<Slot>)
      requires Valid() && b in chunks && s < n && !Free(chunks[b], s) && Swept(p, Now(), b, s, visited) && Sound(p, n)
      modifies this
      ensures Valid() && chunks.Keys == old(chunks).Keys && limit == old(limit)
      ensures Swept(p, Now(), b, s + 1, visited + [Slot(b, s)])
    {
      hide Sound, Free, ChunkOk, Offset, Address, ChunkOf, SlotOf, Gave, Without, Swept, Words;
      AddressOk(b, s);
      SweptNext(p, Now(), b, s, n, visited);
      Release(Some(Address(b, n, S, s)), Slot(b, s));
    }

    /** The walk of iot_objpool_destroy: full chunks first, each leaving the list
        for the other as its first object goes, then the chunks with space. */
    method Sweep() returns (ghost visited: seq<Slot>)
      requires Valid()
      modifies this
      ensures Valid() && live == {} && nobj == 0
      ensures Distinct<Slot>(visited) && forall x :: x in visited <==> x in old(live)
    {
      hide Sound, Offset, Without;
      visited := [];
      while full != []
        invariant Valid() && Halfway(old(live), live, visited)
        decreases |full|
      {
        ListedOf(Now(), n);
        FullChunk(Now());
        ghost var l, f := live, full;
        ghost var vs := SweepChunk(full[0]);
        HalfwayOn(old(live), l, live, visited, vs, f[0]);
        visited := visited + vs;
      }
      var i := 0;
      while i < |space|
        invariant Valid() && Halfway(old(live), live, visited) && full == []
        invariant i <= |space| && forall j, x :: 0 <= j < i && x in live ==> x.base != space[j]
        decreases |space| - i
      {
        SpaceChunk(Now(), i, n);
        ListedOf(Now(), n);
        NotFull(Now(), i);
        ghost var l := live;
        ghost var vs := SweepChunk(space[i]);
        HalfwayOn(old(live), l, live, visited, vs, space[i]);
        visited := visited + vs;
        i := i + 1;
      }
      AllSwept(Now(), n);
    }
  }

  /** Part of the way through chunk b, about to look at slot n. */
  ghost predicate Swept(p: State, q: State, b: nat, n: nat, visited: seq<Slot>) {
    && b in p.chunks && b in q.chunks && Distinct<Slot>(visited)
    && (forall x :: x in visited <==> x in p.live && x.base == b && x.s < n)
    && (forall x :: x in q.live <==> x in p.live && !(x.base == b && x.s < n))
    && (if p.chunks[b].cache == {} && visited != []
          then q.chunks[b].cache != {} && q.full == Without<nat>(p.full, b) && q.space == p.space + [b]
        else (q.chunks[b].cache == {} <==> p.chunks[b].cache == {}) && q.full == p.full && q.space == p.space)
  }

  lemma SweptNone(p: State, b: nat)
    requires b in p.chunks
    ensures Swept(p, p, b, 0, [])
  {
  }

  lemma SlotHere(p: State, q: State, b: nat, s: nat, n: nat, visited: seq<Slot>)
    requires Swept(p, q, b, s, visited) && Sound(q, n) && s < n
    ensures b in q.chunks && s / 32 < |q.chunks[b].used|
    ensures s % 32 !in q.chunks[b].used[s / 32] <==> !Free(q.chunks[b], s)
    ensures !Free(q.chunks[b], s) <==> Slot(b, s) in q.live
    ensures Slot(b, s) !in q.live ==> Swept(p, q, b, s + 1, visited)
  {
    hide Without, Listed;
    SlotWord(q.chunks[b], s, n);
    FreeLive(q, b, s, n);
  }

  lemma SweptNext(p: State, q: State, b: nat, s: nat, n: nat, visited: seq<Slot>)
    requires Swept(p, q, b, s, visited) && Sound(q, n) && Sound(p, n) && s < n && !Free(q.chunks[b], s)
    ensures s / 32 < |q.chunks[b].used| && Slot(b, s) in q.live
    ensures var r := Gave(q, b, s);
      && Swept(p, r, b, s + 1, visited + [Slot(b, s)])
      && r.chunks.Keys == q.chunks.Keys && |r.live| == |q.live| - 1 && |q.live| > 0
  {
    hide Without, Given, Listed, Masked, Living;
    GaveOk(q, b, s, n);
    CacheSet(q.chunks[b], s);
    DistinctConcat<Slot>(visited, [Slot(b, s)]);
  }

  lemma SweptWord(p: State, q: State, b: nat, s: nat, n: nat, visited: seq<Slot>)
    requires Swept(p, q, b, s, visited) && Sound(q, n) && s < n && s / 32 < |q.chunks[b].used|
    requires q.chunks[b].used[s / 32] == Range(32)
    ensures Swept(p, q, b, (s / 32 + 1) * 32, visited)
  {
    hide Without, Listed, Range;
    forall t: nat | s <= t < (s / 32 + 1) * 32 ensures Slot(b, t) !in q.live {
      assert t / 32 == s / 32;
      assert Free(q.chunks[b], t);
    }
  }

  lemma SweptAll(p: State, q: State, b: nat, s: nat, n: nat, visited: seq<Slot>)
    requires Swept(p, q, b, s, visited) && n <= s && Sound(p, n) && n > 0
    ensures b in p.chunks && Distinct<Slot>(visited)
    ensures forall x :: x in visited <==> x in p.live && x.base == b
    ensures forall x :: x in q.live <==> x in p.live && x.base != b
    ensures if p.chunks[b].cache == {} then q.full == Without<nat>(p.full, b) && q.space == p.space + [b]
      else q.full == p.full && q.space == p.space
  {
    hide Without, Listed;
    if p.chunks[b].cache == {} {
      assert ChunkOk(p.chunks[b], n);
      assert !Free(p.chunks[b], 0);
      assert Slot(b, 0) in visited;
    }
  }

  lemma ListedOf(p: State, n: nat)
    requires Sound(p, n)
    ensures Listed(p)
  {
  }

  ghost predicate Halfway(live0: set<Slot>, live: set<Slot>, visited: seq<Slot>) {
    && Distinct<Slot>(visited)
    && (forall x :: x in live0 <==> x in live || x in visited)
    && (forall x :: x in visited ==> x !in live)
  }

  lemma HalfwayOn(live0: set<Slot>, live: set<Slot>, live': set<Slot>, visited: seq<Slot>, vs: seq<Slot>, b: nat)
    requires Halfway(live0, live, visited) && Distinct<Slot>(vs)
    requires forall x :: x in vs <==> x in live && x.base == b
    requires forall x :: x in live' <==> x in live && x.base != b
    ensures Halfway(live0, live', visited + vs)
  {
    DistinctConcat<Slot>(visited, vs);
  }

  lemma FullChunk(p: State)
    requires Listed(p) && p.full != []
    ensures p.full[0] in p.chunks && p.chunks[p.full[0]].cache == {}
    ensures |Without<nat>(p.full, p.full[0])| == |p.full| - 1
  {
    WithoutDistinct<nat>(p.full, p.full[0]);
  }

  lemma NotFull(p: State, i: nat)
    requires Listed(p) && i < |p.space|
    ensures p.space[i] in p.chunks && p.chunks[p.space[i]].cache != {}
  {
  }

  lemma AllSwept(p: State, n: nat)
    requires Sound(p, n) && p.full == [] && forall j, x :: 0 <= j < |p.space| && x in p.live ==> x.base != p.space[j]
    ensures p.live == {}
  {
    hide ChunkOk, Free;
    forall x: Slot | x.base in p.chunks ensures x !in p.live {
      assert x.base in p.space;
    }
  }

  lemma SpaceChunk(p: State, i: nat, n: nat)
    requires Sound(p, n) && i < |p.space|
    ensures p.space[i] in p.chunks && ChunkOk(p.chunks[p.space[i]], n)
    ensures Distinct<nat>(p.space) && p.space[i] in p.space
  {
    hide ChunkOk, Living;
  }

  lemma Occupied(p: State, b: nat, n: nat)
    requires Sound(p, n) && b in p.chunks
    ensures (forall s: nat :: s < n ==> Free(p.chunks[b], s)) || exists s: nat :: s < n && Slot(b, s) in p.live
  {
    hide ChunkOk, Listed, Free;
  }

  lemma EveryChunk(p: State, n: nat)
    requires Sound(p, n) && n > 0
    ensures forall b :: b in p.chunks ==> b in p.space || exists s: nat :: s < n && Slot(b, s) in p.live
  {
    forall b | b in p.chunks && b !in p.space ensures exists s: nat :: s < n && Slot(b, s) in p.live {
      assert b in p.full && p.chunks[b].cache == {};
      assert ChunkOk(p.chunks[b], n);
      assert !Free(p.chunks[b], 0);
      assert Slot(b, 0) in p.live;
    }
  }

  lemma {:induction false} WithoutAt(xs: seq<nat>, i: nat)
    requires i < |xs| && Distinct<nat>(xs)
    ensures Without<nat>(xs, xs[i]) == xs[..i] + xs[i + 1..]
  {
    if i == 0 {
      assert xs[0] !in xs[1..];
      WithoutAbsent<nat>(xs[1..], xs[0]);
    } else {
      WithoutAt(xs[1..], i - 1);
      assert xs[1..][i - 1] == xs[i] && xs[0] != xs[i];
      assert xs[1..][..i - 1] == xs[1..i] && xs[1..][i..] == xs[i + 1..];
    }
  }

  /** A slot of a chunk is allocated exactly if it is not free. */
  lemma FreeLive(p: State, b: nat, s: nat, n: nat)
    requires Sound(p, n) && b in p.chunks && s < n
    ensures Free(p.chunks[b], s) <==> Slot(b, s) !in p.live
  {
    hide ChunkOk, Free, Listed;
  }

  lemma GaveFacts(p: State, b: nat, s: nat, n: nat)
    requires Sound(p, n) && b in p.chunks && s < n && !Free(p.chunks[b], s)
    ensures s / 32 < |p.chunks[b].used| && Slot(b, s) in p.live
    ensures var q := Gave(p, b, s);
      && Sound(q, n) && q.chunks.Keys == p.chunks.Keys && q.live == p.live - {Slot(b, s)}
      && (p.chunks[b].cache == {} ==> |q.full| == |p.full| - 1 && |q.space| == |p.space| + 1)
      && (p.chunks[b].cache != {} ==> q.full == p.full && q.space == p.space)
  {
    hide Listed, Masked, Living, Without, Given;
    GaveOk(p, b, s, n);
    CacheSet(p.chunks[b], s);
    GaveListed(p, b, s);
  }

  /** A chunk with space has a first free slot. */
  lemma Found(p: State, n: nat)
    requires Sound(p, n) && p.space != [] && Words(n) <= 31
    ensures var b := p.space[0]; b in p.chunks
    ensures var c := p.chunks[p.space[0]];
      && (exists i :: 0 <= i < 32 && i in c.cache)
      && (forall i :: i in c.cache ==> i < |c.used| && exists b :: 0 <= b < 32 && b in c.used[i])
      && FirstFree(c) < n && Free(c, FirstFree(c)) && FirstFree(c) / 32 < |c.used|
    ensures var s := FirstFree(p.chunks[p.space[0]]); var q := Took(p, s);
      && Sound(q, n) && Slot(p.space[0], s) !in p.live
      && q.live == p.live + {Slot(p.space[0], s)} && q.chunks.Keys == p.chunks.Keys
  {
    FirstFreeOk(p.chunks[p.space[0]], n);
    TookOk(p, FirstFree(p.chunks[p.space[0]]), n);
  }

  lemma HasChunk(p: State, n: nat)
    requires Sound(p, n) && p.space != []
    ensures p.chunks != map[]
  {
    assert p.space[0] in p.chunks;
  }

  lemma FreshCache(c: Chunk, n: nat)
    requires ChunkOk(c, n) && n > 0 && forall s: nat :: s < n ==> Free(c, s)
    ensures c.cache != {}
  {
    assert Free(c, 0) && 0 in c.cache;
  }

  lemma Dimensions(C: nat, objsize: nat)
    requires C >= 64
    requires var z := CalcSizes(C, SlotSize(objsize)); z.Sizes? ==> z.nperchunk > 0
    ensures var z := CalcSizes(C, SlotSize(objsize));
      z.Sizes? && z.nperchunk > 0 && 0 < SlotSize(objsize) && SlotSize(objsize) >= objsize
      && Offset(z.nperchunk, SlotSize(objsize), z.nperchunk - 1) + SlotSize(objsize) <= C
  {
    hide Offset, Closed, CalcSizes, Words;
    SlotSizeFits(objsize);
    SizingNeverFails(C, SlotSize(objsize));
    SlotsInside(C, SlotSize(objsize), CalcSizes(C, SlotSize(objsize)).nperchunk - 1);
  }

  /** Chunks of n slots for so many objects. */
  function ChunksFor(count: nat, n: nat): nat { if n > 0 then (count + n - 1) / n else 0 }

  /** They are enough, and one less is not. */
  lemma ChunksEnough(count: nat, n: nat)
    requires n > 0
    ensures count <= ChunksFor(count, n) * n < count + n
  {
    var k, r := (count + n - 1) / n, (count + n - 1) % n;
    assert count + n - 1 == k * n + r && r < n;
  }

  lemma ChunksWithin(count: nat, n: nat, k: nat)
    requires n > 0
    ensures ChunksFor(count, n) <= k <==> count <= k * n
  {
    var all := k * n;
    DivLess(count + n - 1, n, k + 1);
    assert (k + 1) * n == all + n;
  }

  /** A pool; or no memory for the preallocated objects; or what the code leaves
      undefined: a division by 0 slots, a shift by more than 31 mask words. */
  datatype Created = Made(pool: Pool) | NoMemory | DividesByZero | ShiftUndefined

  /** iot_objpool_create; ok is memory for the pool itself. Too many mask words do
      harm when the first chunk is had, which may be later. */
  method Create(objsize: nat, limit: nat, prealloc: nat, C: nat, ok: bool, bases: seq<nat>) returns (r: Created)
    requires C >= 64 && C % 8 == 0 && Distinct<nat>(bases) && forall i :: 0 <= i < |bases| ==> bases[i] % C == 0
    ensures r.DividesByZero? <==> ok && objsize > C - 40
    ensures var n := PerChunk(C, objsize);
      && (r.ShiftUndefined? <==> ok && Words(n) > 31 && prealloc > 0 && bases != [])
      && (r.NoMemory? <==> !ok || (n > 0 && !r.ShiftUndefined? && prealloc > |bases| * n))
      && (r.Made? ==> r.pool.n == n && r.pool.limit == RoundUp(limit, n))
      && (r.Made? ==> prealloc <= |r.pool.space| * n < prealloc + n)
    ensures r.Made? ==> fresh(r.pool) && r.pool.Valid() && r.pool.live == {}
    ensures r.Made? ==> r.pool.S >= objsize && r.pool.C == C && r.pool.nobj == 0
  {
    hide CalcSizes, SlotSize, Offset, Words, Closed, RoundUp, Sound, ChunksFor;
    if !ok { return NoMemory; }
    var n := PerChunk(C, objsize);
    if n == 0 {
      NoWords();
      return DividesByZero;
    }
    var pool := new Pool(objsize, limit, C);
    var grown, shift := pool.Grow(prealloc, bases);
    r := if shift then ShiftUndefined else if grown then Made(pool) else NoMemory;
  }

  lemma NoWords()
    ensures Words(0) == 0
  {
  }

  /** With 64 KiB pages a pool of the smallest objects comes into being, if none is
      preallocated, and the first object allocated from it shifts too far. */
  method LateShift(base: nat) returns (r: Created, shift: bool)
    requires base % 131072 == 0
    ensures r.Made? && shift
  {
    hide CalcSizes, SlotSize, Offset, Words, Sound, PerChunk;
    LargePerChunk();
    r := Create(16, 0, 0, 131072, true, []);
    var a;
    ghost var x;
    a, shift, x := r.pool.Alloc([base], true);
  }

  lemma LargePerChunk()
    ensures Words(PerChunk(131072, 16)) > 31
  {
    hide CalcSizes;
    assert SlotSize(16) == 16;
    LargePages(16);
  }

  /** A limit is raised to a whole number of chunks. */
  function RoundUp(limit: nat, n: nat): nat
    requires n > 0
  {
    if limit != 0 && limit % n != 0 then limit + (n - limit % n) else limit
  }

  lemma RoundUpFacts(limit: nat, n: nat)
    requires n > 0
    ensures RoundUp(limit, n) % n == 0 && limit <= RoundUp(limit, n) < limit + n
    ensures (RoundUp(limit, n) == 0 <==> limit == 0)
  {
    var q, r := limit / n, limit % n;
    assert limit == q * n + r;
    if r != 0 {
      assert limit + (n - r) == (q + 1) * n + 0 by { assert (q + 1) * n == q * n + n; }
      DivUnique(limit + (n - r), n, q + 1, 0);
    } else if limit == 0 {
      DivUnique(0, n, 0, 0);
    }
  }
}
