/** Slots, chunks and cookies of a hash table: where entries live in memory. */
module HashSlab {
  import opened Seqs
  import MaskSpec

  /** Entries per chunk on a 64-bit target (see Sizing below). */
  const NPER: nat := 101

  /** A chunk has cap slots; mask holds the allocation bits that are set. */
  datatype Chunk = Chunk(cap: nat, mask: set<nat>) {
    function NBit(): nat { 64 * ((cap + 63) / 64) }
  }

  function ChunkCount(nalloc: nat): nat { (nalloc + NPER - 1) / NPER }

  /** All chunks are full-sized but possibly the last. */
  function CapOf(nalloc: nat, i: nat): nat {
    if nalloc >= (i + 1) * NPER then NPER else if nalloc >= i * NPER then nalloc - i * NPER else 0
  }

  function EntryCookie(cidx: nat, eidx: nat): nat { cidx * NPER + eidx + 1 }

  ghost predicate ChunkOk(c: Chunk, i: nat, nalloc: nat, live: set<nat>) {
    && c.cap == CapOf(nalloc, i)
    && (forall b: nat :: b < c.cap ==> (b in c.mask <==> i * NPER + b in live))
    && (forall b :: b in c.mask ==> b < c.NBit())
  }

  ghost predicate Full(c: Chunk) {
    forall b: nat :: b < c.cap ==> b in c.mask
  }

  /** Set in-range mask bits are exactly the live slots, and only full chunks
      are off the space list. */
  ghost predicate SlabOk(chunks: seq<Chunk>, space: seq<nat>, nalloc: nat, live: set<nat>) {
    && |chunks| == ChunkCount(nalloc)
    && (forall i: nat :: i < |chunks| ==> ChunkOk(chunks[i], i, nalloc, live))
    && (forall s :: s in live ==> s < nalloc)
    && Distinct<nat>(space)
    && (forall k :: 0 <= k < |space| ==> space[k] < |chunks|)
    && (forall i: nat :: i < |chunks| && i !in space ==> Full(chunks[i]))
  }

  ghost predicate LimitOk(nalloc: nat, nlimit: nat, nlast: nat) {
    && nlast == nalloc % NPER
    && (nlimit > 0 ==> nalloc <= nlimit)
    && (nlast > 0 ==> nlimit > 0 && nalloc == nlimit)
  }

  /** cookie_entry inverts entry_cookie, and distinct slots get distinct cookies. */
  lemma CookieRoundTrip(cidx: nat, eidx: nat)
    requires eidx < NPER
    ensures var c := EntryCookie(cidx, eidx);
      c != 0 && (c - 1) / NPER == cidx && (c - 1) % NPER == eidx
  {
  }

  /** While fewer slots are live than allocated, some chunk on the space list has one free. */
  lemma FreeSlot(chunks: seq<Chunk>, space: seq<nat>, nalloc: nat, live: set<nat>) returns (i: nat, b: nat)
    requires SlabOk(chunks, space, nalloc, live) && |live| < nalloc
    ensures i < |chunks| && i in space && b < chunks[i].cap && b !in chunks[i].mask
  {
    var s := Unused(live, nalloc);
    i, b := s / NPER, s % NPER;
    assert ChunkOk(chunks[i], i, nalloc, live);
    assert s == i * NPER + b;
    assert b !in chunks[i].mask;
    assert !Full(chunks[i]);
  }

  /** Live slots never outnumber allocated ones. */
  lemma LiveBound(live: set<nat>, nalloc: nat)
    requires forall s :: s in live ==> s < nalloc
    ensures |live| <= nalloc
    ensures |live| == nalloc ==> forall t: nat :: t < nalloc ==> t in live
  {
    SubsetSize(live, Range(nalloc));
  }

  // ----- updates -----

  /** Appending one chunk (full-sized, or the last short one). */
  lemma GrowOk(chunks: seq<Chunk>, space: seq<nat>, nalloc: nat, live: set<nat>, cap: nat)
    requires SlabOk(chunks, space, nalloc, live) && nalloc % NPER == 0 && 0 < cap <= NPER
    ensures |chunks| * NPER == nalloc
    ensures SlabOk(chunks + [Chunk(cap, {})], space + [|chunks|], nalloc + cap, live)
  {
    var cs, n := chunks + [Chunk(cap, {})], |chunks|;
    forall i: nat | i < |cs| ensures ChunkOk(cs[i], i, nalloc + cap, live) {
      if i < n {
        assert ChunkOk(chunks[i], i, nalloc, live);
      }
    }
    forall i: nat | i < |cs| && i !in space + [n] ensures Full(cs[i]) {
      assert [n][0] in [n];
      assert i < n;
    }
    DistinctConcat<nat>(space, [n]);
  }

  /** Taking slot i * NPER + b: set its bit. */
  lemma TakeOk(chunks: seq<Chunk>, space: seq<nat>, nalloc: nat, live: set<nat>, i: nat, b: nat)
    requires SlabOk(chunks, space, nalloc, live) && i < |chunks| && b < chunks[i].cap
    ensures SlabOk(chunks[i := chunks[i].(mask := chunks[i].mask + {b})], space, nalloc, live + {i * NPER + b})
    ensures i * NPER + b < nalloc
  {
    hide ChunkOk, Distinct;
    var cs := chunks[i := chunks[i].(mask := chunks[i].mask + {b})];
    InChunk(chunks[i], i, nalloc, live, b);
    forall k: nat | k < |cs| ensures ChunkOk(cs[k], k, nalloc, live + {i * NPER + b}) && (k !in space ==> Full(cs[k])) {
      TakeChunk(chunks[k], k, nalloc, live, i, b);
    }
  }

  lemma InChunk(c: Chunk, i: nat, nalloc: nat, live: set<nat>, b: nat)
    requires ChunkOk(c, i, nalloc, live) && b < c.cap
    ensures i * NPER + b < nalloc && b < NPER && b < c.NBit()
  {
  }

  lemma TakeChunk(c: Chunk, k: nat, nalloc: nat, live: set<nat>, i: nat, b: nat)
    requires ChunkOk(c, k, nalloc, live) && b < NPER && (k == i ==> b < c.NBit())
    ensures ChunkOk(if k == i then c.(mask := c.mask + {b}) else c, k, nalloc, live + {i * NPER + b})
  {
  }

  /** Releasing a live slot: clear its bit, and put its chunk on the space list. */
  lemma ReleaseOk(chunks: seq<Chunk>, space: seq<nat>, nalloc: nat, live: set<nat>, s: nat)
    requires SlabOk(chunks, space, nalloc, live) && s in live
    ensures var i, b := s / NPER, s % NPER;
      && i < |chunks| && b < chunks[i].cap
      && SlabOk(chunks[i := chunks[i].(mask := chunks[i].mask - {b})],
                if i in space then space else space + [i], nalloc, live - {s})
  {
    var i, b := s / NPER, s % NPER;
    assert ChunkOk(chunks[i], i, nalloc, live);
    var cs := chunks[i := chunks[i].(mask := chunks[i].mask - {b})];
    var sp := if i in space then space else space + [i];
    forall k: nat | k < |cs| ensures ChunkOk(cs[k], k, nalloc, live - {s}) {
      assert ChunkOk(chunks[k], k, nalloc, live);
    }
    assert [i][0] in [i];
    forall k: nat | k < |cs| && k !in sp ensures Full(cs[k]) {
      assert k !in space && k != i;
      assert Full(chunks[k]);
    }
    if i !in space {
      DistinctConcat<nat>(space, [i]);
    }
  }

  /** Unlinking a full chunk, whose out-of-range bit k was just set. */
  lemma UnlinkFullOk(chunks: seq<Chunk>, space: seq<nat>, nalloc: nat, live: set<nat>, extra: set<nat>)
    requires SlabOk(chunks, space, nalloc, live) && space != []
    requires Full(chunks[space[0]])
    requires forall b :: b in extra ==> chunks[space[0]].cap <= b < chunks[space[0]].NBit()
    ensures var (i, c) := (space[0], chunks[space[0]]);
      SlabOk(chunks[i := c.(mask := c.mask + extra)], space[1..], nalloc, live)
  {
    var i := space[0];
    var cs := chunks[i := chunks[i].(mask := chunks[i].mask + extra)];
    forall k: nat | k < |cs| ensures ChunkOk(cs[k], k, nalloc, live) && (k !in space[1..] ==> Full(cs[k])) {
      assert ChunkOk(chunks[k], k, nalloc, live);
      assert k in space && k != i ==> k in space[1..];
    }
  }

  lemma SpaceHead(chunks: seq<Chunk>, space: seq<nat>, nalloc: nat, live: set<nat>)
    requires SlabOk(chunks, space, nalloc, live) && space != []
    ensures space[0] < |chunks|
  {
  }

  /** The lowest clear bit of the first chunk on the space list gives a slot, or
      the chunk is full; the bit is set either way. */
  lemma SearchOk(chunks: seq<Chunk>, space: seq<nat>, nalloc: nat, live: set<nat>, b: int)
    requires SlabOk(chunks, space, nalloc, live) && space != [] && space[0] < |chunks|
    requires b == MaskSpec.LeastClear(chunks[space[0]].mask, 0, chunks[space[0]].NBit())
    ensures var (i, c) := (space[0], chunks[space[0]]);
      var cs := if b < 0 then chunks else chunks[i := c.(mask := c.mask + {b})];
      if 0 <= b < c.cap then
        && SlabOk(cs, space, nalloc, live + {i * NPER + b})
        && i * NPER + b < nalloc && i * NPER + b !in live && |live| < nalloc
      else SlabOk(cs, space[1..], nalloc, live)
  {
    hide SlabOk;
    var i, c := space[0], chunks[space[0]];
    SlabChunk(chunks, space, nalloc, live, i);
    if 0 <= b < c.cap {
      TakeOk(chunks, space, nalloc, live, i, b);
      LiveBound(live, nalloc);
    } else {
      UnlinkFullOk(chunks, space, nalloc, live, if b < 0 then {} else {b});
      assert c.mask + {} == c.mask && chunks[i := c] == chunks;
    }
  }

  lemma SlabChunk(chunks: seq<Chunk>, space: seq<nat>, nalloc: nat, live: set<nat>, i: nat)
    requires SlabOk(chunks, space, nalloc, live) && i < |chunks|
    ensures ChunkOk(chunks[i], i, nalloc, live) && forall s :: s in live ==> s < nalloc
  {
  }

  lemma NoSpace(chunks: seq<Chunk>, nalloc: nat, live: set<nat>)
    requires SlabOk(chunks, [], nalloc, live)
    ensures |live| == nalloc
  {
    LiveBound(live, nalloc);
    if |live| < nalloc {
      var i, b := FreeSlot(chunks, [], nalloc, live);
      assert false;
    }
  }

  /** What the memory allocator does during one call: whether the chunk table
      can be resized, how many chunks it can hand out, whether the bucket array
      can be allocated. */
  datatype Env = Env(resize: bool, chunks: nat, buckets: bool)

  /** iot_mask_alloc's search, on the set of bits. */
  method LowestClear(mask: set<nat>, n: nat) returns (b: int)
    ensures b == MaskSpec.LeastClear(mask, 0, n)
  {
    b := 0;
    while b < n && b in mask
      invariant 0 <= b <= n
      invariant MaskSpec.LeastClear(mask, 0, n) == MaskSpec.LeastClear(mask, b, n)
    {
      b := b + 1;
    }
    if b == n { b := -1; }
  }

  /** Allocated size after a successful request for n more entries. */
  function Grown(nalloc: nat, n: nat, nlimit: nat): nat {
    if n % NPER == 0 then nalloc + n
    else if nalloc + (n / NPER + 1) * NPER <= nlimit then nalloc + (n / NPER + 1) * NPER
    else nlimit
  }

  lemma GrownPlan(nalloc: nat, n: nat, nlimit: nat, full: nat, last: nat)
    requires nalloc % NPER == 0
    requires n % NPER != 0 ==> nalloc + n <= nlimit
    requires n % NPER == 0 ==> full == n / NPER && last == 0
    requires n % NPER != 0 && nalloc + (n / NPER + 1) * NPER <= nlimit ==> full == n / NPER + 1 && last == 0
    requires n % NPER != 0 && nalloc + (n / NPER + 1) * NPER > nlimit
             ==> full == (nlimit - nalloc) / NPER && last == (nlimit - nalloc) % NPER
    ensures nalloc + full * NPER + last == Grown(nalloc, n, nlimit)
    ensures last < NPER && full + (if last != 0 then 1 else 0) == ChunkCount(n)
    ensures last != 0 ==> Grown(nalloc, n, nlimit) == nlimit
  {
  }

  /** Room for n more entries, and no chunk too many: all chunks are whole, unless
      the limit is reached. */
  lemma GrownMeans(nalloc: nat, n: nat, nlimit: nat)
    requires nalloc % NPER == 0 && (n % NPER != 0 ==> nalloc + n <= nlimit)
    ensures var g := Grown(nalloc, n, nlimit); nalloc + n <= g < nalloc + n + NPER && (g % NPER == 0 || g == nlimit)
  {
    var k, q := nalloc / NPER, n / NPER;
    assert nalloc == k * NPER && n == q * NPER + n % NPER;
    if n % NPER == 0 { Multiple(k + q); } else { Multiple(k + q + 1); }
  }

  lemma Multiple(k: nat)
    ensures k * NPER % NPER == 0
  {
  }

  /** The least number of chunks that hold n entries. */
  lemma Counted(n: nat)
    ensures n <= ChunkCount(n) * NPER < n + NPER
  {
  }

  /** A plan that is cut short leaves less than was asked for. */
  lemma GrownShort(nalloc: nat, n: nat, nlimit: nat, full: nat, last: nat, got: nat)
    requires nalloc % NPER == 0 && got % NPER == 0 && nalloc + full * NPER + last == Grown(nalloc, n, nlimit)
    requires n > 0 && last < NPER && (n % NPER != 0 ==> nalloc + n <= nlimit)
    requires got <= nalloc + full * NPER && (last == 0 ==> got < nalloc + full * NPER)
    ensures last != 0 ==> got <= nalloc + n / NPER * NPER
    ensures got < nalloc + n
  {
    var d, g := nalloc / NPER, got / NPER;
    assert nalloc == d * NPER && got == g * NPER;
    assert n == n / NPER * NPER + n % NPER;
    if last == 0 { assert g < d + full; }
  }

  /** Where the slot of a cookie is, if it is allocated. */
  lemma CookiePlace(chunks: seq<Chunk>, space: seq<nat>, nalloc: nat, live: set<nat>, nlimit: nat, nlast: nat,
                    cookie: nat)
    requires SlabOk(chunks, space, nalloc, live) && LimitOk(nalloc, nlimit, nlast) && cookie != 0
    ensures var c, e := (cookie - 1) / NPER, (cookie - 1) % NPER;
      var cut := nlast != 0 && c == |chunks| - 1 && e >= nlast;
      && c * NPER + e == cookie - 1
      && (c >= |chunks| ==> cookie > nalloc && (cookie <= nlimit ==> nlast == 0 && nalloc % NPER == 0))
      && (c < |chunks| ==> (cut <==> cookie > nalloc))
      && (cut ==> nalloc == nlimit)
      && (nlimit > 0 ==> nalloc <= nlimit)
  {
    var c, k := (cookie - 1) / NPER, nalloc / NPER;
    assert cookie - 1 == c * NPER + (cookie - 1) % NPER && nalloc == k * NPER + nalloc % NPER;
    CountIs(nalloc);
    hide SlabOk, ChunkCount;
  }

  lemma CountIs(nalloc: nat)
    ensures ChunkCount(nalloc) == nalloc / NPER + if nalloc % NPER == 0 then 0 else 1
  {
  }

  /** The memory half of a table. */
  class Slab {
    const nlimit: nat
    var nalloc: nat
    var nlast: nat
    var chunks: seq<Chunk>
    var space: seq<nat>            // chunks with free entries
    ghost var live: set<nat>

    ghost predicate Valid() reads this {
      SlabOk(chunks, space, nalloc, live) && LimitOk(nalloc, nlimit, nlast)
    }

    constructor (nlimit: nat)
      ensures Valid() && live == {} && nalloc == 0 && this.nlimit == nlimit
    {
      this.nlimit := nlimit;
      nalloc, nlast, chunks, space, live := 0, 0, [], [], {};
    }

    /** allocate_chunks: room for n more entries, in full-sized chunks unless
        that would exceed the limit. */
    method AllocateChunks(n: nat, env: Env) returns (ok: bool)
      requires Valid() && nlast == 0
      requires n % NPER == 0 || nlimit > 0
      requires nlimit > 0 ==> nalloc + n <= nlimit
      modifies `nalloc, `nlast, `chunks, `space
      ensures Valid() && old(nalloc) <= nalloc
      ensures ok ==> nalloc == Grown(old(nalloc), n, nlimit)
      ensures ok <==> env.resize && env.chunks >= ChunkCount(n)
      ensures !ok && n > 0 ==> nalloc < old(nalloc) + n
      ensures n > 0 && (!env.resize || env.chunks == 0) ==> nalloc == old(nalloc)
    {
      hide SlabOk, Grown, ChunkCount;
      var full, last := n / NPER, n % NPER;
      if last != 0 {
        if nalloc + (full + 1) * NPER <= nlimit {
          full, last := full + 1, 0;
        } else {
          var total := nlimit - nalloc;
          full, last := total / NPER, total % NPER;
        }
      }
      GrownPlan(nalloc, n, nlimit, full, last);
      if !env.resize { return false; }
      ok := AppendChunks(full, last, env);
      if !ok && n > 0 { GrownShort(old(nalloc), n, nlimit, full, last, nalloc); }
    }

    /** The loop of allocate_chunks: full whole chunks, then one of last entries. */
    method AppendChunks(full: nat, last: nat, env: Env) returns (ok: bool)
      requires SlabOk(chunks, space, nalloc, live) && nalloc % NPER == 0 && last < NPER && nlast == 0
      modifies `nalloc, `nlast, `chunks, `space
      ensures SlabOk(chunks, space, nalloc, live) && nlast == nalloc % NPER
      ensures ok ==> nalloc == old(nalloc) + full * NPER + last && nlast == last
      ensures !ok ==> nlast == 0 && old(nalloc) <= nalloc <= old(nalloc) + full * NPER
      ensures !ok && last == 0 ==> nalloc < old(nalloc) + full * NPER
      ensures ok <==> env.chunks >= full + if last != 0 then 1 else 0
      ensures env.chunks == 0 ==> nalloc == old(nalloc)
    {
      hide SlabOk, ChunkCount;
      var i := 0;
      while i < full
        invariant 0 <= i <= full <= i + full
        invariant SlabOk(chunks, space, nalloc, live)
        invariant nalloc == old(nalloc) + i * NPER && nalloc % NPER == 0
        invariant i <= env.chunks && nlast == 0
      {
        if env.chunks <= i {
          return false;
        }
        GrowOk(chunks, space, nalloc, live, NPER);
        space := space + [|chunks|];
        chunks := chunks + [Chunk(NPER, {})];
        nalloc := nalloc + NPER;
        i := i + 1;
      }
      if last != 0 {
        if env.chunks <= i {
          return false;
        }
        GrowOk(chunks, space, nalloc, live, last);
        space := space + [|chunks|];
        chunks := chunks + [Chunk(last, {})];
        nalloc := nalloc + last;
      }
      nlast := last;
      return true;
    }

    /** Whether there is a slot for the cookie: it is allocated, or within the
        limit and there is memory for the chunks up to it. */
    predicate Reaches(cookie: nat, env: Env) reads this {
      || cookie <= nalloc
      || (cookie <= nlimit && env.resize && env.chunks >= ChunkCount(cookie - nalloc))
    }

    /** cookie_entry: the slot of a cookie; may have to allocate up to it. */
    method CookieEntry(cookie: nat, env: Env) returns (s: Option<nat>)
      requires Valid() && cookie != 0
      modifies `nalloc, `nlast, `chunks, `space
      ensures Valid() && old(nalloc) <= nalloc
      ensures s.Some? <==> old(Reaches(cookie, env))
      ensures s.Some? ==> s.value == cookie - 1 < nalloc
      ensures s.None? ==> cookie > nalloc
      ensures nalloc != old(nalloc) ==> old(nalloc) <= cookie - 1 < nlimit
    {
      hide SlabOk, ChunkCount, LimitOk, Grown;
      var cidx, eidx := (cookie - 1) / NPER, (cookie - 1) % NPER;
      CookiePlace(chunks, space, nalloc, live, nlimit, nlast, cookie);
      if cidx >= |chunks| {
        if cookie - 1 >= nlimit { return None; }
        GrownMeans(nalloc, cookie - nalloc, nlimit);
        var ok := AllocateChunks(cookie - nalloc, env);
        if !ok { return None; }
        CookiePlace(chunks, space, nalloc, live, nlimit, nlast, cookie);
      }
      if nlast != 0 && cidx == |chunks| - 1 && eidx >= nlast { return None; }
      s := Some(cidx * NPER + eidx);
    }

    /** alloc_entry: unlink chunks that turn out to be full until one gives a
        slot. It fails only when every allocated slot is live. */
    method AllocEntry() returns (s: Option<nat>)
      requires Valid()
      modifies `chunks, `space, `live
      ensures Valid()
      ensures s.Some? ==> s.value < nalloc && s.value !in old(live) && live == old(live) + {s.value}
      ensures s.None? ==> live == old(live)
      ensures s.None? <==> |old(live)| == nalloc
    {
      hide SlabOk, MaskSpec.LeastClear;
      while space != []
        invariant Valid() && live == old(live)
        decreases |space|
      {
        var i := space[0];
        SpaceHead(chunks, space, nalloc, live);
        var c := chunks[i];
        var b := LowestClear(c.mask, c.NBit());
        SearchOk(chunks, space, nalloc, live, b);
        if b >= 0 {
          chunks := chunks[i := c.(mask := c.mask + {b})];
        }
        if 0 <= b < c.cap {
          live := live + {i * NPER + b};
          return Some(i * NPER + b);
        }
        space := space[1..];
      }
      NoSpace(chunks, nalloc, live);
      return None;
    }

    /** The slab part of free_entry. */
    method FreeEntry(s: nat)
      requires Valid() && s in live
      modifies `chunks, `space, `live
      ensures Valid() && live == old(live) - {s}
    {
      var i, b := s / NPER, s % NPER;
      ReleaseOk(chunks, space, nalloc, live, s);
      chunks := chunks[i := chunks[i].(mask := chunks[i].mask - {b})];
      if i !in space {
        space := space + [i];
      }
      live := live - {s};
    }
  }

  // ----- chunk sizing -----

  const CHUNKSIZE: nat := 4096

  /** iot_mask_inlined_size: an 8-byte header and whole 64-bit words. */
  function InlinedSize(nbit: nat): nat { 8 + 8 * ((nbit + 63) / 64) }

  function ChunkBytes(hdr: nat, ent: nat, n: nat): nat { hdr + n * ent + InlinedSize(n) }

  /** Entries per chunk: first without room for the mask, then corrected once. */
  function EntriesPerChunk(hdr: nat, ent: nat): nat
    requires ent > 0 && hdr + InlinedSize((if hdr <= CHUNKSIZE then CHUNKSIZE - hdr else 0) / ent) <= CHUNKSIZE
  {
    var n := (CHUNKSIZE - hdr) / ent;
    if ChunkBytes(hdr, ent, n) >= CHUNKSIZE then (CHUNKSIZE - hdr - InlinedSize(n)) / ent else n
  }

  /** The correction always makes entries and mask fit, for any layout; the
      stricter closing assertion (total below CHUNKSIZE) holds unless the
      corrected layout fills the chunk to the last byte. */
  lemma SizingFits(hdr: nat, ent: nat)
    requires ent > 0 && hdr <= CHUNKSIZE && hdr + InlinedSize((CHUNKSIZE - hdr) / ent) <= CHUNKSIZE
    ensures var n0, n := (CHUNKSIZE - hdr) / ent, EntriesPerChunk(hdr, ent);
      && n <= n0 && ChunkBytes(hdr, ent, n) <= CHUNKSIZE
      && (ChunkBytes(hdr, ent, n) < CHUNKSIZE <==>
          (ChunkBytes(hdr, ent, n0) < CHUNKSIZE
           || (CHUNKSIZE - hdr - InlinedSize(n0)) % ent != 0
           || InlinedSize(n) < InlinedSize(n0)))
  {
    hide InlinedSize;
    var room, n0 := CHUNKSIZE - hdr, (CHUNKSIZE - hdr) / ent;
    if ChunkBytes(hdr, ent, n0) >= CHUNKSIZE {
      var usable := room - InlinedSize(n0);
      DivMod(usable, ent);
      DivMono(usable, room, ent);
      InlinedMono(usable / ent, n0);
    }
  }

  lemma InlinedMono(m: nat, n: nat)
    requires m <= n
    ensures InlinedSize(m) <= InlinedSize(n)
  {
  }

  lemma DivMono(a: nat, b: nat, c: nat)
    requires a <= b && c > 0
    ensures a / c <= b / c
  {
    if a / c > b / c {
      MulMono(b / c + 1, a / c, c);
      DivMod(a, c);
      DivMod(b, c);
    }
  }

  lemma DivMod(a: nat, b: nat)
    requires b > 0
    ensures a == (a / b) * b + a % b && a % b < b
  {
  }

  lemma MulMono(a: nat, b: nat, c: nat)
    requires a <= b
    ensures a * c <= b * c
  {
  }

  /** 24-byte chunk header, 40-byte entries: 101 entries and a 24-byte mask, 4088 bytes. */
  lemma SizingOnLp64()
    ensures EntriesPerChunk(24, 40) == NPER && ChunkBytes(24, 40, NPER) == 4088
  {
  }
}
