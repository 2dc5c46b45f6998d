/** Object pool arithmetic: how many slots a chunk gets, where they lie, and how
    an address leads back to its chunk and slot. Sizes are those of LP64. */
module PoolSize {

  const W: nat := 4          // mask word, bytes
  const B: nat := 32         // mask word, bits
  const HEADER: nat := 32    // sizeof(pool_chunk_t)
  const USED: nat := 28      // offset of its mask words
  const PTR: nat := 8
  const OBJSIZE_MIN: nat := 16

  /** IOT_ALIGN to IOT_MM_ALIGN */
  function Align(x: nat): nat { (x + 7) / 8 * 8 }

  function Max(a: nat, b: nat): nat { if a > b then a else b }

  /** Slot size of a pool asked for objects of the given size. */
  function SlotSize(objsize: nat): nat { Align(Max(objsize, OBJSIZE_MIN)) }

  /** Size of the variable part of the header, as the code has it: the division
      applies to the whole product. */
  function Variable(n: nat): nat { W + W * (n + B - 1) / B }

  function Words(n: nat): nat { (n + B - 1) / B }

  /** Numerator and denominator of the closed form for the number of slots. */
  function Room(C: nat): nat
    requires C >= 64
  {
    B * C - B * HEADER - W * (2 * B - 1)
  }

  function Share(S: nat): nat { B * S + W }

  function Closed(C: nat, S: nat): nat
    requires C >= 64
  {
    Room(C) / Share(S)
  }

  /** The padding behind a header for n slots, and whether it costs a slot. */
  function Padding(n: nat): nat {
    var rest := (HEADER + Variable(n)) % PTR;
    if rest != 0 then PTR - rest else 0
  }

  predicate Fixup(C: nat, S: nat, n: nat) { Padding(n) != 0 && Variable(n) + HEADER + Padding(n) + n * S > C }

  /** pool_calc_sizes: slots per chunk and the total, or the error. */
  datatype Sizes = TooBig | Sizes(nperchunk: nat, total: nat)

  function CalcSizes(C: nat, S: nat): Sizes
    requires C >= 64
  {
    var n := Closed(C, S);
    var n' := if n > 0 && Fixup(C, S, n) then n - 1 else n;
    var T := HEADER + Variable(n') + Padding(n) + n' * S;
    if T > C then TooBig else Sizes(n', T)
  }

  // ----- division -----

  /** A quotient is below k exactly if the numerator is below k denominators. */
  lemma DivLess(a: nat, d: nat, k: nat)
    requires d > 0
    ensures a / d < k <==> a < k * d
  {
    var q, r := a / d, a % d;
    assert a == q * d + r && r < d;
    if q < k {
      MulMonotone(q + 1, k, d);
      assert (q + 1) * d == q * d + d;
    } else {
      MulMonotone(k, q, d);
    }
  }

  lemma MulMonotone(a: nat, b: nat, c: nat)
    requires a <= b
    ensures a * c <= b * c && c * a <= c * b
  {
    var e := b - a;
    assert b * c == (a + e) * c == a * c + e * c;
  }

  lemma DivUnique(x: nat, c: nat, d: nat, r: nat)
    requires c > 0 && x == d * c + r && r < c
    ensures x % c == r && x / c == d
  {
    assert (d + 1) * c == d * c + c;
    DivLess(x, c, d);
    DivLess(x, c, d + 1);
    assert x == x / c * c + x % c;
  }

  // ----- sizing -----

  /** The closed form leaves room for header and slots, padding apart. */
  lemma ClosedFits(C: nat, S: nat)
    requires C >= 64
    ensures var n := Closed(C, S); HEADER + Variable(n) + n * S <= C
  {
    hide Variable;
    var n := Closed(C, S);
    var p := n * S;
    assert n * Share(S) <= Room(C) by { DivLess(Room(C), Share(S), n); }
    assert n * Share(S) == 32 * p + 4 * n by { Distribute(n, S); }
    VariableIs(n);
  }

  lemma Distribute(n: nat, S: nat)
    ensures n * (32 * S + 4) == 32 * (n * S) + 4 * n
  {
    assert n * (32 * S + 4) == n * (32 * S) + n * 4;
    assert n * (32 * S) == 32 * (n * S);
  }

  lemma VariableIs(n: nat)
    ensures Variable(n) == 4 + (4 * n + 124) / 32 && 32 * Variable(n) <= 4 * n + 252
  {
  }

  lemma VariableMonotone(m: nat, n: nat)
    requires m <= n
    ensures Variable(m) <= Variable(n)
  {
  }

  lemma SlotSizeFits(objsize: nat)
    ensures SlotSize(objsize) >= 16 && SlotSize(objsize) >= objsize && SlotSize(objsize) % 8 == 0
    ensures SlotSize(objsize) <= Max(objsize, OBJSIZE_MIN) + 7
  {
  }

  /** The error branch is never taken, whatever the slot size; the padding fix-up
      loses at most one slot, and never the only one. */
  lemma SizingNeverFails(C: nat, S: nat)
    requires C >= 64 && S >= 8
    ensures CalcSizes(C, S).Sizes? && CalcSizes(C, S).total <= C
    ensures var z, n := CalcSizes(C, S), Closed(C, S);
      z.nperchunk == if n > 0 && Fixup(C, S, n) then n - 1 else n
    ensures CalcSizes(C, S).nperchunk == 0 <==> Closed(C, S) == 0
  {
    ClosedFits(C, S);
    var n := Closed(C, S);
    if n == 0 {
      assert Variable(0) == 7 && Padding(0) == 1 && 0 * S == 0;
    } else if Fixup(C, S, n) {
      VariableMonotone(n - 1, n);
      assert (n - 1) * S == n * S - S;
      assert Variable(1) == 8 && Padding(1) == 0;
    }
  }

  /** There is no slot exactly for slot sizes above the chunk size less 40 bytes;
      the sizes then come out as 0 slots, not as an error. */
  lemma NoSlot(C: nat, S: nat)
    requires C >= 64 && S >= 8
    ensures CalcSizes(C, S).Sizes? && (CalcSizes(C, S).nperchunk == 0 <==> S > C - 40)
  {
    SizingNeverFails(C, S);
    DivLess(Room(C), Share(S), 1);
  }

  /** In terms of the object size asked for. */
  lemma NoSlotForObject(C: nat, objsize: nat)
    requires C >= 64 && C % 8 == 0
    ensures CalcSizes(C, SlotSize(objsize)).Sizes?
    ensures CalcSizes(C, SlotSize(objsize)).nperchunk == 0 <==> objsize > C - 40
  {
    SlotSizeFits(objsize);
    NoSlot(C, SlotSize(objsize));
  }

  /** Objects per chunk for an object size. */
  function PerChunk(C: nat, objsize: nat): (n: nat)
    requires C >= 64 && C % 8 == 0
    ensures n == 0 <==> objsize > C - 40
  {
    NoSlotForObject(C, objsize);
    CalcSizes(C, SlotSize(objsize)).nperchunk
  }

  /** A chunk has no more than k mask words exactly below these sizes. The cache
      word holds up to 31, with a shift by 31 bits taken to wrap around; without
      wrapping arithmetic it holds up to 30. */
  lemma CacheSuffices(C: nat, S: nat, k: nat)
    requires C >= 64 && S >= 8
    ensures CalcSizes(C, S).Sizes?
    ensures Words(CalcSizes(C, S).nperchunk) <= k
      <==> Room(C) < (32 * k + 1) * Share(S) || (k > 0 && Closed(C, S) == 32 * k + 1 && Fixup(C, S, 32 * k + 1))
  {
    SizingNeverFails(C, S);
    DivLess(Room(C), Share(S), 32 * k + 1);
  }

  /** With 4 KiB pages it suffices for any slot size: there are at most 16 mask
      words, and exactly 16 for the smallest slots only. */
  lemma CacheWide(objsize: nat)
    ensures var S := SlotSize(objsize); CalcSizes(8192, S).Sizes?
    ensures var n := CalcSizes(8192, SlotSize(objsize)).nperchunk;
      Words(n) <= 16 && (Words(n) == 16 <==> SlotSize(objsize) == 16)
  {
    hide Fixup, Closed;
    var S := SlotSize(objsize);
    SlotSizeFits(objsize);
    SizingNeverFails(8192, S);
    SmallPages(S);
  }

  lemma SmallPages(S: nat)
    requires S >= 16 && S % 8 == 0
    ensures if S == 16 then Closed(8192, S) == 505 else Closed(8192, S) <= 480
  {
    if S == 16 {
      assert Room(8192) == 260868 && Share(16) == 516;
    } else {
      MulMonotone(772, Share(S), 481);
      DivLess(Room(8192), Share(S), 481);
    }
  }

  /** With 64 KiB pages there are up to 31 mask words exactly for slots of 136
      bytes and more, and up to 30 exactly for larger ones. */
  lemma LargePages(S: nat)
    requires S >= 16 && S % 8 == 0
    ensures CalcSizes(131072, S).Sizes?
    ensures Words(CalcSizes(131072, S).nperchunk) <= 31 <==> S >= 136
    ensures Words(CalcSizes(131072, S).nperchunk) <= 30 <==> S > 136
  {
    hide Fixup, Closed, CalcSizes;
    SizingNeverFails(131072, S);
    BigChunks(S);
  }

  lemma BigChunks(S: nat)
    requires S >= 16 && S % 8 == 0
    ensures S < 136 ==> Closed(131072, S) >= 994
    ensures S == 136 ==> Closed(131072, S) == 962
    ensures S > 136 ==> Closed(131072, S) < 961
  {
    var d, a := Share(S), Room(131072);
    assert a == 4193028;
    DivLess(a, d, 994);
    DivLess(a, d, 961);
    if S < 136 { MulMonotone(d, 4100, 994); }
    if S > 136 { MulMonotone(4612, d, 961); }
  }

  // ----- where the slots lie -----

  /** Offset of slot s: behind the mask words. */
  function Offset(n: nat, S: nat, s: nat): nat { USED + W * Words(n) + s * S }

  /** Every slot lies behind the masks and inside the chunk. */
  lemma SlotsInside(C: nat, S: nat, s: nat)
    requires C >= 64 && S >= 8
    requires var z := CalcSizes(C, S); z.Sizes? && s < z.nperchunk
    ensures var n := CalcSizes(C, S).nperchunk;
      USED + W * Words(n) <= Offset(n, S, s) && Offset(n, S, s) + S <= C
  {
    var n := CalcSizes(C, S).nperchunk;
    SlotsStacked(S, s, n);
    WordsFit(n);
  }

  /** The mask words take no more than the variable part allows for. */
  lemma WordsFit(n: nat)
    ensures W + W * Words(n) <= Variable(n)
  {
    var q, r := (n + 31) / 32, (n + 31) % 32;
    assert 4 * (n + 31) == 32 * (4 * q) + 4 * r;
  }

  lemma SlotsStacked(S: nat, s: nat, n: nat)
    requires s < n
    ensures s * S + S <= n * S && s * S >= 0
  {
    MulMonotone(s + 1, n, S);
    assert (s + 1) * S == s * S + S;
  }

  /** Slots are aligned for objects exactly if the number of mask words is odd:
      the words start four bytes short of a multiple of eight. */
  lemma SlotAlignment(n: nat, S: nat, s: nat)
    requires S % 8 == 0
    ensures Offset(n, S, s) % 8 == 0 <==> Words(n) % 2 == 1
  {
    var k := S / 8;
    var p := s * k;
    assert s * S == 8 * p by { EightTimes(s, k); }
    var w := Words(n);
    assert Offset(n, S, s) == 28 + 4 * w + 8 * p;
  }

  lemma EightTimes(s: nat, k: nat)
    ensures s * (8 * k) == 8 * (s * k)
  {
  }

  /** The smallest objects with 4 KiB pages: 16 mask words, so they are not. */
  lemma SmallObjectsMisaligned(s: nat)
    ensures CalcSizes(8192, SlotSize(16)).Sizes? && Words(CalcSizes(8192, SlotSize(16)).nperchunk) == 16
    ensures Offset(CalcSizes(8192, SlotSize(16)).nperchunk, SlotSize(16), s) % 8 == 4
  {
    hide CalcSizes;
    assert SlotSize(16) == 16;
    CacheWide(16);
    var p := s * 16;
    assert p == 8 * (s * 2);
  }

  // ----- addresses -----

  function Address(base: nat, n: nat, S: nat, s: nat): nat { base + Offset(n, S, s) }

  /** The chunk an address is in: its low bits masked off. */
  function ChunkOf(C: nat, a: nat): nat
    requires C > 0
  {
    a - a % C
  }

  function SlotOf(C: nat, n: nat, S: nat, a: nat): int
    requires C > 0 && S > 0
  {
    (a - (ChunkOf(C, a) + Offset(n, S, 0))) / S
  }

  /** Chunks are aligned to their size, so an object's address tells both its
      chunk and its slot. */
  lemma AddressRoundTrip(C: nat, S: nat, n: nat, base: nat, s: nat)
    requires C > 0 && S > 0 && base % C == 0 && s < n && Offset(n, S, s) + S <= C
    ensures ChunkOf(C, Address(base, n, S, s)) == base && SlotOf(C, n, S, Address(base, n, S, s)) == s
  {
    var a, off := Address(base, n, S, s), Offset(n, S, s);
    var q := base / C;
    assert base == q * C;
    DivUnique(a, C, q, off);
    var p := s * S;
    assert a - (base + Offset(n, S, 0)) == p;
    DivUnique(p, S, s, 0);
  }

  /** Different objects do not overlap. */
  lemma ObjectsDisjoint(C: nat, S: nat, n: nat, base: nat, s: nat, base': nat, s': nat)
    requires C > 0 && S > 0 && base % C == 0 && base' % C == 0 && s < n && s' < n
    requires Offset(n, S, n - 1) + S <= C && (base != base' || s != s')
    ensures var (a, a') := (Address(base, n, S, s), Address(base', n, S, s')); a + S <= a' || a' + S <= a
  {
    MulMonotone(s, n - 1, S);
    MulMonotone(s', n - 1, S);
    var p, p', m := s * S, s' * S, (n - 1) * S;
    if base == base' {
      if s < s' { SlotsStacked(S, s, s'); } else { SlotsStacked(S, s', s); }
    } else if base < base' {
      ChunksApart(C, base, base');
    } else {
      ChunksApart(C, base', base);
    }
  }

  /** Chunks that are not the same lie a chunk size apart. */
  lemma ChunksApart(C: nat, base: nat, base': nat)
    requires C > 0 && base % C == 0 && base' % C == 0 && base < base'
    ensures base + C <= base'
  {
    var q, q' := base / C, base' / C;
    assert base == q * C && base' == q' * C;
    if q' <= q { MulMonotone(q', q, C); }
    MulMonotone(q + 1, q', C);
    assert (q + 1) * C == q * C + C;
  }
}
