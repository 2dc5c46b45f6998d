/** Bitmasks as 64-bit words: mask.h, shown to compute what MaskSpec says of
    sets of bit indices. */
module Mask {
  import opened MaskSpec

  type Word = bv64

  // ----- one word -----

  /** The index of a bit in its word. */
  type Index = bv6

  function Or(v: Word, w: Word): Word { v | w }
  function And(v: Word, w: Word): Word { v & w }
  function Not(w: Word): Word { !w }

  function BitMask(a: Index): Word { 1 << a }
  function Below(a: Index): Word { (1 << a) - 1 }
  function Above(a: Index): Word { And(Not(Below(a)), Not(BitMask(a))) }

  predicate Bit(w: Word, a: Index) { (w >> a) & 1 == 1 }

  lemma RawAnd(v: Word, w: Word, b: Index)
    ensures Bit(v & w, b) <==> Bit(v, b) && Bit(w, b)
  {
  }

  lemma RawOr(v: Word, w: Word, b: Index)
    ensures Bit(v | w, b) <==> Bit(v, b) || Bit(w, b)
  {
  }

  lemma RawNot(w: Word, b: Index)
    ensures Bit(!w, b) <==> !Bit(w, b)
  {
  }

  lemma BitAnd(v: Word, w: Word, b: Index)
    ensures Bit(And(v, w), b) <==> Bit(v, b) && Bit(w, b)
  {
    hide Bit;
    RawAnd(v, w, b);
  }

  lemma BitOr(v: Word, w: Word, b: Index)
    ensures Bit(Or(v, w), b) <==> Bit(v, b) || Bit(w, b)
  {
    hide Bit;
    RawOr(v, w, b);
  }

  lemma BitNot(w: Word, b: Index)
    ensures Bit(Not(w), b) <==> !Bit(w, b)
  {
    hide Bit;
    RawNot(w, b);
  }

  lemma BitOne(a: Index, b: Index)
    ensures Bit(BitMask(a), b) <==> a == b
  {
  }

  lemma BitBelow(a: Index, b: Index)
    ensures Bit(Below(a), b) <==> b < a
  {
  }

  lemma BitAbove(a: Index, b: Index)
    ensures Bit(Above(a), b) <==> b > a
  {
    hide Bit, And, Not, BitMask, Below;
    BitAnd(Not(Below(a)), Not(BitMask(a)), b);
    BitNot(Below(a), b);
    BitNot(BitMask(a), b);
    BitBelow(a, b);
    BitOne(a, b);
  }

  const ONES: Word := 0xFFFF_FFFF_FFFF_FFFF

  lemma BitConst(b: Index)
    ensures !Bit(0, b) && Bit(ONES, b)
  {
  }

  /** A bit index as a shift count, digit by digit. */
  function Digit(d: nat): Index {
    if d == 0 then 0 else if d == 1 then 1 else if d == 2 then 2 else if d == 3 then 3
    else if d == 4 then 4 else if d == 5 then 5 else if d == 6 then 6 else 7
  }

  function Ix(i: nat): Index { 8 * Digit(i / 8) + Digit(i % 8) }

  lemma IxOrder(i: nat, j: nat)
    requires i < 64 && j < 64
    ensures (Ix(i) < Ix(j) <==> i < j) && (Ix(i) == Ix(j) <==> i == j)
  {
    DigitOrder(i / 8, j / 8);
    DigitOrder(i % 8, j % 8);
    TwoDigits(Digit(i / 8), Digit(i % 8), Digit(j / 8), Digit(j % 8));
    assert i == 8 * (i / 8) + i % 8 && j == 8 * (j / 8) + j % 8;
  }

  lemma DigitOrder(d: nat, e: nat)
    requires d < 8 && e < 8
    ensures Digit(d) < 8 && Digit(e) < 8 && (Digit(d) < Digit(e) <==> d < e) && (Digit(d) == Digit(e) <==> d == e)
  {
  }

  lemma TwoDigits(a: Index, b: Index, c: Index, d: Index)
    requires a < 8 && b < 8 && c < 8 && d < 8
    ensures 8 * a + b < 8 * c + d <==> a < c || (a == c && b < d)
    ensures 8 * a + b == 8 * c + d <==> a == c && b == d
  {
  }

  /** The masks of the range functions, for a range that stays in the word,
      begins in it or ends in it. */
  function RangeMask(l: Index, h: Index): Word { Or(Or(BitMask(l), And(Above(l), Below(h))), BitMask(h)) }
  function FromMask(l: Index): Word { Or(BitMask(l), Above(l)) }
  function UpToMask(h: Index): Word { Or(BitMask(h), Below(h)) }

  lemma RangeBits(l: Index, h: Index, b: Index)
    ensures Bit(RangeMask(l, h), b) <==> b == l || b == h || (l < b < h)
  {
    hide Bit, Or, And, Not, BitMask, Below, Above;
    BitOne(l, b);
    BitOne(h, b);
    BitAbove(l, b);
    BitBelow(h, b);
    BitAnd(Above(l), Below(h), b);
    BitOr(BitMask(l), And(Above(l), Below(h)), b);
    BitOr(Or(BitMask(l), And(Above(l), Below(h))), BitMask(h), b);
  }

  lemma EndBits(l: Index, h: Index, b: Index)
    ensures Bit(FromMask(l), b) <==> l <= b
    ensures Bit(UpToMask(h), b) <==> b <= h
  {
    hide Bit, Or, And, Not, BitMask, Below, Above;
    BitOne(l, b);
    BitOne(h, b);
    BitAbove(l, b);
    BitBelow(h, b);
    BitOr(BitMask(l), Above(l), b);
    BitOr(BitMask(h), Below(h), b);
  }

  /** w |= m, or w &= ~m. */
  function Apply(w: Word, m: Word, on: bool): Word { if on then Or(w, m) else And(w, Not(m)) }

  lemma ApplyBits(w: Word, m: Word, on: bool, b: Index)
    ensures Bit(Apply(w, m, on), b) <==> if Bit(m, b) then on else Bit(w, b)
  {
    hide Bit, Or, And, Not;
    BitOr(w, m, b);
    BitNot(m, b);
    BitAnd(w, Not(m), b);
  }

  // ----- bits by natural numbers -----

  predicate On(w: Word, i: nat) { Bit(w, Ix(i)) }

  lemma OnApply(w: Word, m: Word, on: bool, i: nat)
    ensures On(Apply(w, m, on), i) <==> if On(m, i) then on else On(w, i)
  {
    hide Bit, Apply, Ix;
    ApplyBits(w, m, on, Ix(i));
  }

  lemma OnMasks(a: nat, i: nat)
    requires a < 64 && i < 64
    ensures On(BitMask(Ix(a)), i) <==> i == a
    ensures On(Below(Ix(a)), i) <==> i < a
    ensures On(Above(Ix(a)), i) <==> i > a
    ensures On(FromMask(Ix(a)), i) <==> i >= a
    ensures On(UpToMask(Ix(a)), i) <==> i <= a
  {
    hide Bit, BitMask, Below, Above, FromMask, UpToMask, Ix;
    IxOrder(a, i);
    IxOrder(i, a);
    BitOne(Ix(a), Ix(i));
    BitBelow(Ix(a), Ix(i));
    BitAbove(Ix(a), Ix(i));
    EndBits(Ix(a), Ix(a), Ix(i));
  }

  lemma OnRange(l: nat, h: nat, i: nat)
    requires l < 64 && h < 64 && i < 64
    ensures On(RangeMask(Ix(l), Ix(h)), i) <==> i == l || i == h || l < i < h
  {
    hide Bit, RangeMask, Ix;
    IxOrder(l, i);
    IxOrder(i, h);
    RangeBits(Ix(l), Ix(h), Ix(i));
  }

  function Const(on: bool): Word { if on then ONES else 0 }

  lemma OnConst(on: bool, i: nat)
    ensures On(Const(on), i) <==> on
  {
    hide Bit, Ix;
    BitConst(Ix(i));
  }

  /** iot_ffs: the least bit set in the word, counting from 0, or -1. */
  function Ffs(w: Word): (r: int)
    ensures r == -1 || (0 <= r < 64 && On(w, r))
    ensures forall b: nat :: b < (if r == -1 then 64 else r) ==> !On(w, b)
  {
    hide On;
    FfsFrom(w, 0)
  }

  function FfsFrom(w: Word, from: nat): (r: int)
    requires from <= 64
    ensures r == -1 || (from <= r < 64 && On(w, r))
    ensures forall b: nat :: from <= b < (if r == -1 then 64 else r) ==> !On(w, b)
    decreases 64 - from
  {
    hide On;
    if from == 64 then -1 else if On(w, from) then from else FfsFrom(w, from + 1)
  }

  /** The word a search hands to ffs: ones stand for the bits looked for. In the
      first word those below the starting bit are masked out. */
  function Sought(w: Word, on: bool): Word { if on then w else Not(w) }
  function SoughtFrom(w: Word, on: bool, a: Index): Word {
    if on then And(w, Not(Below(a))) else Not(Or(w, Below(a)))
  }

  lemma OnSought(w: Word, on: bool, i: nat)
    ensures On(Sought(w, on), i) <==> On(w, i) == on
  {
    hide Bit, Not, Ix;
    BitNot(w, Ix(i));
  }

  lemma OnSoughtFrom(w: Word, on: bool, a: nat, i: nat)
    requires a < 64 && i < 64
    ensures On(SoughtFrom(w, on, Ix(a)), i) <==> i >= a && On(w, i) == on
  {
    hide Bit, Not, And, Or, Below, Ix;
    var below := Below(Ix(a));
    IxOrder(i, a);
    BitBelow(Ix(a), Ix(i));
    BitNot(below, Ix(i));
    BitAnd(w, Not(below), Ix(i));
    BitOr(w, below, Ix(i));
    BitNot(Or(w, below), Ix(i));
  }

  predicate Has(ws: seq<Word>, i: nat) { i / 64 < |ws| && On(ws[i / 64], i % 64) }

  ghost function Bits(ws: seq<Word>): (s: set<nat>)
    ensures forall i: nat :: i in s <==> Has(ws, i)
  {
    hide On;
    set i: nat | i < 64 * |ws| && Has(ws, i)
  }

  function Words(nbit: nat): nat { (nbit + 63) / 64 }

  /** The union of an iot_mask_t: one word, a pointer to an allocated array, or
      the words that follow the mask in memory. */
  datatype Store = Bitw(bitw: Word) | Bitp(bitp: array?<Word>) | Biti(biti: array<Word>)

  /** mask.h: an iot_mask_t. */
  class Mask {
    var nbit: nat
    var fixed: bool
    var inlined: bool
    var store: Store

    /** iot_mask_words tells by nbit and the inlined flag which member of the
        union holds the words. */
    ghost predicate Valid() reads this {
      && nbit > 0
      && match store
         case Bitw(_) => !inlined && nbit <= 64
         case Bitp(p) => !inlined && nbit > 64 && p != null && p.Length == Words(nbit)
         case Biti(b) => inlined && b.Length == Words(nbit)
    }

    ghost function Frame(): set<object> reads this {
      match store
      case Bitw(_) => {}
      case Bitp(p) => if p == null then {} else {p}
      case Biti(b) => {b}
    }

    ghost function Ws(): (ws: seq<Word>)
      requires Valid()
      reads this, Frame()
      ensures |ws| == Words(nbit) > 0
    {
      match store
      case Bitw(w) => [w]
      case Bitp(p) => p[..]
      case Biti(b) => b[..]
    }

    ghost function Set(): set<nat>
      requires Valid()
      reads this, Frame()
    {
      Bits(Ws())
    }

    function At(i: nat): (w: Word)
      requires Valid() && i < Words(nbit)
      reads this, Frame()
      ensures w == Ws()[i]
    {
      match store
      case Bitw(w) => w
      case Bitp(p) => p[i]
      case Biti(b) => b[i]
    }

    method Put(i: nat, w: Word)
      requires Valid() && i < Words(nbit)
      modifies this`store, Frame()
      ensures Valid() && Frame() == old(Frame())
      ensures Ws() == old(Ws())[i := w]
    {
      match store
      case Bitw(_) => store := Bitw(w);
      case Bitp(p) => p[i] := w;
      case Biti(b) => b[i] := w;
    }

    /** iot_mask_init: one word, no bit set. */
    constructor ()
      ensures Valid() && Frame() == {} && nbit == 64 && Set() == {} && !fixed && !inlined
    {
      nbit, fixed, inlined, store := 64, false, false, Bitw(0);
      new;
      hide On;
      ClearWords(Ws());
    }

    /** iot_mask_init_inlined, after the check that the mask fits. */
    constructor Inlined(nbit: nat)
      requires nbit > 0
      ensures Valid() && fresh(Frame()) && this.nbit == nbit && Set() == {} && !fixed && inlined
    {
      var b := new Word[Words(nbit)](_ => 0);
      this.nbit, fixed, inlined, store := nbit, false, true, Biti(b);
      new;
      hide On;
      ClearWords(Ws());
    }

    /** iot_mask_grow: no for a fixed or inlined mask that is too small, or
        without memory; a mask whose words are enough keeps its nbit. The first
        word moves from the union to the array, and back without memory. */
    method Grow(bits: nat, mem: bool) returns (ok: bool)
      requires Valid()
      modifies this, Frame()
      ensures Valid() && Set() == old(Set()) && fixed == old(fixed) && inlined == old(inlined)
      ensures fresh(Frame() - old(Frame()))
      ensures ok <==>
        (old(fixed) ==> bits <= old(nbit)) && (bits <= 64 * |old(Ws())| || (mem && !old(inlined)))
      ensures nbit == if ok && Words(old(nbit)) < Words(bits) then bits else old(nbit)
      ensures ok ==> bits <= 64 * Words(nbit)
    {
      hide On, Bits;
      if fixed && nbit < bits { return false; }
      var o, n := Words(nbit), Words(bits);
      if o >= n { return true; }
      if fixed || inlined { return false; }
      ghost var ws := Ws();
      if o == 1 {
        var w := store.bitw;
        store := Bitp(null);
        if mem {
          var p := new Word[n](_ => 0);
          store := Bitp(p);
        }
        if store.bitp == null {
          store := Bitw(w);
          return false;
        }
        store.bitp[0] := w;
      } else {
        if !mem { return false; }
        var q := store.bitp;
        var p := new Word[n](k requires 0 <= k reads q => if k < q.Length then q[k] else 0);
        store := Bitp(p);
      }
      nbit := bits;
      Extended(ws, Ws());
      ok := true;
    }

    /** iot_mask_shrink, to one bit at least: bits beyond the last word that is
        kept are lost; fixed and inlined masks stay as they are. */
    method Shrink(bits: nat, mem: bool) returns (ok: bool)
      requires Valid() && bits > 0
      modifies this, Frame()
      ensures Valid() && fixed == old(fixed) && inlined == old(inlined)
      ensures fresh(Frame() - old(Frame()))
      ensures Words(bits) > Words(old(nbit)) ==> (ok <==> mem && !old(fixed) && !old(inlined))
      ensures Words(bits) < Words(old(nbit)) ==> (ok <==> mem || old(fixed) || old(inlined) || bits <= 64)
      ensures Words(bits) == Words(old(nbit)) ==> ok
      ensures nbit == if !ok || Words(bits) == Words(old(nbit)) || old(fixed || inlined) then old(nbit) else bits
      ensures Set() == set i | i in old(Set()) && i < 64 * Words(nbit)
    {
      hide On, Bits;
      var o, n := Words(nbit), Words(bits);
      ghost var ws := Ws();
      Shortened(ws, ws);
      if o == n { return true; }
      if o < n {
        ok := Grow(bits, mem);
        Bounded(ws, nbit);
        return;
      }
      if fixed || inlined { return true; }
      var q := store.bitp;
      if n == 1 {
        store := Bitw(q[0]);
      } else {
        if !mem { return false; }
        var p := new Word[n](k requires 0 <= k < n <= q.Length reads q => q[k]);
        store := Bitp(p);
      }
      nbit := bits;
      Shortened(ws, Ws());
      ok := true;
    }

    /** iot_mask_reset: the loop over the words writes the first one each time. */
    method Reset()
      requires Valid()
      modifies this, Frame()
      ensures Valid() && fixed == old(fixed) && inlined == old(inlined)
      ensures nbit == if !fixed && !inlined && old(nbit) > 64 then 64 else old(nbit)
      ensures Set() == if fixed || inlined then set i | i in old(Set()) && i >= 64 else {}
    {
      hide On, Bits;
      if !fixed && !inlined && nbit > 64 {
        nbit, fixed, inlined, store := 64, false, false, Bitw(0);
      }
      ghost var ws, shape := Ws(), (nbit, fixed, inlined);
      for i := 0 to Words(nbit)
        invariant Valid() && Frame() <= old(Frame()) && shape == (nbit, fixed, inlined)
        invariant Ws() == if i == 0 then ws else ws[0 := 0]
      {
        Put(0, 0);
      }
      FirstCleared(ws);
      HasBound(ws);
    }

    /** iot_mask_set */
    method SetBit(bit: nat, mem: bool) returns (ok: bool)
      requires Valid()
      modifies this, Frame()
      ensures Valid() && fresh(Frame() - old(Frame())) && fixed == old(fixed) && inlined == old(inlined)
      ensures ok <==>
        (old(fixed) ==> bit < old(nbit)) && (bit < 64 * |old(Ws())| || (mem && !old(inlined)))
      ensures Set() == if ok then old(Set()) + {bit} else old(Set())
      ensures nbit == if ok && old(nbit) <= bit then bit + 1 else old(nbit)
    {
      hide On, Apply, BitMask, Has, Ix, Bits;
      ok := Grow(bit + 1, mem);
      if !ok { return; }
      OneBit(Ws(), bit, true);
      Put(bit / 64, Apply(At(bit / 64), BitMask(Ix(bit % 64)), true));
      if nbit < bit + 1 { nbit := bit + 1; }
    }

    /** iot_mask_clear: bits from nbit on are out of its reach. */
    method ClearBit(bit: nat)
      requires Valid()
      modifies this`store, Frame()
      ensures Valid() && Frame() == old(Frame())
      ensures Set() == if bit < nbit then old(Set()) - {bit} else old(Set())
    {
      hide On, Apply, BitMask, Has, Ix, Bits;
      if nbit < bit + 1 { return; }
      OneBit(Ws(), bit, false);
      Put(bit / 64, Apply(At(bit / 64), BitMask(Ix(bit % 64)), false));
    }

    /** iot_mask_test */
    method Test(bit: nat) returns (on: bool)
      requires Valid()
      ensures on <==> bit < nbit && bit in Set()
    {
      hide On;
      if nbit < bit + 1 { return false; }
      on := On(At(bit / 64), bit % 64);
    }

    /** The loop of the functions below: all the words from lo up to hi. */
    method Fill(lo: nat, hi: nat, on: bool)
      requires Valid() && hi <= Words(nbit)
      modifies this`store, Frame()
      ensures Valid() && Frame() == old(Frame())
      ensures forall k :: 0 <= k < Words(nbit) ==> Ws()[k] == if lo <= k < hi then Const(on) else old(Ws())[k]
    {
      hide Ws, Const;
      var i := lo;
      while i < hi
        invariant Valid() && Frame() == old(Frame()) && lo <= i && (i <= hi || i == lo)
        invariant forall k :: 0 <= k < Words(nbit) ==> Ws()[k] == if lo <= k < i then Const(on) else old(Ws())[k]
      {
        Put(i, Const(on));
        i := i + 1;
      }
    }

    /** iot_mask_set_above and iot_mask_clear_above: the bits above `bit`, to the
        end of the last word, if the words reach that far. */
    method ChangeAbove(bit: nat, on: bool)
      requires Valid()
      modifies this`store, Frame()
      ensures Valid() && Frame() == old(Frame())
      ensures forall i: nat :: i in Set() <==>
        if bit / 64 < Words(nbit) && bit < i < 64 * Words(nbit) then on else i in old(Set())
    {
      hide On, Apply, Above, Has, Ix, Bits, Ws;
      if 64 * Words(nbit) < 64 * (bit / 64 + 1) { return; }
      var wi, bi := bit / 64, bit % 64;
      ghost var ws := Ws();
      Put(wi, Apply(At(wi), Above(Ix(bi)), on));
      Fill(wi + 1, Words(nbit), on);
      AboveDone(ws, Ws(), bit, on);
    }

    /** iot_mask_set_below and iot_mask_clear_below. A bit past the end is taken
        for the last one, which is itself left alone. */
    method ChangeBelow(bit: nat, on: bool)
      requires Valid()
      modifies this`store, Frame()
      ensures Valid() && Frame() == old(Frame())
      ensures forall i: nat ::
        i in Set() <==> if i < (if bit < nbit then bit else nbit - 1) then on else i in old(Set())
    {
      hide On, Apply, Below, Has, Ix, Bits, Ws;
      var b := if bit > nbit - 1 then nbit - 1 else bit;
      var wi, bi := b / 64, b % 64;
      ghost var ws := Ws();
      Fill(0, wi, on);
      Put(wi, Apply(At(wi), Below(Ix(bi)), on));
      BelowDone(ws, Ws(), b, on);
    }

    /** iot_mask_set_range and iot_mask_clear_range: the bounds may come in
        either order, the upper one is cut off at the end. With both bounds past
        the end but in the last word, the lower one and the last bit change. */
    method ChangeRange(a: nat, b: nat, on: bool)
      requires Valid() && (if a < b then a else b) / 64 < Words(nbit)
      modifies this`store, Frame()
      ensures Valid() && Frame() == old(Frame())
      ensures RangeChanged(a, b, nbit, on, old(Set()), Set())
    {
      hide RangeChanged, InRange, On, Apply, FromMask, UpToMask, RangeMask, Has, Ix, Bits, Ws;
      var (l, h) := Bounds(a, b, nbit);
      var lw, lb, hw, hb := l / 64, l % 64, h / 64, h % 64;
      assert lw <= hw < Words(nbit);
      ghost var ws := Ws();
      if lw != hw { Put(lw, Apply(At(lw), FromMask(Ix(lb)), on)); }
      Fill(lw + 1, hw, on);
      if lw != hw {
        Put(hw, Apply(At(hw), UpToMask(Ix(hb)), on));
      } else {
        Put(hw, Apply(At(hw), RangeMask(Ix(lb), Ix(hb)), on));
      }
      RangeDone(ws, Ws(), l, h, on);
      RangeMeans(a, b, nbit, on, Bits(ws), Set());
    }

    /** iot_mask_next_set (on) and iot_mask_next_clear (off): the least such
        index from `bit` on, or -1. */
    method Next(bit: nat, on: bool) returns (r: int)
      requires Valid() && bit < 64 * Words(nbit)
      ensures r == if on then LeastSet(Set(), bit, 64 * Words(nbit)) else LeastClear(Set(), bit, 64 * Words(nbit))
    {
      hide On, SoughtFrom, Sought, Ix, Bits, Ws, Ffs;
      var wi, bi := bit / 64, bit % 64;
      var b := Ffs(SoughtFrom(At(wi), on, Ix(bi)));
      NextFirst(Ws(), on, bit, b);
      if b >= 0 { return wi * 64 + b; }
      for i := wi + 1 to Words(nbit)
        invariant forall j: nat :: bit <= j < 64 * i ==> (j in Set()) != on
      {
        b := Ffs(Sought(At(i), on));
        NextWord(Ws(), on, i, b);
        if b >= 0 { return i * 64 + b; }
      }
      r := -1;
    }

    /** iot_mask_alloc: adds the least absent index. */
    method Alloc() returns (r: int)
      requires Valid()
      modifies this`store, Frame()
      ensures Valid() && Frame() == old(Frame())
      ensures r == LeastClear(old(Set()), 0, 64 * Words(nbit))
      ensures Set() == if r == -1 then old(Set()) else old(Set()) + {r}
    {
      hide On, Apply, Ix, BitMask, Has, LeastClear, Bits, Sought, Ws, Ffs;
      ghost var s := Set();
      for i := 0 to Words(nbit)
        invariant Valid() && store == old(store) && Ws() == old(Ws())
        invariant forall j: nat :: 0 <= j < 64 * i ==> j in s
      {
        var b := Ffs(Sought(At(i), false));
        NextWord(Ws(), false, i, b);
        if b >= 0 {
          LeastClearIs(s, 64 * Words(nbit), i * 64 + b);
          OneBit(Ws(), i * 64 + b, true);
          Put(i, Apply(At(i), BitMask(Ix(b)), true));
          return i * 64 + b;
        }
      }
      r := -1;
      NoneClear(s, 64 * Words(nbit));
    }

    /** IOT_MASK_FOREACH_SET: all set bits from `start` on, in order. When the
        very last bit of the last word is set, the loop goes on to ask for the
        next one from an index that has no word. */
    method ForEachSet(start: nat) returns (bits: seq<nat>, overrun: bool)
      requires Valid() && start < 64 * Words(nbit)
      ensures forall i, j :: 0 <= i < j < |bits| ==> bits[i] < bits[j]
      ensures forall b: nat :: b in bits <==> b in Set() && start <= b
      ensures overrun <==> 64 * Words(nbit) - 1 in Set()
    {
      hide On, Has, LeastSet;
      bits, overrun := [], false;
      var size := 64 * Words(nbit);
      var bit := Next(start, true);
      ghost var from: nat, s := start, Set();
      while bit >= 0 && !overrun
        invariant Ws() == old(Ws()) && s == Set() && start <= from <= size
        invariant overrun <==> from == size && size - 1 in s
        invariant !overrun ==> from < size && bit == LeastSet(s, from, size)
        invariant forall i, j :: 0 <= i < j < |bits| ==> bits[i] < bits[j]
        invariant forall b: nat :: b in bits <==> b in s && start <= b < from
        decreases size - from, !overrun
      {
        forall i | 0 <= i < |bits| ensures bits[i] < bit { assert bits[i] in bits; }
        assert forall b: nat :: b in bits + [bit] <==> b in bits || b == bit;
        bits := bits + [bit];
        from := bit + 1;
        if bit + 1 == size { overrun := true; } else { bit := Next(bit + 1, true); }
      }
      HasBound(Ws());
    }
  }

  predicate InRange(i: nat, l: nat, h: nat) { l <= i <= h || ((i == l || i == h) && l > h) }

  /** The range as the code takes it: in order, the upper end cut off. */
  function Bounds(a: nat, b: nat, nbit: nat): (nat, nat)
    requires nbit > 0
  {
    var (l, h) := if a > b then (b, a) else (a, b);
    (l, if h > nbit - 1 then nbit - 1 else h)
  }

  /** The bits from the smaller bound to the larger one, or to the last bit; with
      both bounds past the end the smaller one and the last bit. */
  ghost predicate RangeChanged(a: nat, b: nat, nbit: nat, on: bool, s: set<nat>, s': set<nat>) {
    && (a <= b < nbit ==> forall i: nat :: i in s' <==> if a <= i <= b then on else i in s)
    && (b <= a < nbit ==> forall i: nat :: i in s' <==> if b <= i <= a then on else i in s)
    && (a < nbit <= b ==> forall i: nat :: i in s' <==> if a <= i < nbit then on else i in s)
    && (b < nbit <= a ==> forall i: nat :: i in s' <==> if b <= i < nbit then on else i in s)
    && (nbit <= a <= b ==> forall i: nat :: i in s' <==> if i == a || i + 1 == nbit then on else i in s)
    && (nbit <= b <= a ==> forall i: nat :: i in s' <==> if i == b || i + 1 == nbit then on else i in s)
  }

  lemma RangeMeans(a: nat, b: nat, nbit: nat, on: bool, s: set<nat>, s': set<nat>)
    requires nbit > 0
    requires var (l, h) := Bounds(a, b, nbit); forall i: nat :: i in s' <==> if InRange(i, l, h) then on else i in s
    ensures RangeChanged(a, b, nbit, on, s, s')
  {
  }

  lemma LeastClearIs(s: set<nat>, n: nat, r: nat)
    requires r < n && r !in s && forall i: nat :: i < r ==> i in s
    ensures LeastClear(s, 0, n) == r
  {
  }

  lemma HasBound(ws: seq<Word>)
    ensures forall i :: i in Bits(ws) ==> i < 64 * |ws|
  {
    hide On;
  }

  lemma NoneClear(s: set<nat>, n: nat)
    requires forall i: nat :: i < n ==> i in s
    ensures LeastClear(s, 0, n) == -1
  {
  }

  /** What one ffs on the bits looked for in word k, from an index on, settles. */
  lemma NextIn(ws: seq<Word>, on: bool, from: nat, k: nat, v: Word)
    requires k < |ws| && 64 * k <= from < 64 * k + 64
    requires forall i: nat :: i < 64 ==> (On(v, i) <==> i >= from - 64 * k && On(ws[k], i) == on)
    ensures var b := Ffs(v); forall j: nat :: from <= j < 64 * k + (if b == -1 then 64 else b) ==> (j in Bits(ws)) != on
    ensures var b := Ffs(v); b >= 0 ==> from <= 64 * k + b < 64 * k + 64 && (64 * k + b in Bits(ws)) == on
  {
    hide On, Bits;
    var b := Ffs(v);
    forall j: nat | from <= j < 64 * k + (if b == -1 then 64 else b) ensures (j in Bits(ws)) != on {
      assert j / 64 == k && j % 64 == j - 64 * k;
    }
  }

  lemma NextFirst(ws: seq<Word>, on: bool, bit: nat, b: int)
    requires bit / 64 < |ws| && b == Ffs(SoughtFrom(ws[bit / 64], on, Ix(bit % 64)))
    ensures forall j: nat :: bit <= j < 64 * (bit / 64) + (if b == -1 then 64 else b) ==> (j in Bits(ws)) != on
    ensures b >= 0 ==> bit <= 64 * (bit / 64) + b < 64 * (bit / 64) + 64 && (64 * (bit / 64) + b in Bits(ws)) == on
  {
    hide On, SoughtFrom, Ix, Ffs, Bits;
    var v := SoughtFrom(ws[bit / 64], on, Ix(bit % 64));
    forall i: nat | i < 64 ensures On(v, i) <==> i >= bit % 64 && On(ws[bit / 64], i) == on {
      OnSoughtFrom(ws[bit / 64], on, bit % 64, i);
    }
    NextIn(ws, on, bit, bit / 64, v);
  }

  lemma NextWord(ws: seq<Word>, on: bool, k: nat, b: int)
    requires k < |ws| && b == Ffs(Sought(ws[k], on))
    ensures forall j: nat :: 64 * k <= j < 64 * k + (if b == -1 then 64 else b) ==> (j in Bits(ws)) != on
    ensures b >= 0 ==> 64 * k <= 64 * k + b < 64 * k + 64 && (64 * k + b in Bits(ws)) == on
  {
    hide On, Sought, Ffs, Bits;
    var v := Sought(ws[k], on);
    forall i: nat | i < 64 ensures On(v, i) <==> On(ws[k], i) == on { OnSought(ws[k], on, i); }
    NextIn(ws, on, 64 * k, k, v);
  }

  lemma AboveDone(ws: seq<Word>, ws': seq<Word>, bit: nat, on: bool)
    requires bit / 64 < |ws| == |ws'|
    requires ws'[bit / 64] == Apply(ws[bit / 64], Above(Ix(bit % 64)), on)
    requires forall k :: 0 <= k < |ws| && k != bit / 64 ==> ws'[k] == if k < bit / 64 then ws[k] else Const(on)
    ensures forall i: nat :: i in Bits(ws') <==> if bit < i < 64 * |ws| then on else i in Bits(ws)
  {
    hide On, Apply, Above, Ix, Const;
    forall i: nat ensures Has(ws', i) <==> if bit < i < 64 * |ws| then on else Has(ws, i) {
      OnApply(ws[bit / 64], Above(Ix(bit % 64)), on, i % 64);
      OnMasks(bit % 64, i % 64);
      OnConst(on, i % 64);
    }
  }

  lemma BelowDone(ws: seq<Word>, ws': seq<Word>, bit: nat, on: bool)
    requires bit / 64 < |ws| == |ws'|
    requires ws'[bit / 64] == Apply(ws[bit / 64], Below(Ix(bit % 64)), on)
    requires forall k :: 0 <= k < |ws| && k != bit / 64 ==> ws'[k] == if k > bit / 64 then ws[k] else Const(on)
    ensures forall i: nat :: i in Bits(ws') <==> if i < bit then on else i in Bits(ws)
  {
    hide On, Apply, Below, Ix, Const;
    forall i: nat ensures Has(ws', i) <==> if i < bit then on else Has(ws, i) {
      OnApply(ws[bit / 64], Below(Ix(bit % 64)), on, i % 64);
      OnMasks(bit % 64, i % 64);
      OnConst(on, i % 64);
    }
  }

  lemma RangeDone(ws: seq<Word>, ws': seq<Word>, l: nat, h: nat, on: bool)
    requires l / 64 <= h / 64 < |ws| == |ws'|
    requires l / 64 < h / 64 ==>
      && ws'[l / 64] == Apply(ws[l / 64], FromMask(Ix(l % 64)), on)
      && ws'[h / 64] == Apply(ws[h / 64], UpToMask(Ix(h % 64)), on)
    requires l / 64 == h / 64 ==> ws'[h / 64] == Apply(ws[h / 64], RangeMask(Ix(l % 64), Ix(h % 64)), on)
    requires forall k ::
      0 <= k < |ws| && k != l / 64 && k != h / 64 ==> ws'[k] == if l / 64 < k < h / 64 then Const(on) else ws[k]
    ensures forall i: nat :: i in Bits(ws') <==> if InRange(i, l, h) then on else i in Bits(ws)
  {
    hide On, Apply, FromMask, UpToMask, RangeMask, Ix, Const;
    forall i: nat ensures Has(ws', i) <==> if InRange(i, l, h) then on else Has(ws, i) {
      OnConst(on, i % 64);
      if i / 64 == l / 64 || i / 64 == h / 64 { RangeAt(ws, ws', l, h, on, i); }
    }
  }

  lemma RangeAt(ws: seq<Word>, ws': seq<Word>, l: nat, h: nat, on: bool, i: nat)
    requires l / 64 <= h / 64 < |ws| == |ws'|
    requires l / 64 < h / 64 ==>
      && ws'[l / 64] == Apply(ws[l / 64], FromMask(Ix(l % 64)), on)
      && ws'[h / 64] == Apply(ws[h / 64], UpToMask(Ix(h % 64)), on)
    requires l / 64 == h / 64 ==> ws'[h / 64] == Apply(ws[h / 64], RangeMask(Ix(l % 64), Ix(h % 64)), on)
    requires i / 64 == l / 64 || i / 64 == h / 64
    ensures Has(ws', i) <==> if InRange(i, l, h) then on else Has(ws, i)
  {
    hide On, Apply, FromMask, UpToMask, RangeMask, Ix;
    if l / 64 == h / 64 {
      OnApply(ws[h / 64], RangeMask(Ix(l % 64), Ix(h % 64)), on, i % 64);
      OnRange(l % 64, h % 64, i % 64);
    } else if i / 64 == l / 64 {
      OnApply(ws[l / 64], FromMask(Ix(l % 64)), on, i % 64);
      OnMasks(l % 64, i % 64);
    } else {
      OnApply(ws[h / 64], UpToMask(Ix(h % 64)), on, i % 64);
      OnMasks(h % 64, i % 64);
    }
  }

  lemma ClearWords(ws: seq<Word>)
    requires forall k :: 0 <= k < |ws| ==> ws[k] == 0
    ensures Bits(ws) == {}
  {
    hide On;
    forall i: nat | i / 64 < |ws| ensures !Has(ws, i) { OnConst(false, i % 64); }
  }

  lemma Extended(ws: seq<Word>, ws': seq<Word>)
    requires |ws| <= |ws'| && forall k :: 0 <= k < |ws'| ==> ws'[k] == if k < |ws| then ws[k] else 0
    ensures Bits(ws') == Bits(ws)
  {
    hide On;
    forall i: nat ensures Has(ws', i) <==> Has(ws, i) { OnConst(false, i % 64); }
  }

  lemma Shortened(ws: seq<Word>, ws': seq<Word>)
    requires ws' <= ws
    ensures Bits(ws') == set i | i in Bits(ws) && i < 64 * |ws'|
  {
    hide On;
    HasBound(ws');
  }

  lemma Bounded(ws: seq<Word>, n: nat)
    requires |ws| <= Words(n)
    ensures Bits(ws) == set i | i in Bits(ws) && i < 64 * Words(n)
  {
    hide On;
    HasBound(ws);
  }

  lemma FirstCleared(ws: seq<Word>)
    requires |ws| > 0
    ensures Bits(ws[0 := 0]) == set i | i in Bits(ws) && i >= 64
  {
    hide On;
    var ws' := ws[0 := 0];
    forall i: nat ensures Has(ws', i) <==> i >= 64 && Has(ws, i) { OnConst(false, i % 64); }
  }

  /** Or-ing in, or masking out, one bit. */
  lemma OneBit(ws: seq<Word>, bit: nat, on: bool)
    requires bit / 64 < |ws|
    ensures var ws' := ws[bit / 64 := Apply(ws[bit / 64], BitMask(Ix(bit % 64)), on)];
      Bits(ws') == if on then Bits(ws) + {bit} else Bits(ws) - {bit}
  {
    hide On, Apply, BitMask, Ix;
    var ws' := ws[bit / 64 := Apply(ws[bit / 64], BitMask(Ix(bit % 64)), on)];
    forall i: nat ensures Has(ws', i) <==> if i == bit then on else Has(ws, i) {
      if i / 64 == bit / 64 {
        OnApply(ws[bit / 64], BitMask(Ix(bit % 64)), on, i % 64);
        OnMasks(bit % 64, i % 64);
      }
    }
  }
}
