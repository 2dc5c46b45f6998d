/** Collecting fragments of length-prefixed messages in a growing buffer. */
module Fragbuf {
  import opened Seqs

  newtype byte = x: int | 0 <= x < 256

  // ----- framing -----

  /** Big-endian 32-bit length. */
  function Be32(n: nat): seq<byte>
    requires n < 0x1_0000_0000
  {
    var a := n / 0x100;
    var b := a / 0x100;
    [(b / 0x100) as byte, (b % 0x100) as byte, (a % 0x100) as byte, (n % 0x100) as byte]
  }

  function Length(b: seq<byte>): nat
    requires |b| >= 4
  {
    b[0] as nat * 0x100_0000 + b[1] as nat * 0x1_0000 + b[2] as nat * 0x100 + b[3] as nat
  }

  /** Sizes the buffer's signed 32-bit counters can hold. */
  const MAX: nat := 0x7fff_ffff

  function Frame(msg: seq<byte>): seq<byte>
    requires |msg| + 4 <= MAX
  {
    Be32(|msg|) + msg
  }

  function Frames(msgs: seq<seq<byte>>): seq<byte>
    requires forall m :: m in msgs ==> |m| + 4 <= MAX
  {
    if msgs == [] then [] else Frame(msgs[0]) + Frames(msgs[1..])
  }

  /** The buffer starts with a whole frame. */
  predicate HasFrame(b: seq<byte>) { |b| >= 4 && |b| >= 4 + Length(b) }

  /** Splitting a byte string into the bodies of its whole frames and the rest. */
  function Parse(b: seq<byte>): (r: (seq<seq<byte>>, seq<byte>))
    decreases |b|
  {
    if HasFrame(b) then
      var (ms, rest) := Parse(b[4 + Length(b)..]);
      ([b[4..4 + Length(b)]] + ms, rest)
    else ([], b)
  }

  lemma LengthOfBe32(n: nat, b: seq<byte>)
    requires n < 0x1_0000_0000
    ensures Length(Be32(n) + b) == n
  {
    var q := n / 0x100;
    var r := q / 0x100;
    assert n == q * 0x100 + n % 0x100 && q == r * 0x100 + q % 0x100 && r == r / 0x100 * 0x100 + r % 0x100;
  }

  lemma LengthOfFrame(msg: seq<byte>, b: seq<byte>)
    requires |msg| + 4 <= MAX
    ensures var f := Frame(msg) + b;
      HasFrame(f) && Length(f) == |msg| && f[4..4 + |msg|] == msg && f[4 + |msg|..] == b
  {
    LengthOfBe32(|msg|, msg + b);
    assert Frame(msg) + b == Be32(|msg|) + (msg + b);
    hide Length, Be32;
  }

  lemma ParseShort(s: seq<byte>)
    requires s == [] || !HasFrame(s)
    ensures Parse(s) == ([], s)
  {
  }

  lemma ParseFrame(msg: seq<byte>, t: seq<byte>)
    requires |msg| + 4 <= MAX
    ensures Parse(Frame(msg) + t) == ([msg] + Parse(t).0, Parse(t).1)
  {
    hide Frame;
    LengthOfFrame(msg, t);
  }

  /** Decoding what the sender framed, with any incomplete tail left over. */
  lemma {:induction false} ParseFrames(msgs: seq<seq<byte>>, tail: seq<byte>)
    requires forall m :: m in msgs ==> |m| + 4 <= MAX
    requires !HasFrame(tail)
    ensures Parse(Frames(msgs) + tail) == (msgs, tail)
  {
    if msgs == [] {
      assert Frames(msgs) + tail == tail;
    } else {
      hide Frame, Parse, HasFrame;
      var rest := Frames(msgs[1..]) + tail;
      assert Frames(msgs) + tail == Frame(msgs[0]) + rest;
      ParseFrame(msgs[0], rest);
      ParseFrames(msgs[1..], tail);
      assert msgs == [msgs[0]] + msgs[1..];
    }
  }

  lemma {:induction false} ParseRest(b: seq<byte>)
    ensures !HasFrame(Parse(b).1)
    decreases |b|
  {
    if HasFrame(b) {
      ParseRest(b[4 + Length(b)..]);
    }
  }

  lemma SameLength(s: seq<byte>, t: seq<byte>)
    requires s <= t && |s| >= 4
    ensures Length(s) == Length(t)
  {
  }

  /** Bytes that arrive later only extend what was decoded so far. */
  lemma {:induction false} ParseAppend(b: seq<byte>, c: seq<byte>)
    ensures Parse(b + c).0 == Parse(b).0 + Parse(Parse(b).1 + c).0
    ensures Parse(b + c).1 == Parse(Parse(b).1 + c).1
    decreases |b|
  {
    hide Length, Parse, HasFrame;
    if HasFrame(b) {
      ParseStep(b);
      var n := 4 + Length(b);
      var d, e := b[n..], b[4..n];
      FrameAppend(b, c);
      ParseStep(b + c);
      ParseAppend(d, c);
      var later := Parse(Parse(d).1 + c).0;
      assert [e] + Parse(d).0 + later == [e] + (Parse(d).0 + later);
    } else {
      ParseShort(b);
    }
  }

  lemma ParseStep(b: seq<byte>)
    requires HasFrame(b)
    ensures |b| >= 4 + Length(b)
    ensures var n := 4 + Length(b); Parse(b) == ([b[4..n]] + Parse(b[n..]).0, Parse(b[n..]).1)
  {
  }

  lemma FrameAppend(b: seq<byte>, c: seq<byte>)
    requires HasFrame(b)
    ensures var n := 4 + Length(b);
      && HasFrame(b + c) && Length(b + c) == Length(b)
      && (b + c)[4..n] == b[4..n] && (b + c)[n..] == b[n..] + c
  {
    hide Length;
    SameLength(b, b + c);
  }

  // ----- one pull loop -----

  /** What the pull loop delivers, and what it leaves: the first pull accepts a
      frame of any size, later ones want more than a bare header in the buffer. */
  function Drained(b: seq<byte>, first: bool): (r: (seq<seq<byte>>, seq<byte>))
    decreases |b|
  {
    if HasFrame(b) && (first || |b| > 4) then
      var (ms, rest) := Drained(b[4 + Length(b)..], false);
      ([b[4..4 + Length(b)]] + ms, rest)
    else ([], b)
  }

  /** The buffer ends in an empty message behind another complete one. */
  ghost predicate EndsEmpty(b: seq<byte>) {
    var (ms, rest) := Parse(b);
    |ms| >= 2 && ms[|ms| - 1] == [] && rest == []
  }

  lemma {:induction false} DrainedLater(b: seq<byte>)
    ensures var (ms, rest) := Parse(b);
      if ms != [] && ms[|ms| - 1] == [] && rest == [] then
        Drained(b, false) == (ms[..|ms| - 1], b[|b| - 4..]) && |b| >= 4
      else Drained(b, false) == Parse(b)
    decreases |b|
  {
    if HasFrame(b) {
      var n := 4 + Length(b);
      var (ms, rest) := Parse(b[n..]);
      DrainedLater(b[n..]);
      if |b| == 4 {
        assert b[4..4] == [] && b[4..] == [];
        assert b[0..] == b;
      } else if ms != [] && ms[|ms| - 1] == [] && rest == [] {
        var all := [b[4..n]] + ms;
        assert all[..|all| - 1] == [b[4..n]] + ms[..|ms| - 1];
        assert b[n..][|b| - n - 4..] == b[|b| - 4..];
      } else if ms == [] && b[4..n] == [] {
        assert rest == b[4..];
      }
    }
  }

  lemma DrainedShort(b: seq<byte>)
    requires !HasFrame(b)
    ensures Drained(b, true) == ([], b)
  {
  }

  lemma DrainedStep(b: seq<byte>)
    requires HasFrame(b)
    ensures |b| >= 4 + Length(b)
    ensures var n := 4 + Length(b); Drained(b, true) == ([b[4..n]] + Drained(b[n..], false).0, Drained(b[n..], false).1)
  {
  }

  /** The loop delivers exactly the complete messages, and leaves the rest,
      unless an empty message behind another one ends the buffer; then it holds
      that one back, in the buffer. */
  lemma {:induction false} DrainedExactly(b: seq<byte>)
    ensures Drained(b, true) == Parse(b) <==> !EndsEmpty(b)
    ensures EndsEmpty(b) ==> var ms := Parse(b).0;
      Drained(b, true).0 == ms[..|ms| - 1] && Parse(Drained(b, true).1) == ([[]], [])
  {
    hide Parse, Drained, HasFrame, Length;
    if !HasFrame(b) {
      ParseShort(b);
      DrainedShort(b);
    } else {
      ParseStep(b);
      var n := 4 + Length(b);
      DrainedStep(b);
      DrainedLater(b[n..]);
      var (ms, rest) := Parse(b[n..]);
      var all := [b[4..n]] + ms;
      if EndsEmpty(b) {
        assert ms != [] && ms[|ms| - 1] == all[|all| - 1] == [] && rest == [];
        assert all[..|all| - 1] == [b[4..n]] + ms[..|ms| - 1];
        LastHeader(b[n..]);
      } else if ms != [] {
        assert all[|all| - 1] == ms[|ms| - 1];
      }
    }
  }

  /** A message of one byte and an empty one: the empty one is held back. */
  lemma EmptyLast()
    ensures var b: seq<byte> := [0, 0, 0, 1, 7, 0, 0, 0, 0];
      EndsEmpty(b) && Parse(b) == ([[7], []], []) && Drained(b, true) == ([[7]], [0, 0, 0, 0])
  {
    var b: seq<byte>, e: seq<byte>, none: seq<byte> := [0, 0, 0, 1, 7, 0, 0, 0, 0], [0, 0, 0, 0], [];
    var done: seq<seq<byte>> := [];
    assert b[5..] == e && e[4..] == none && b[4..5] == [7] && e[4..4] == none;
    assert Parse(none) == (done, none) && [none] + done == [none];
    assert Parse(e) == ([none], none) && Drained(e, false) == (done, e);
    assert [b[4..5]] + [none] == [[7], []] && [b[4..5]] + done == [[7]];
  }

  lemma {:induction false} LastHeader(b: seq<byte>)
    requires var (ms, rest) := Parse(b); ms != [] && ms[|ms| - 1] == [] && rest == []
    ensures |b| >= 4 && Parse(b[|b| - 4..]) == ([[]], [])
    decreases |b|
  {
    var n := 4 + Length(b);
    var (ms, rest) := Parse(b[n..]);
    assert Parse(b).0 == [b[4..n]] + ms;
    if ms == [] {
      assert ([b[4..n]] + ms)[0] == [];
      assert |b| == 4 && b[0..] == b;
      var one: seq<seq<byte>> := [[]];
      assert Parse(b) == (one + [], []) && one + [] == one;
    } else {
      var all := [b[4..n]] + ms;
      assert all[|all| - 1] == ms[|ms| - 1];
      LastHeader(b[n..]);
      assert b[n..][|b| - n - 4..] == b[|b| - 4..];
    }
  }

  // ----- headers that lie -----

  /** (int) of a size_t */
  function Int32(n: nat): int { var m := n % 0x1_0000_0000; if m < 0x8000_0000 then m else m - 0x1_0000_0000 }

  /** What iot_fragbuf_pull tests: the size comes from the peer, and the sum with
      the header's own size is cut to a signed int. */
  predicate Accepts(b: seq<byte>) { |b| >= 4 && |b| >= Int32(4 + Length(b)) }

  /** The header asks for more than the buffer's counters can hold. */
  predicate Wild(b: seq<byte>) { |b| >= 4 && 4 + Length(b) > MAX }

  /** The test accepts whole frames, and every wild header; what is handed out
      lies inside the buffer exactly if the header is not wild. */
  lemma AcceptsExactly(b: seq<byte>)
    requires |b| <= MAX
    ensures Accepts(b) <==> HasFrame(b) || Wild(b)
    ensures Accepts(b) ==> (4 + Length(b) <= |b| <==> 4 + Length(b) <= MAX)
  {
    if |b| >= 4 {
      assert Length(b) < 0x1_0000_0000;
    }
  }

  /** Two headers of four bytes that are accepted with nothing behind them. */
  lemma WildHeaders()
    ensures var b: seq<byte> := [0xff, 0xff, 0xff, 0xfc];
      Accepts(b) && Length(b) == 0xffff_fffc && Int32(4 + Length(b)) == 0
    ensures var b: seq<byte> := [0x7f, 0xff, 0xff, 0xfc];
      Accepts(b) && Length(b) == 0x7fff_fffc && Int32(4 + Length(b)) < 0
  {
  }

  /** The pull loop comes upon a wild header. */
  function Overruns(b: seq<byte>, first: bool): bool
    decreases |b|
  {
    if HasFrame(b) && (first || |b| > 4) then Overruns(b[4 + Length(b)..], false)
    else Wild(b) && (first || |b| > 4)
  }

  // ----- streams of chunks -----

  function Concat(chunks: seq<seq<byte>>): seq<byte> {
    if chunks == [] then [] else chunks[0] + Concat(chunks[1..])
  }

  /** Push each chunk and run the pull loop: all messages, and the final buffer. */
  function Feed(b: seq<byte>, chunks: seq<seq<byte>>): (seq<seq<byte>>, seq<byte>)
    decreases chunks
  {
    if chunks == [] then ([], b)
    else
      var (ms, b') := Drained(b + chunks[0], true);
      var (ns, rest) := Feed(b', chunks[1..]);
      (ms + ns, rest)
  }

  /** Some pull loop along the way comes upon a wild header. */
  function FeedOverruns(b: seq<byte>, chunks: seq<seq<byte>>): bool
    decreases chunks
  {
    chunks != [] && (Overruns(b + chunks[0], true) || FeedOverruns(Drained(b + chunks[0], true).1, chunks[1..]))
  }

  /** The buffer never has to hold more than its counters can count. */
  function Fits(b: seq<byte>, chunks: seq<seq<byte>>): bool
    decreases chunks
  {
    chunks == [] || (|b + chunks[0]| <= MAX && Fits(Drained(b + chunks[0], true).1, chunks[1..]))
  }

  /** However a stream without empty messages is cut into chunks, the messages
      delivered are those complete so far, in order, and the buffer is left with
      exactly the incomplete end. */
  lemma {:induction false} FeedIsParse(b: seq<byte>, chunks: seq<seq<byte>>)
    requires !HasFrame(b)
    requires [] !in Parse(b + Concat(chunks)).0
    ensures Feed(b, chunks) == Parse(b + Concat(chunks))
    decreases chunks
  {
    if chunks == [] {
      assert b + [] == b;
    } else {
      var c, later := chunks[0], Concat(chunks[1..]);
      assert b + Concat(chunks) == (b + c) + later;
      ParseAppend(b + c, later);
      DrainedExactly(b + c);
      ParseRest(b + c);
      var (ms, b') := Parse(b + c);
      assert [] !in ms;
      FeedIsParse(b', chunks[1..]);
    }
  }

  /** Every prefix of a framed stream decodes to a prefix of the messages, and
      what is left is a proper prefix of the next frame. */
  lemma {:induction false} PrefixDecodes(s: seq<byte>, msgs: seq<seq<byte>>)
    requires forall m :: m in msgs ==> |m| + 4 <= MAX
    requires s <= Frames(msgs)
    ensures var (ms, rest) := Parse(s);
      && ms <= msgs && s == Frames(ms) + rest
      && (|ms| < |msgs| ==> rest < Frame(msgs[|ms|]))
      && (|ms| == |msgs| ==> rest == [])
    decreases |msgs|
  {
    hide Frame, Parse, HasFrame, Length;
    if msgs == [] {
      ParseShort(s);
    } else {
      var f, later := Frame(msgs[0]), Frames(msgs[1..]);
      FrameSize(msgs[0]);
      if |s| >= |f| {
        var t := s[|f|..];
        assert s == f + t && t <= later;
        ParseFrame(msgs[0], t);
        PrefixDecodes(t, msgs[1..]);
        var (ms, rest) := Parse(t);
        assert forall m :: m in ms ==> m in msgs[1..];
        ConsFrames(msgs[0], ms, rest);
        assert |ms| + 1 < |msgs| ==> msgs[1..][|ms|] == msgs[|ms| + 1];
        assert msgs == [msgs[0]] + msgs[1..];
      } else {
        PartialFrame(s, msgs[0], later);
        ParseShort(s);
      }
    }
  }

  lemma ConsFrames(msg: seq<byte>, ms: seq<seq<byte>>, rest: seq<byte>)
    requires |msg| + 4 <= MAX && forall m :: m in ms ==> |m| + 4 <= MAX
    ensures Frames([msg] + ms) + rest == Frame(msg) + (Frames(ms) + rest)
  {
    hide Frame;
    assert ([msg] + ms)[1..] == ms;
  }

  lemma FrameSize(msg: seq<byte>)
    requires |msg| + 4 <= MAX
    ensures |Frame(msg)| == |msg| + 4
  {
  }

  lemma PartialFrame(s: seq<byte>, msg: seq<byte>, later: seq<byte>)
    requires |msg| + 4 <= MAX && s <= Frame(msg) + later && |s| < |Frame(msg)|
    ensures s < Frame(msg) && !HasFrame(s)
  {
    LengthOfFrame(msg, later);
    assert s <= Frame(msg);
    if |s| >= 4 {
      assert Length(s) == Length(Frame(msg) + later);
    }
  }

  /** The round trip: messages framed by the sender, cut anywhere. */
  lemma {:induction false} RoundTrip(msgs: seq<seq<byte>>, chunks: seq<seq<byte>>)
    requires forall m :: m in msgs ==> 0 < |m| <= MAX - 4
    requires Concat(chunks) <= Frames(msgs)
    ensures var (ms, rest) := Feed([], chunks);
      && ms <= msgs && Concat(chunks) == Frames(ms) + rest
      && (|ms| < |msgs| ==> rest < Frame(msgs[|ms|]))
      && (|ms| == |msgs| ==> rest == [])
    ensures !FeedOverruns([], chunks)
  {
    assert [] + Concat(chunks) == Concat(chunks);
    PrefixDecodes(Concat(chunks), msgs);
    FeedIsParse([], chunks);
    FeedTame([], chunks, msgs);
  }

  /** No header of a framed stream is wild. */
  lemma {:induction false} Tame(s: seq<byte>, first: bool, msgs: seq<seq<byte>>)
    requires forall m :: m in msgs ==> |m| + 4 <= MAX
    requires s <= Frames(msgs)
    ensures !Overruns(s, first)
    decreases |msgs|
  {
    hide Frame;
    if msgs != [] {
      var f, later := Frame(msgs[0]), Frames(msgs[1..]);
      FrameSize(msgs[0]);
      LengthOfFrame(msgs[0], later);
      if |s| >= |f| {
        var t := s[|f|..];
        assert s == f + t && t <= later;
        LengthOfFrame(msgs[0], t);
        Tame(t, false, msgs[1..]);
      } else {
        PartialFrame(s, msgs[0], later);
        if |s| >= 4 { SameLength(s, f + later); }
      }
    }
  }

  lemma {:induction false} FramesSplit(msgs: seq<seq<byte>>, n: nat)
    requires n <= |msgs| && forall m :: m in msgs ==> |m| + 4 <= MAX
    ensures Frames(msgs) == Frames(msgs[..n]) + Frames(msgs[n..])
  {
    hide Frame;
    if n == 0 {
      assert msgs[0..] == msgs;
    } else {
      var t := msgs[1..];
      FramesSplit(t, n - 1);
      var a, c := msgs[..n], msgs[n..];
      assert a[0] == msgs[0] && a[1..] == t[..n - 1] && t[n - 1..] == c;
      assert Frames(a) == Frame(msgs[0]) + Frames(t[..n - 1]);
    }
  }

  lemma {:induction false} FeedTame(b: seq<byte>, chunks: seq<seq<byte>>, msgs: seq<seq<byte>>)
    requires forall m :: m in msgs ==> 0 < |m| <= MAX - 4
    requires b + Concat(chunks) <= Frames(msgs)
    ensures !FeedOverruns(b, chunks)
    decreases chunks
  {
    if chunks != [] {
      hide Frames, Overruns, Drained, Parse, Frame;
      var s, later := b + chunks[0], Concat(chunks[1..]);
      assert b + Concat(chunks) == s + later;
      var n := FeedOne(s, later, msgs);
      FeedTame(Drained(s, true).1, chunks[1..], msgs[n..]);
    }
  }

  /** One chunk: the pull loop leaves the rest of the stream for the rest of the
      messages. */
  lemma {:induction false} FeedOne(s: seq<byte>, later: seq<byte>, msgs: seq<seq<byte>>) returns (n: nat)
    requires forall m :: m in msgs ==> 0 < |m| <= MAX - 4
    requires s + later <= Frames(msgs)
    ensures n <= |msgs| && !Overruns(s, true) && Drained(s, true).1 + later <= Frames(msgs[n..])
  {
    hide Frames, Overruns, Drained, Parse, Frame;
    assert s <= Frames(msgs);
    Tame(s, true, msgs);
    PrefixDecodes(s, msgs);
    DrainedExactly(s);
    var (ms, rest) := Parse(s);
    n := |ms|;
    assert ms == msgs[..n];
    assert !EndsEmpty(s) by {
      if |ms| >= 2 { assert ms[|ms| - 1] == msgs[|ms| - 1]; }
    }
    FramesSplit(msgs, n);
    var f, r := Frames(ms), Frames(msgs[n..]);
    DropPrefix(f, rest, later, r);
  }

  lemma DropPrefix(f: seq<byte>, rest: seq<byte>, later: seq<byte>, r: seq<byte>)
    requires f + rest + later <= f + r
    ensures rest + later <= r
  {
    assert f + rest + later == f + (rest + later);
    assert (f + (rest + later))[|f|..] == rest + later && (f + r)[|f|..] == r;
  }

  /** One turn of the pull loop, and its end. */
  lemma DrainOne(b: seq<byte>, first: bool)
    requires HasFrame(b) && (first || |b| > 4)
    ensures var n := 4 + Length(b);
      && Drained(b, first).0 == [b[4..n]] + Drained(b[n..], false).0
      && Drained(b, first).1 == Drained(b[n..], false).1
      && Overruns(b, first) == Overruns(b[n..], false)
  {
  }

  lemma DrainStop(b: seq<byte>, first: bool)
    requires |b| <= MAX && (Wild(b) || !(Accepts(b) && (first || |b| > 4)))
    ensures Drained(b, first) == ([], b) && Overruns(b, first) == (Wild(b) && (first || |b| > 4))
    ensures Wild(b) ==> Accepts(b)
  {
    AcceptsExactly(b);
  }

  // ----- the buffer -----

  /** A pointer into the buffer, as an offset; None is NULL. */
  type Ptr = Option<nat>

  /** Outcome of reading from the socket into space for some bytes. */
  datatype Read = Bytes(data: seq<byte>) | Again | Failed

  class Buffer {
    var data: array<byte>      // as long as the C field `size` says
    var used: nat
    const framed: bool

    ghost predicate Valid() reads this {
      used <= data.Length
    }

    ghost function Contents(): seq<byte>
      reads this, data
      requires Valid()
    {
      data[..used]
    }

    constructor (framed: bool)
      ensures Valid() && Contents() == [] && this.framed == framed && fresh(data) && data.Length == 0
    {
      this.framed := framed;
      data := new byte[0];
      used := 0;
    }

    /** fragbuf_ensure: room for size more bytes. The result is NULL when memory
        runs out, and also when the buffer has never been given any. */
    method Ensure(size: nat, memory: bool) returns (p: Ptr)
      requires Valid()
      modifies `data
      ensures Valid() && Contents() == old(Contents())
      ensures data == old(data) || fresh(data)
      ensures p.Some? ==> p.value == used && used + size <= data.Length
      ensures p.None? <==> (old(data.Length) - used < size && !memory) || (size == 0 && old(data.Length) == 0)
      ensures p.None? ==> data == old(data)
    {
      if data.Length - used < size {
        if !memory { return None; }
        var oldData := data;
        var bigger := new byte[used + size](
          i requires 0 <= i reads this, data => if i < data.Length then data[i] else 0);
        assert bigger[..used] == oldData[..used];
        data := bigger;
      }
      p := if data.Length == 0 then None else Some(used);
    }

    /** iot_fragbuf_alloc: claim size bytes with whatever they happen to hold. */
    method Alloc(size: nat, memory: bool) returns (p: Ptr)
      requires Valid()
      modifies `data, `used
      ensures Valid() && (data == old(data) || fresh(data))
      ensures p.None? ==> Contents() == old(Contents())
      ensures p.Some? ==> p.value == old(used) && used == old(used) + size && Contents()[..old(used)] == old(Contents())
      ensures p.None? <==> (old(data.Length) - old(used) < size && !memory) || (size == 0 && old(data.Length) == 0)
    {
      p := Ensure(size, memory);
      if p.Some? {
        ghost var before := Contents();
        used := used + size;
        assert Contents()[..old(used)] == before;
      }
    }

    /** iot_fragbuf_trim: give back the end of the last claim. */
    method Trim(p: nat, osize: nat, nsize: nat) returns (ok: bool)
      requires Valid()
      modifies `used
      ensures Valid()
      ensures ok <==> p + osize == old(used) && nsize <= osize
      ensures ok ==> used == p + nsize && Contents() == old(Contents())[..p + nsize]
      ensures !ok ==> used == old(used)
    {
      ok := p + osize == used && nsize <= osize;
      if ok {
        used := used - (osize - nsize);
      }
    }

    /** iot_fragbuf_push. */
    method Push(bytes: seq<byte>, memory: bool) returns (ok: bool)
      requires Valid()
      modifies this, data
      ensures Valid() && (data == old(data) || fresh(data))
      ensures Contents() == if ok then old(Contents()) + bytes else old(Contents())
      ensures bytes != [] && memory ==> ok
    {
      var p := Ensure(|bytes|, memory);
      if p.None? { return false; }
      ghost var before := Contents();
      Write(used, bytes);
      used := used + |bytes|;
      return true;
    }

    /** memcpy, or read, into the buffer. */
    method Write(at: nat, bytes: seq<byte>)
      requires at + |bytes| <= data.Length
      modifies data
      ensures data[..at + |bytes|] == old(data[..at]) + bytes
    {
      forall i | 0 <= i < |bytes| {
        data[at + i] := bytes[i];
      }
    }

    /** One round of the receive loop: claim the pending bytes, read into them
        and trim. This adds exactly the bytes read unless the read would have
        blocked: then the whole claim stays in the buffer. */
    method Receive(pending: nat, r: Read, memory: bool) returns (ok: bool)
      requires Valid() && pending > 0
      requires r.Bytes? ==> |r.data| <= pending
      modifies this, data
      ensures Valid() && (data == old(data) || fresh(data))
      ensures ok <==> (memory || old(data.Length) - old(used) >= pending) && !r.Failed?
      ensures ok && r.Bytes? ==> Contents() == old(Contents()) + r.data
      ensures ok && r.Again? ==> |Contents()| == |old(Contents())| + pending && old(Contents()) <= Contents()
    {
      var p := Alloc(pending, memory);
      if p.None? { return false; }
      if !r.Bytes? { return r.Again?; }
      Fill(p.value, pending, r.data);
      return true;
    }

    /** Bytes read into the last claim, and the rest of it given back. */
    method Fill(p: nat, claim: nat, bytes: seq<byte>)
      requires Valid() && p + claim == used && |bytes| <= claim
      modifies `used, data
      ensures Valid() && Contents() == old(Contents())[..p] + bytes
    {
      ghost var before, n := Contents(), p + |bytes|;
      Write(p, bytes);
      assert data[..n] == before[..p] + bytes;
      if |bytes| < claim {
        var _ := Trim(p, claim, |bytes|);
      }
      assert Contents() == data[..n];
    }

    /** Drop the first n bytes: memmove to the front. */
    method Consume(n: nat)
      requires Valid() && n <= used
      modifies `used, data
      ensures Valid() && data == old(data) && Contents() == old(Contents())[n..]
    {
      ghost var before := Contents();
      forall i | 0 <= i < used - n {
        data[i] := data[n + i];
      }
      used := used - n;
      assert Contents() == before[n..];
    }

    /** be32toh of the first four bytes. */
    method Header() returns (n: nat)
      requires Valid() && used >= 4
      ensures n == Length(Contents())
    {
      n := data[0] as nat * 0x100_0000 + data[1] as nat * 0x1_0000 + data[2] as nat * 0x100 + data[3] as nat;
    }

    /** iot_fragbuf_pull, framed. NULL starts an iteration; otherwise p must be
        what the previous pull gave, and that frame is consumed first: out of
        bounds if its header was wild. What is handed out lies inside the buffer
        exactly if its header is not. */
    method PullFramed(p: Ptr, size: nat) returns (more: bool, q: Ptr, qsize: nat, crash: bool)
      requires Valid() && framed && used <= MAX
      requires p == None || (p == Some(4) && Accepts(Contents()))
      modifies `used, data
      ensures Valid() && data == old(data)
      ensures crash <==> p != None && Wild(old(Contents()))
      ensures p == None ==> Contents() == old(Contents()) && (more <==> Accepts(Contents()))
      ensures p != None && !crash ==>
        && Contents() == old(Contents())[4 + Length(old(Contents()))..]
        && (more <==> Accepts(Contents()) && |Contents()| > 4)
      ensures more ==> |Contents()| >= 4 && q == Some(4) && qsize == Length(Contents())
      ensures more ==> (4 + qsize <= |Contents()| <==> 4 + qsize <= MAX)
    {
      hide Length;
      AcceptsExactly(Contents());
      more, q, qsize, crash := false, p, size, false;
      if used == 0 { return; }
      if p == None {
        if used < 4 { return; }
        var n := Header();
        if used < Int32(4 + n) { return; }
        return true, Some(4), n, false;
      }
      var n := Header();
      if 4 + n > used { return false, p, size, true; }
      Consume(4 + n);
      if used <= 4 { return; }
      n := Header();
      AcceptsExactly(Contents());
      if used >= Int32(4 + n) {
        return true, Some(4), n, false;
      }
    }

    /** iot_fragbuf_pull, unframed: everything is one message; what the caller
        took of it is consumed by the next pull. */
    method PullRaw(p: Ptr, size: nat) returns (more: bool, q: Ptr, qsize: nat)
      requires Valid() && !framed
      requires p.Some? ==> p.value + size <= used
      modifies `used, data
      ensures Valid() && data == old(data)
      ensures Contents() == if p == None then old(Contents()) else old(Contents())[p.value + size..]
      ensures more <==> Contents() != []
      ensures more ==> q == Some(0) && qsize == |Contents()|
    {
      more, q, qsize := false, p, size;
      if used == 0 { return; }
      if p == None {
        return true, Some(0), used;
      }
      var from := p.value + size;
      if from < used {
        Consume(from);
        return true, Some(0), used;
      }
      used := 0;
    }

    /** A message copied out, and the next pull. */
    method TakeOne(size: nat) returns (m: seq<byte>, more: bool, next: nat)
      requires Valid() && framed && used <= MAX && HasFrame(Contents()) && size == Length(Contents())
      modifies `used, data
      ensures Valid() && data == old(data) && used <= MAX && used < old(used)
      ensures m == old(Contents())[4..4 + size] && Contents() == old(Contents())[4 + size..]
      ensures more <==> Accepts(Contents()) && used > 4
      ensures more ==> used >= 4 && next == Length(Contents())
    {
      hide Accepts;
      AcceptsExactly(Contents());
      m := data[4..4 + size];
      assert m == Contents()[4..4 + size];
      var q, crash;
      more, q, next, crash := PullFramed(Some(4), size);
    }

    /** The pull loop of the stream transport, with its messages copied out, up
        to a message that does not lie inside the buffer. */
    method Drain() returns (msgs: seq<seq<byte>>, wild: bool)
      requires Valid() && framed && used <= MAX
      modifies `used, data
      ensures Valid() && data == old(data) && used <= MAX
      ensures (msgs, Contents()) == Drained(old(Contents()), true)
      ensures wild <==> Overruns(old(Contents()), true)
    {
      hide Drained, Overruns, Accepts, HasFrame;
      msgs, wild := [], false;
      ghost var start, first := Contents(), true;
      var more, p, size, crash := PullFramed(None, 0);
      while more && !wild
        invariant Valid() && data == old(data) && used <= MAX
        invariant more ==> Accepts(Contents()) && used >= 4 && size == Length(Contents()) && (first || used > 4)
        invariant !more ==> !(Accepts(Contents()) && (first || used > 4))
        invariant wild ==> more && Wild(Contents())
        invariant Drained(start, true).0 == msgs + Drained(Contents(), first).0
        invariant Drained(start, true).1 == Drained(Contents(), first).1
        invariant Overruns(start, true) == Overruns(Contents(), first)
        decreases used, more, !wild
      {
        AcceptsExactly(Contents());
        if 4 + size > used {
          wild := true;
        } else {
          ghost var sofar, t := msgs, Drained(Contents()[4 + size..], false).0;
          DrainOne(Contents(), first);
          var m;
          m, more, size := TakeOne(size);
          msgs, first := msgs + [m], false;
          assert sofar + ([m] + t) == msgs + t;
        }
      }
      DrainStop(Contents(), first);
      assert msgs + [] == msgs;
    }

    /** The receive loop over a stream that comes in chunks: each is pushed, and the
        complete messages are pulled. It ends early when there is no memory for a
        chunk, or at a wild header; taken says after how many chunks. */
    method Collect(chunks: seq<seq<byte>>, memory: seq<bool>) returns (msgs: seq<seq<byte>>, taken: nat, wild: bool)
      requires Valid() && framed && used <= MAX && Fits(Contents(), chunks) && |memory| == |chunks|
      modifies this, data
      ensures Valid() && used <= MAX && taken <= |chunks|
      ensures wild <==> FeedOverruns(old(Contents()), chunks[..taken])
      ensures !wild ==> (msgs, Contents()) == Feed(old(Contents()), chunks[..taken])
      ensures !wild && taken < |chunks| ==> !memory[taken] && chunks[taken] != []
      decreases chunks
    {
      hide Drained, Overruns;
      msgs, taken, wild := [], 0, false;
      if chunks == [] { return; }
      ghost var b := Contents();
      var ok := Push(chunks[0], memory[0]);
      if !ok && chunks[0] != [] { return; }
      assert b + chunks[0] == Contents();
      msgs, wild := Drain();
      if wild {
        taken := 1;
        FedOne(b, chunks, 0);
        return;
      }
      var more;
      more, taken, wild := Collect(chunks[1..], memory[1..]);
      FedOne(b, chunks, taken);
      msgs, taken := msgs + more, taken + 1;
    }
  }

  lemma FedOne(b: seq<byte>, chunks: seq<seq<byte>>, k: nat)
    requires k < |chunks|
    ensures var d := Drained(b + chunks[0], true); var later := chunks[1..][..k];
      && Feed(b, chunks[..k + 1]) == (d.0 + Feed(d.1, later).0, Feed(d.1, later).1)
      && FeedOverruns(b, chunks[..k + 1]) == (Overruns(b + chunks[0], true) || FeedOverruns(d.1, later))
  {
    hide Drained, Overruns;
    assert chunks[..k + 1][1..] == chunks[1..][..k] && chunks[..k + 1][0] == chunks[0];
  }

  lemma {:induction false} ConcatPrefix(chunks: seq<seq<byte>>, k: nat)
    requires k <= |chunks|
    ensures Concat(chunks[..k]) <= Concat(chunks)
  {
    if k > 0 {
      ConcatPrefix(chunks[1..], k - 1);
      assert chunks[..k][1..] == chunks[1..][..k - 1];
    }
  }

  /** A framed stream of messages, sent in chunks into a new buffer, as far as
      there is memory. */
  method Transfer(msgs: seq<seq<byte>>, chunks: seq<seq<byte>>, memory: seq<bool>)
    returns (got: seq<seq<byte>>, taken: nat, buf: Buffer)
    requires forall m :: m in msgs ==> 0 < |m| <= MAX - 4
    requires Concat(chunks) <= Frames(msgs) && Fits([], chunks) && |memory| == |chunks|
    ensures fresh(buf) && buf.Valid() && taken <= |chunks| && (taken < |chunks| ==> !memory[taken])
    ensures got <= msgs && Concat(chunks[..taken]) == Frames(got) + buf.Contents()
    ensures if |got| < |msgs| then buf.Contents() < Frame(msgs[|got|]) else buf.Contents() == []
  {
    buf := new Buffer(true);
    var wild;
    got, taken, wild := buf.Collect(chunks, memory);
    ConcatPrefix(chunks, taken);
    RoundTrip(msgs, chunks[..taken]);
  }
}
