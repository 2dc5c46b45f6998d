/** The lifetime of a transport: a counter of running calls delays its release
    until the outermost call on it has returned. */
module Transport {
  import opened Seqs

  datatype Mode = Raw | Json | Custom

  /** What a message or connection callback, or the transport back end while it
      serves a request, does to the transport: any tree of further operations.
      `body` is what happens while the request runs; the other fields are what
      decides whether it runs and how it ends. */
  datatype Op =
    | Listen(supported: bool, body: seq<Op>)
    | Connect(recvraw: bool, ok: bool, body: seq<Op>)
    | Disconnect(ok: bool, body: seq<Op>)
    | SendRaw(supported: bool, body: seq<Op>)
    | SendRawTo(supported: bool, body: seq<Op>)
    | SendJson(supported: bool, body: seq<Op>)
    | SendJsonTo(supported: bool, body: seq<Op>)
    | Destroy(body: seq<Op>)
    | Input(i: Io)

  /** What a readiness event of a stream finds: a connection to accept, or the
      frames that can be read, or an error; and whether the peer hung up. */
  datatype Io = Io(readable: bool, listened: bool, connection: seq<Op>, ioerror: bool, frames: seq<Frame>, hup: bool,
    closed: seq<Op>)

  /** A frame: whether it parses, whether there is a callback for it, and what
      that does. */
  datatype Frame = Frame(parses: bool, callback: bool, body: seq<Op>)

  // ----- what a call amounts to -----

  /** A transport between the steps of its calls; gone once it is freed. */
  datatype State = State(mode: Mode, busy: nat, destroyed: bool, connected: bool, requests: nat, gone: bool)

  function Purged(s: State): State { s.(gone := s.destroyed && s.busy == 0) }

  function During(s: State, ops: seq<Op>): State
    decreases ops, 1
  {
    var t := All(s.(busy := s.busy + 1), ops);
    t.(busy := s.busy)
  }

  function All(s: State, ops: seq<Op>): State
    decreases ops, 0
  {
    if ops == [] then s else One(All(s, ops[..|ops| - 1]), ops[|ops| - 1])
  }

  function One(s: State, op: Op): State
    decreases op, 0
  {
    match op
    case Listen(supported, body) => if supported then Purged(During(s, body)) else s
    case Connect(recvraw, ok, body) =>
      if s.connected || !recvraw then s
      else var t := During(s, body); Purged(if ok then t.(connected := true) else t)
    case Disconnect(ok, body) =>
      if !s.connected then s
      else var t := During(s, body); Purged(if ok then t.(connected := false) else t)
    case SendRaw(supported, body) => if s.connected && s.mode == Raw && supported then Purged(During(s, body)) else s
    case SendRawTo(supported, body) => if s.mode == Raw && supported then Purged(During(s, body)) else s
    case SendJson(supported, body) => if s.mode == Json && supported then Purged(During(s, body)) else s
    case SendJsonTo(supported, body) => if s.mode == Json && supported then Purged(During(s, body)) else s
    case Destroy(body) => Purged(During(s.(destroyed := true, requests := s.requests + 1), body))
    case Input(i) =>
      if i.readable && i.listened then Purged(During(s, i.connection))
      else if i.readable && i.ioerror then Purged(During(s, i.closed))
      else
        var (t, end) := if i.readable then Frames(s, i.frames) else (s, Going);
        if end == Failed || (end == Going && i.hup) then Purged(During(t, i.closed)) else t
  }

  datatype Outcome = Going | Gone | Failed

  /** Frames delivered until one fails or the transport is gone. */
  function Frames(s: State, frames: seq<Frame>): (State, Outcome)
    decreases frames, 0
  {
    if frames == [] then (s, Going)
    else
      var (t, end) := Frames(s, frames[..|frames| - 1]);
      var f := frames[|frames| - 1];
      if end != Going then (t, end)
      else if Fails(s.mode, f) then (t, Failed)
      else
        var u := Purged(if s.mode == Raw || (s.mode == Json && f.callback) then During(t, f.body) else t);
        (u, if u.gone then Gone else Going)
  }

  predicate Fails(mode: Mode, f: Frame) { mode == Custom || (mode == Json && !f.parses) }

  // ----- what a tree of operations does -----

  /** A successful connect or disconnect, or a request for destruction. */
  datatype Deed = Joined | Parted | Doomed

  /** Connected after the deeds: what the last connect or disconnect left. */
  function Linked(connected: bool, deeds: seq<Deed>): bool {
    if deeds == [] then connected
    else
      match deeds[|deeds| - 1]
      case Joined => true
      case Parted => false
      case Doomed => Linked(connected, deeds[..|deeds| - 1])
  }

  /** The deeds of the operations of a callback or request, in the order in which
      they are performed, nested ones in their places. An operation is performed
      if the transport supports it and is connected, or not, as it takes. */
  function Deeds(mode: Mode, connected: bool, ops: seq<Op>): seq<Deed>
    decreases ops, 0
  {
    if ops == [] then []
    else
      var before := Deeds(mode, connected, ops[..|ops| - 1]);
      before + DeedsOf(mode, Linked(connected, before), false, ops[|ops| - 1])
  }

  /** The deeds of one operation. On a mortal transport, on which no other call is
      running, the delivery of frames ends with the first that has it destroyed. */
  function DeedsOf(mode: Mode, connected: bool, mortal: bool, op: Op): seq<Deed>
    decreases op, 0
  {
    match op
    case Listen(supported, body) => if supported then Deeds(mode, connected, body) else []
    case Connect(recvraw, ok, body) =>
      if connected || !recvraw then [] else Deeds(mode, connected, body) + if ok then [Joined] else []
    case Disconnect(ok, body) =>
      if !connected then [] else Deeds(mode, connected, body) + if ok then [Parted] else []
    case SendRaw(supported, body) =>
      if connected && mode == Raw && supported then Deeds(mode, connected, body) else []
    case SendRawTo(supported, body) => if mode == Raw && supported then Deeds(mode, connected, body) else []
    case SendJson(supported, body) => if mode == Json && supported then Deeds(mode, connected, body) else []
    case SendJsonTo(supported, body) => if mode == Json && supported then Deeds(mode, connected, body) else []
    case Destroy(body) => [Doomed] + Deeds(mode, connected, body)
    case Input(i) =>
      if i.readable && i.listened then Deeds(mode, connected, i.connection)
      else if i.readable && i.ioerror then Deeds(mode, connected, i.closed)
      else
        var (told, failed) := if i.readable then FrameDeeds(mode, connected, mortal, i.frames) else ([], false);
        if (mortal && Doomed in told) || !(failed || i.hup) then told
        else told + Deeds(mode, Linked(connected, told), i.closed)
  }

  /** The deeds of the callbacks of the frames, up to one that fails. */
  function FrameDeeds(mode: Mode, connected: bool, mortal: bool, frames: seq<Frame>): (seq<Deed>, bool)
    decreases frames, 0
  {
    if frames == [] then ([], false)
    else
      var (before, failed) := FrameDeeds(mode, connected, mortal, frames[..|frames| - 1]);
      var f := frames[|frames| - 1];
      if failed || (mortal && Doomed in before) then (before, failed)
      else if mode == Custom || (mode == Json && !f.parses) then (before, true)
      else if mode == Raw || f.callback then (before + Deeds(mode, Linked(connected, before), f.body), false)
      else (before, false)
  }

  /** The state shows the deeds: destruction is requested if it was, or if one of
      them asks for it, as often as they do; and the last of them to connect or
      disconnect decides what the transport is. */
  ghost predicate Shows(s: State, t: State, deeds: seq<Deed>) {
    && (t.destroyed <==> s.destroyed || Doomed in deeds)
    && t.requests == s.requests + multiset(deeds)[Doomed]
    && t.connected == Linked(s.connected, deeds)
    && t.mode == s.mode
  }

  lemma ShowsMore(s: State, t: State, u: State, ds: seq<Deed>, es: seq<Deed>)
    requires Shows(s, t, ds) && Shows(t, u, es)
    ensures Shows(s, u, ds + es)
  {
    LinkedMore(s.connected, ds, es);
    assert multiset(ds + es) == multiset(ds) + multiset(es);
    forall d ensures d in ds + es <==> d in ds || d in es {}
  }

  lemma {:induction false} LinkedMore(connected: bool, ds: seq<Deed>, es: seq<Deed>)
    ensures Linked(connected, ds + es) == Linked(Linked(connected, ds), es)
  {
    if es == [] {
      assert ds + es == ds;
    } else {
      assert (ds + es)[..|ds + es| - 1] == ds + es[..|es| - 1];
      LinkedMore(connected, ds, es[..|es| - 1]);
    }
  }

  lemma ShowsNone(s: State)
    ensures Shows(s, s, [])
  {
  }

  /** Every tree of operations does what its deeds are. */
  lemma {:induction false} DuringShows(s: State, ops: seq<Op>)
    requires !s.gone
    ensures Shows(s, During(s, ops), Deeds(s.mode, s.connected, ops))
    decreases ops, 1
  {
    AllShows(s.(busy := s.busy + 1), ops);
  }

  lemma {:induction false} AllShows(s: State, ops: seq<Op>)
    requires !s.gone && s.busy > 0
    ensures Shows(s, All(s, ops), Deeds(s.mode, s.connected, ops))
    decreases ops, 0
  {
    if ops == [] {
      ShowsNone(s);
    } else {
      var init, op := ops[..|ops| - 1], ops[|ops| - 1];
      var t := All(s, init);
      AllShows(s, init);
      AllKept(s, init);
      OneShows(t, op);
      ShowsMore(s, t, One(t, op), Deeds(s.mode, s.connected, init), DeedsOf(t.mode, t.connected, false, op));
    }
  }

  lemma {:induction false} OneShows(s: State, op: Op)
    requires !s.gone && (s.busy == 0 ==> !s.destroyed)
    ensures Shows(s, One(s, op), DeedsOf(s.mode, s.connected, s.busy == 0, op))
    decreases op, 0
  {
    hide Shows, During, Deeds, Purged;
    match op
    case Listen(_, body) => BodyShows(s, body);
    case Connect(_, ok, body) => BodyShows(s, body); JoinedShows(s, During(s, body), Deeds(s.mode, s.connected, body));
    case Disconnect(ok, body) => BodyShows(s, body); JoinedShows(s, During(s, body), Deeds(s.mode, s.connected, body));
    case SendRaw(_, body) => BodyShows(s, body);
    case SendRawTo(_, body) => BodyShows(s, body);
    case SendJson(_, body) => BodyShows(s, body);
    case SendJsonTo(_, body) => BodyShows(s, body);
    case Destroy(body) => DestroyShows(s, body);
    case Input(i) => InputShows(s, i);
  }

  lemma {:induction false} BodyShows(s: State, body: seq<Op>)
    requires !s.gone
    ensures Shows(s, During(s, body), Deeds(s.mode, s.connected, body))
    ensures Shows(s, Purged(During(s, body)), Deeds(s.mode, s.connected, body)) && Shows(s, s, [])
    decreases body, 2
  {
    hide During, Deeds;
    DuringShows(s, body);
    ShowsNone(s);
  }

  lemma JoinedShows(s: State, t: State, ds: seq<Deed>)
    requires Shows(s, t, ds)
    ensures Shows(s, Purged(t.(connected := true)), ds + [Joined])
    ensures Shows(s, Purged(t.(connected := false)), ds + [Parted])
    ensures Shows(s, Purged(t), ds + [])
  {
    assert (ds + [Joined])[..|ds|] == ds && (ds + [Parted])[..|ds|] == ds && ds + [] == ds;
    assert forall d :: d in ds + [Joined] <==> d in ds || d == Joined;
    assert forall d :: d in ds + [Parted] <==> d in ds || d == Parted;
  }

  lemma {:induction false} DestroyShows(s: State, body: seq<Op>)
    requires !s.gone
    ensures Shows(s, One(s, Destroy(body)), [Doomed] + Deeds(s.mode, s.connected, body))
    decreases body, 3
  {
    hide During, Deeds;
    var t := s.(destroyed := true, requests := s.requests + 1);
    BodyShows(t, body);
    assert [Doomed][..0] == [] && Linked(s.connected, []) == s.connected;
    assert Shows(s, t, [Doomed]);
    ShowsMore(s, t, Purged(During(t, body)), [Doomed], Deeds(s.mode, s.connected, body));
  }

  lemma {:induction false} InputShows(s: State, i: Io)
    requires !s.gone && (s.busy == 0 ==> !s.destroyed)
    ensures Shows(s, One(s, Input(i)), DeedsOf(s.mode, s.connected, s.busy == 0, Input(i)))
    decreases i, 3
  {
    hide During, Deeds, Frames, FrameDeeds, Shows, Purged;
    if i.readable && i.listened {
      BodyShows(s, i.connection);
    } else if i.readable && i.ioerror {
      BodyShows(s, i.closed);
    } else {
      ShowsNone(s);
      FramesShows(s, i.frames);
      FramesKept(s, i.frames);
      var (t, end) := if i.readable then Frames(s, i.frames) else (s, Going);
      var (told, failed) :=
        if i.readable then FrameDeeds(s.mode, s.connected, s.busy == 0, i.frames) else ([], false);
      if end == Failed || (end == Going && i.hup) {
        BodyShows(t, i.closed);
        ShowsAre(s, t, told);
        ShowsMore(s, t, Purged(During(t, i.closed)), told, Deeds(t.mode, t.connected, i.closed));
      }
    }
  }

  lemma ShowsAre(s: State, t: State, ds: seq<Deed>)
    requires Shows(s, t, ds)
    ensures t.mode == s.mode && t.connected == Linked(s.connected, ds)
    ensures t.destroyed <==> s.destroyed || Doomed in ds
  {
  }

  lemma {:induction false} FramesShows(s: State, frames: seq<Frame>)
    requires !s.gone && (s.busy == 0 ==> !s.destroyed)
    ensures var (t, end) := Frames(s, frames);
      var (told, failed) := FrameDeeds(s.mode, s.connected, s.busy == 0, frames);
      Shows(s, t, told) && (end == Failed <==> failed) && (end == Gone <==> s.busy == 0 && Doomed in told)
    decreases frames, 3
  {
    hide During, Deeds, Shows;
    if frames == [] {
      ShowsNone(s);
    } else {
      var init, f := frames[..|frames| - 1], frames[|frames| - 1];
      FramesShows(s, init);
      FramesKept(s, init);
      FramesKept(s, frames);
      var (t, end) := Frames(s, init);
      var (told, failed) := FrameDeeds(s.mode, s.connected, s.busy == 0, init);
      ShowsAre(s, t, told);
      if end == Going && !Fails(s.mode, f) {
        if s.mode == Raw || f.callback {
          BodyShows(t, f.body);
          var more := Deeds(t.mode, t.connected, f.body);
          ShowsMore(s, t, Purged(During(t, f.body)), told, more);
          ShowsAre(s, Purged(During(t, f.body)), told + more);
        } else {
          PurgedShows(s, t, told);
        }
      }
    }
  }

  lemma PurgedShows(s: State, t: State, ds: seq<Deed>)
    requires Shows(s, t, ds)
    ensures Shows(s, Purged(t), ds)
  {
  }

  /** A request or a callback never releases the transport it runs on, and
      leaves it as deeply nested as it was. */
  lemma {:induction false} DuringKept(s: State, ops: seq<Op>)
    requires !s.gone
    ensures var t := During(s, ops); !t.gone && t.busy == s.busy && t.mode == s.mode && Later(s, t)
    decreases ops, 1
  {
    AllKept(s.(busy := s.busy + 1), ops);
  }

  /** Destruction, once requested, stays so; requests are what causes it. */
  ghost predicate Later(s: State, t: State) {
    s.requests <= t.requests && (t.destroyed <==> s.destroyed || s.requests < t.requests)
  }

  lemma {:induction false} AllKept(s: State, ops: seq<Op>)
    requires !s.gone && s.busy > 0
    ensures var t := All(s, ops); !t.gone && t.busy == s.busy && t.mode == s.mode && Later(s, t)
    decreases ops, 0
  {
    if ops != [] {
      AllKept(s, ops[..|ops| - 1]);
      OneKept(All(s, ops[..|ops| - 1]), ops[|ops| - 1]);
    }
  }

  /** Whatever a call does: at depth zero a transport that was not to be
      destroyed before is gone afterwards exactly if it has been destroyed;
      deeper down it is never gone. */
  lemma {:induction false} OneKept(s: State, op: Op)
    requires !s.gone
    ensures var t := One(s, op); t.busy == s.busy && t.mode == s.mode && Later(s, t)
    ensures s.busy > 0 ==> !One(s, op).gone
    ensures s.busy == 0 && !s.destroyed ==> (One(s, op).gone <==> One(s, op).destroyed)
    decreases op, 0
  {
    match op
    case Listen(_, body) => DuringKept(s, body);
    case Connect(_, _, body) => DuringKept(s, body);
    case Disconnect(_, body) => DuringKept(s, body);
    case SendRaw(_, body) => DuringKept(s, body);
    case SendRawTo(_, body) => DuringKept(s, body);
    case SendJson(_, body) => DuringKept(s, body);
    case SendJsonTo(_, body) => DuringKept(s, body);
    case Destroy(body) => DuringKept(s.(destroyed := true, requests := s.requests + 1), body);
    case Input(i) =>
      DuringKept(s, i.connection);
      DuringKept(s, i.closed);
      FramesKept(s, i.frames);
      var (t, end) := Frames(s, i.frames);
      if end != Gone { DuringKept(t, i.closed); }
  }

  lemma {:induction false} FramesKept(s: State, frames: seq<Frame>)
    requires !s.gone
    ensures var (t, end) := Frames(s, frames);
      && t.busy == s.busy && t.mode == s.mode && Later(s, t) && (t.gone <==> end == Gone)
      && (t.gone ==> s.busy == 0 && t.destroyed)
      && (s.busy == 0 && !s.destroyed && !t.gone ==> !t.destroyed)
    decreases frames, 0
  {
    if frames != [] {
      FramesKept(s, frames[..|frames| - 1]);
      var (t, end) := Frames(s, frames[..|frames| - 1]);
      if end == Going { DuringKept(t, frames[|frames| - 1].body); }
    }
  }

  /** A purge check: the nesting depth it ran at, whether destruction had been
      requested, and whether it released the transport. */
  datatype Check = Check(depth: nat, destroyed: bool, released: bool)

  /** transport.c and the receive callback of stream-transport.c. Every access
      to a field requires that the transport has not been released. */
  class Transport {
    const mode: Mode
    var busy: nat
    var destroyed: bool
    var connected: bool
    var requests: nat              // calls of iot_transport_destroy
    var released: nat              // times the transport was freed
    ghost var checks: seq<Check>

    ghost function Now(): State reads this { State(mode, busy, destroyed, connected, requests, released > 0) }

    /** Only a check at depth zero after destroy releases, the first such does,
        and nothing is checked after it. */
    ghost predicate Valid() reads this {
      && released <= 1
      && (destroyed <==> requests > 0)
      && (forall k :: 0 <= k < |checks| ==> (checks[k].released <==> checks[k].depth == 0 && checks[k].destroyed))
      && (forall k :: 0 <= k < |checks| && checks[k].released ==> k == |checks| - 1 && released == 1)
      && (released == 1 ==> destroyed && |checks| > 0 && checks[|checks| - 1].released)
    }

    constructor (mode: Mode, connected: bool)
      ensures Valid() && Now() == State(mode, 0, false, connected, 0, false)
    {
      busy, destroyed, requests, released, checks := 0, false, 0, 0, [];
      this.mode, this.connected := mode, connected;
    }

    method Enter()
      requires Valid() && released == 0
      modifies this`busy
      ensures Valid() && busy == old(busy) + 1
    {
      busy := busy + 1;
    }

    method Leave()
      requires Valid() && released == 0 && busy > 0
      modifies this`busy
      ensures Valid() && busy == old(busy) - 1
    {
      busy := busy - 1;
    }

    method SetConnected(c: bool)
      requires Valid() && released == 0
      modifies this`connected
      ensures Valid() && connected == c
    {
      connected := c;
    }

    /** purge_destroyed, and check_destroy for the back ends. */
    method PurgeDestroyed() returns (gone: bool)
      requires Valid() && released == 0
      modifies this`released, this`checks
      ensures Valid() && Now() == Purged(old(Now())) && gone == Now().gone
      ensures checks == old(checks) + [Check(busy, destroyed, gone)]
    {
      gone := destroyed && busy == 0;
      checks := checks + [Check(busy, destroyed, gone)];
      if gone {
        released := released + 1;
      }
    }

    /** The operations that a running request or callback performs. */
    method Run(ops: seq<Op>)
      requires Valid() && released == 0 && busy > 0
      modifies this
      ensures Valid() && Now() == All(old(Now()), ops) && released == 0 && old(checks) <= checks
      ensures Shows(old(Now()), Now(), Deeds(mode, old(connected), ops))
      decreases ops, 0
    {
      hide Valid, One, Shows, Deeds;
      ghost var s := Now();
      AllShows(s, ops);
      AllKept(s, ops[..0]);
      for k := 0 to |ops|
        invariant Valid() && Now() == All(s, ops[..k]) && released == 0 && busy > 0 && old(checks) <= checks
      {
        Do(ops[k]);
        assert ops[..k + 1][..k] == ops[..k];
        AllKept(s, ops[..k + 1]);
      }
      assert ops[..|ops|] == ops;
    }

    /** IOT_TRANSPORT_BUSY around a request. */
    method Busy(ops: seq<Op>)
      requires Valid() && released == 0
      modifies this
      ensures Valid() && Now() == During(old(Now()), ops) && released == 0 && old(checks) <= checks
      decreases ops, 1
    {
      hide Shows, Deeds;
      Enter();
      AllKept(Now(), ops);
      Run(ops);
      Leave();
    }

    /** A request followed by the purge check. */
    method Serve(body: seq<Op>)
      requires Valid() && released == 0
      modifies this
      ensures Valid() && Now() == Purged(During(old(Now()), body)) && old(checks) <= checks
      decreases body, 2
    {
      hide During;
      Busy(body);
      var gone := PurgeDestroyed();
    }

    method Do(op: Op)
      requires Valid() && released == 0
      modifies this
      ensures Valid() && Now() == One(old(Now()), op) && old(checks) <= checks
      ensures old(busy > 0 || !destroyed) ==>
        Shows(old(Now()), Now(), DeedsOf(mode, old(connected), old(busy) == 0, op))
      decreases op, 0
    {
      hide During, Valid, Frames, Shows, DeedsOf;
      if busy > 0 || !destroyed { OneShows(Now(), op); }
      match op {
        case Listen(supported, body) => if supported { Serve(body); }
        case Connect(recvraw, ok, body) => if !connected && recvraw { ConnectTo(body, ok, true); }
        case Disconnect(ok, body) => if connected { ConnectTo(body, ok, false); }
        case SendRaw(supported, body) => if connected && mode == Raw && supported { Serve(body); }
        case SendRawTo(supported, body) => if mode == Raw && supported { Serve(body); }
        case SendJson(supported, body) => if mode == Json && supported { Serve(body); }
        case SendJsonTo(supported, body) => if mode == Json && supported { Serve(body); }
        case Destroy(body) =>
          MarkDestroyed();
          Serve(body);
        case Input(i) => Readable(i);
      }
    }

    method MarkDestroyed()
      requires Valid() && released == 0
      modifies this`destroyed, this`requests
      ensures Valid() && Now() == old(Now()).(destroyed := true, requests := old(requests) + 1)
    {
      destroyed, requests := true, requests + 1;
    }

    /** iot_transport_connect and iot_transport_disconnect: the flag changes
        while the transport is still busy. */
    method ConnectTo(body: seq<Op>, ok: bool, to: bool)
      requires Valid() && released == 0
      modifies this
      ensures Valid() && old(checks) <= checks
      ensures Now() == var t := During(old(Now()), body); Purged(if ok then t.(connected := to) else t)
      decreases body, 2
    {
      hide Shows, Deeds;
      Enter();
      AllKept(Now(), body);
      Run(body);
      if ok { SetConnected(to); }
      Leave();
      var gone := PurgeDestroyed();
    }

    /** recv_data: no purge here, that is up to the caller. */
    method RecvData(f: Frame) returns (error: bool)
      requires Valid() && released == 0
      modifies this
      ensures Valid() && released == 0 && old(checks) <= checks && (error <==> mode == Custom)
      ensures Now() == if mode == Raw || (mode == Json && f.callback) then During(old(Now()), f.body) else old(Now())
      decreases f
    {
      hide During;
      error := mode == Custom;
      if mode == Raw || (mode == Json && f.callback) {
        Busy(f.body);
      }
    }

    /** The delivery loop of strm_recv_cb: lets go at once when a callback has
        had the transport destroyed. */
    method Deliver(frames: seq<Frame>) returns (end: Outcome)
      requires Valid() && released == 0
      modifies this
      ensures Valid() && old(checks) <= checks && (Now(), end) == Frames(old(Now()), frames)
      decreases frames
    {
      hide During, Valid;
      ghost var s := Now();
      FramesKept(s, frames[..0]);
      for k := 0 to |frames|
        invariant Valid() && old(checks) <= checks && (Now(), Going) == Frames(s, frames[..k]) && released == 0
      {
        assert frames[..k + 1][..k] == frames[..k];
        FramesKept(s, frames[..k + 1]);
        var error := mode == Json && !frames[k].parses;
        if !error { error := RecvData(frames[k]); }
        if error {
          FramesEnd(s, frames, k + 1);
          return Failed;
        }
        var gone := PurgeDestroyed();
        if gone {
          FramesEnd(s, frames, k + 1);
          return Gone;
        }
      }
      assert frames[..|frames|] == frames;
      end := Going;
    }

    /** strm_recv_cb */
    method Readable(i: Io)
      requires Valid() && released == 0
      modifies this
      ensures Valid() && Now() == One(old(Now()), Input(i)) && old(checks) <= checks
      decreases i
    {
      hide During, Valid, Frames;
      if i.readable && i.listened { Serve(i.connection); return; }
      if i.readable && i.ioerror { Serve(i.closed); return; }
      var end := Going;
      if i.readable {
        FramesKept(Now(), i.frames);
        end := Deliver(i.frames);
      }
      if end == Failed || (end == Going && i.hup) { Serve(i.closed); }
    }
  }

  /** Once the walk over the frames has ended, the rest do not matter. */
  lemma {:induction false} FramesEnd(s: State, frames: seq<Frame>, k: nat)
    requires k <= |frames| && Frames(s, frames[..k]).1 != Going
    ensures Frames(s, frames) == Frames(s, frames[..k])
    decreases |frames|
  {
    hide During;
    if k < |frames| {
      assert frames[..|frames| - 1][..k] == frames[..k];
      FramesEnd(s, frames[..|frames| - 1], k);
    } else {
      assert frames[..k] == frames;
    }
  }

  /** A message whose callback destroys the transport, which is otherwise out of
      use: the call that delivers it releases the transport. */
  lemma NestedDestroy(s: State)
    requires s.mode == Json && s.busy == 0 && !s.destroyed && !s.gone
    ensures var i := Io(true, false, [], false, [Frame(true, true, [Destroy([])])], false, []);
      One(s, Input(i)).gone && One(s, Input(i)).requests == s.requests + 1
  {
    var frames := [Frame(true, true, [Destroy([])])];
    var t := s.(busy := s.busy + 1);
    var none: seq<Op>, first: seq<Frame>, one := [], [], [Destroy([])];
    assert frames[..0] == first && one[..0] == none;
    assert All(t, none) == t && All(t, one) == One(t, Destroy([]));
    assert Frames(s, first) == (s, Going);
  }

  /** The deeds of calls from outside, made one after the other. */
  function CallDeeds(mode: Mode, connected: bool, calls: seq<Op>): seq<Deed> {
    if calls == [] then []
    else
      var before := CallDeeds(mode, connected, calls[..|calls| - 1]);
      before + DeedsOf(mode, Linked(connected, before), true, calls[|calls| - 1])
  }

  /** Any run of calls from outside, made for as long as the transport exists: it
      is released exactly once, when the first call returns that has it destroyed
      by itself or by what it calls; and it is as the calls have left it. */
  method Session(t: Transport, calls: seq<Op>) returns (made: nat)
    requires t.Valid() && t.busy == 0 && t.released == 0 && !t.destroyed
    modifies t
    ensures t.Valid() && t.busy == 0 && made <= |calls| && old(t.checks) <= t.checks
    ensures t.released == 1 <==> t.destroyed
    ensures t.released == 1 <==> Doomed in CallDeeds(t.mode, old(t.connected), calls[..made])
    ensures made > 0 ==> Doomed !in CallDeeds(t.mode, old(t.connected), calls[..made - 1])
    ensures Shows(old(t.Now()), t.Now(), CallDeeds(t.mode, old(t.connected), calls[..made]))
    ensures t.released == 0 ==> made == |calls| && forall k :: 0 <= k < |calls| ==> !calls[k].Destroy?
  {
    hide One, CallDeeds, DeedsOf, Shows;
    made := 0;
    ghost var s := t.Now();
    NoCalls(s, calls);
    while made < |calls| && t.released == 0
      invariant t.Valid() && t.busy == 0 && made <= |calls| && old(t.checks) <= t.checks
      invariant t.released == 1 <==> t.destroyed
      invariant Shows(s, t.Now(), CallDeeds(s.mode, s.connected, calls[..made]))
      invariant t.released == 1 <==> Doomed in CallDeeds(s.mode, s.connected, calls[..made])
      invariant made > 0 ==> Doomed !in CallDeeds(s.mode, s.connected, calls[..made - 1])
      invariant t.released == 0 ==> forall k :: 0 <= k < made ==> !calls[k].Destroy?
    {
      OneKept(t.Now(), calls[made]);
      if calls[made].Destroy? { DestroyDestroys(t.Now(), calls[made]); }
      OneShows(t.Now(), calls[made]);
      CallShows(s, t.Now(), One(t.Now(), calls[made]), calls, made);
      t.Do(calls[made]);
      made := made + 1;
    }
  }

  lemma NoCalls(s: State, calls: seq<Op>)
    requires !s.destroyed
    ensures calls[..0] == [] && CallDeeds(s.mode, s.connected, calls[..0]) == []
    ensures Shows(s, s, CallDeeds(s.mode, s.connected, calls[..0]))
  {
  }

  lemma CallShows(s: State, t: State, u: State, calls: seq<Op>, k: nat)
    requires k < |calls| && Shows(s, t, CallDeeds(s.mode, s.connected, calls[..k])) && !s.destroyed
    requires Shows(t, u, DeedsOf(t.mode, t.connected, true, calls[k]))
    ensures Shows(s, u, CallDeeds(s.mode, s.connected, calls[..k + 1]))
    ensures u.destroyed <==> Doomed in CallDeeds(s.mode, s.connected, calls[..k + 1])
    ensures t.destroyed <==> Doomed in CallDeeds(s.mode, s.connected, calls[..k])
  {
    hide DeedsOf, Shows;
    var ds := CallDeeds(s.mode, s.connected, calls[..k]);
    ShowsAre(s, t, ds);
    assert calls[..k + 1][..k] == calls[..k];
    ShowsMore(s, t, u, ds, DeedsOf(t.mode, t.connected, true, calls[k]));
    ShowsAre(s, u, CallDeeds(s.mode, s.connected, calls[..k + 1]));
  }

  lemma DestroyDestroys(s: State, op: Op)
    requires op.Destroy? && !s.gone
    ensures One(s, op).destroyed
  {
    DuringKept(s.(destroyed := true, requests := s.requests + 1), op.body);
  }
}
