/** One proxied TCP connection: two brokers that half-close their sockets, a goroutine that waits for both, and the client loop
    that closes everything when both are done or the proxy quits.  Every thread moves one call at a time. */
module TcpProxy {

  import opened Common

  datatype Side = ToClient | ToBackend

  /** A broker copies from one socket to the other, then closes the read half it used and the write half it used. */
  datatype BrokerPc = Copying(buffer: seq<Byte>) | CloseReadNext | CloseWriteNext | DoneNext | Finished

  /** One direction: what the peer has sent and whether it has ended its stream, how much the broker has read, what it has
      written out, and whether its copy ended otherwise than at the end of the stream. */
  datatype Flow = Flow(sent: seq<Byte>, ended: bool, read: nat, delivered: seq<Byte>, broken: bool, pc: BrokerPc)

  datatype MainPc = Selecting | CloseClientNext | CloseBackendNext | AwaitingFinish | Returned

  datatype State = State(toClient: Flow, toBackend: Flow, main: MainPc, waiting: nat, finish: bool, quit: bool,
                         quitTaken: bool, faults: bool, clientClosed: bool, backendClosed: bool,
                         readShut: set<Side>, writeShut: set<Side>)

  const IDLE := Flow([], false, 0, [], false, Copying([]))
  const START := State(IDLE, IDLE, Selecting, 2, false, false, false, false, false, false, {}, {})

  function FlowOf(s: State, d: Side): Flow {
    if d == ToClient then s.toClient else s.toBackend
  }

  function With(s: State, d: Side, f: Flow): State {
    if d == ToClient then s.(toClient := f) else s.(toBackend := f)
  }

  /** Steps of one direction: the peer, then the broker. */
  datatype FlowEvent =
    | PeerSends(bytes: seq<Byte>) | PeerEnds
    | Read(n: nat) | Write | ReadEnd | CopyFails(written: nat) | ShutRead | ShutWrite | Done

  datatype Event = On(d: Side, step: FlowEvent) | Quit | WaitOver | TakeQuit | TakeFinish | CloseClient | CloseBackend | Return

  predicate AnyClosed(s: State) { s.clientClosed || s.backendClosed }

  predicate FlowCan(f: Flow, e: FlowEvent, closed: bool) {
    match e
    case PeerSends(bytes) => !f.ended
    case PeerEnds => !f.ended
    case Read(n) => f.pc == Copying([]) && !closed && 0 < n <= |f.sent| - f.read
    case Write => f.pc.Copying? && f.pc.buffer != [] && !closed
    case ReadEnd => f.pc == Copying([]) && !closed && f.ended && f.read == |f.sent|
    case CopyFails(written) => f.pc.Copying? && written <= |f.pc.buffer|
    case ShutRead => f.pc == CloseReadNext
    case ShutWrite => f.pc == CloseWriteNext
    case Done => f.pc == DoneNext
  }

  /** A copy may fail at any time, after writing part of its buffer. */
  function FlowDo(f: Flow, e: FlowEvent, closed: bool): Flow
    requires FlowCan(f, e, closed)
  {
    match e
    case PeerSends(bytes) => f.(sent := f.sent + bytes)
    case PeerEnds => f.(ended := true)
    case Read(n) => f.(read := f.read + n, pc := Copying(f.sent[f.read..f.read + n]))
    case Write => f.(delivered := f.delivered + f.pc.buffer, pc := Copying([]))
    case ReadEnd => f.(pc := CloseReadNext)
    case CopyFails(written) => f.(delivered := f.delivered + f.pc.buffer[..written], pc := CloseReadNext, broken := true)
    case ShutRead => f.(pc := CloseWriteNext)
    case ShutWrite => f.(pc := DoneNext)
    case Done => f.(pc := Finished)
  }

  predicate Can(s: State, e: Event) {
    match e
    case On(d, step) => FlowCan(FlowOf(s, d), step, AnyClosed(s)) && (step.Done? ==> s.waiting > 0)
    case Quit => !s.quit
    case WaitOver => s.waiting == 0 && !s.finish
    case TakeQuit => s.main == Selecting && s.quit
    case TakeFinish => s.main == Selecting && s.finish
    case CloseClient => s.main == CloseClientNext
    case CloseBackend => s.main == CloseBackendNext
    case Return => s.main == AwaitingFinish && s.finish
  }

  /** While both sockets are open a failing copy is a network fault. */
  function Do(s: State, e: Event): State
    requires Can(s, e)
  {
    match e
    case On(d, step) =>
      With(s, d, FlowDo(FlowOf(s, d), step, AnyClosed(s)))
        .(faults := s.faults || (step.CopyFails? && !AnyClosed(s)),
          readShut := if step.ShutRead? then s.readShut + {d} else s.readShut,
          writeShut := if step.ShutWrite? then s.writeShut + {d} else s.writeShut,
          waiting := if step.Done? then s.waiting - 1 else s.waiting)
    case Quit => s.(quit := true)
    case WaitOver => s.(finish := true)
    case TakeQuit => s.(main := CloseClientNext, quitTaken := true)
    case TakeFinish => s.(main := CloseClientNext)
    case CloseClient => s.(main := CloseBackendNext, clientClosed := true)
    case CloseBackend => s.(main := AwaitingFinish, backendClosed := true)
    case Return => s.(main := Returned)
  }

  predicate Runs(s: State, es: seq<Event>)
    decreases |es|
  {
    es == [] || (Can(s, es[0]) && Runs(Do(s, es[0]), es[1..]))
  }

  function After(s: State, es: seq<Event>): State
    requires Runs(s, es)
    decreases |es|
  {
    if es == [] then s else After(Do(s, es[0]), es[1..])
  }

  // ---------------------------------------------------------------- invariant

  function Buffered(pc: BrokerPc): seq<Byte> { if pc.Copying? then pc.buffer else [] }

  /** What was delivered and is buffered is what was read; an unbroken copy that ended has delivered the whole stream. */
  ghost predicate FlowInv(f: Flow) {
    && f.read <= |f.sent|
    && f.delivered <= f.sent
    && (!f.broken ==> f.delivered + Buffered(f.pc) == f.sent[..f.read])
    && (f.broken ==> !f.pc.Copying?)
    && (!f.broken && !f.pc.Copying? ==> f.ended && f.delivered == f.sent)
  }

  /** The broker has closed the read half it used. */
  predicate ReadDone(pc: BrokerPc) { pc.CloseWriteNext? || WriteDone(pc) }

  /** The broker has closed the write half it used: the other side sees the end of the stream. */
  predicate WriteDone(pc: BrokerPc) { pc.DoneNext? || pc.Finished? }

  function Remaining(f: Flow): nat { if f.pc.Finished? then 0 else 1 }

  ghost predicate HalvesRight(s: State) {
    && (forall d :: d in s.readShut <==> ReadDone(FlowOf(s, d).pc))
    && (forall d :: d in s.writeShut <==> WriteDone(FlowOf(s, d).pc))
  }

  ghost predicate Inv(s: State) {
    && FlowInv(s.toClient) && FlowInv(s.toBackend)
    && s.waiting == Remaining(s.toClient) + Remaining(s.toBackend)
    && (s.finish ==> s.waiting == 0)
    && (s.main != Selecting ==> s.quitTaken || s.finish)
    && (s.quitTaken ==> s.quit)
    && (s.main == Selecting ==> !s.quitTaken)
    && (s.clientClosed <==> s.main.CloseBackendNext? || s.main.AwaitingFinish? || s.main.Returned?)
    && (s.backendClosed <==> s.main.AwaitingFinish? || s.main.Returned?)
    && (s.main == Returned ==> s.finish)
    && (s.toClient.broken || s.toBackend.broken ==> s.faults || s.quitTaken)
    && HalvesRight(s)
  }

  lemma FlowKept(f: Flow, e: FlowEvent, closed: bool)
    requires FlowInv(f) && FlowCan(f, e, closed)
    ensures FlowInv(FlowDo(f, e, closed))
    ensures var f' := FlowDo(f, e, closed);
            && (f.pc.Finished? ==> f'.pc.Finished?)
            && (f'.pc.Copying? ==> f.pc.Copying?)
            && (f'.broken == (f.broken || e.CopyFails?))
            && (f'.pc.Finished? <==> f.pc.Finished? || e.Done?)
            && (e.Done? || e.CopyFails? ==> !f.pc.Finished?)
  {
    match e
    case Read(n) =>
      assert f.sent[..f.read + n] == f.sent[..f.read] + f.sent[f.read..f.read + n];
    case PeerSends(bytes) =>
      assert (f.sent + bytes)[..f.read] == f.sent[..f.read];
    case CopyFails(written) =>
      assert f.delivered + f.pc.buffer[..written] == f.sent[..|f.delivered| + written];
    case _ =>
  }

  lemma HalvesAfter(f: Flow, e: FlowEvent, closed: bool)
    requires FlowCan(f, e, closed)
    ensures ReadDone(FlowDo(f, e, closed).pc) <==> ReadDone(f.pc) || e.ShutRead?
    ensures WriteDone(FlowDo(f, e, closed).pc) <==> WriteDone(f.pc) || e.ShutWrite?
  {}

  lemma InvKept(s: State, e: Event)
    requires Inv(s) && Can(s, e)
    ensures Inv(Do(s, e))
  {
    if e.On? {
      BrokerKeepsInv(s, e.d, e.step);
    } else {
      MainKeepsInv(s, e);
    }
  }

  lemma BrokerKeepsInv(s: State, d: Side, step: FlowEvent)
    requires Inv(s) && Can(s, On(d, step))
    ensures Inv(Do(s, On(d, step)))
  {
    hide FlowInv, FlowCan, FlowDo, HalvesRight;
    FlowKept(FlowOf(s, d), step, AnyClosed(s));
    BrokerKeepsHalves(s, d, step);
  }

  lemma BrokerKeepsHalves(s: State, d: Side, step: FlowEvent)
    requires HalvesRight(s) && Can(s, On(d, step))
    ensures HalvesRight(Do(s, On(d, step)))
  {
    hide FlowCan, FlowDo, ReadDone, WriteDone;
    HalvesAfter(FlowOf(s, d), step, AnyClosed(s));
  }

  lemma MainKeepsInv(s: State, e: Event)
    requires Inv(s) && Can(s, e) && !e.On?
    ensures Inv(Do(s, e))
  {
    hide FlowInv;
  }

  lemma {:induction false} InvHolds(s: State, es: seq<Event>)
    requires Inv(s) && Runs(s, es)
    ensures Inv(After(s, es))
    decreases |es|
  {
    hide Inv, Do;
    if es != [] {
      InvKept(s, es[0]);
      InvHolds(Do(s, es[0]), es[1..]);
    }
  }

  /** In every schedule the bytes delivered each way are a prefix of the bytes sent that way. */
  lemma DeliveredIsPrefix(es: seq<Event>)
    requires Runs(START, es)
    ensures var s := After(START, es);
            s.toClient.delivered <= s.toClient.sent && s.toBackend.delivered <= s.toBackend.sent
  {
    InvHolds(START, es);
  }

  /** The client socket is no longer usable in any direction: closed, or both of its halves shut down.  Its write half
      belongs to the flow to the client, its read half to the flow to the backend. */
  predicate ClientFullyClosed(s: State) {
    s.clientClosed || (ToClient in s.writeShut && ToBackend in s.readShut)
  }

  predicate BackendFullyClosed(s: State) {
    s.backendClosed || (ToBackend in s.writeShut && ToClient in s.readShut)
  }

  /** Half-close: unless the quit was taken, neither socket is fully closed before both copies have ended, and neither
      is closed outright before both brokers have finished. */
  lemma HalfClose(es: seq<Event>)
    requires Runs(START, es)
    ensures var s := After(START, es);
            !s.quitTaken ==>
              && (ClientFullyClosed(s) || BackendFullyClosed(s) ==> !s.toClient.pc.Copying? && !s.toBackend.pc.Copying?)
              && (s.clientClosed || s.backendClosed ==> s.toClient.pc.Finished? && s.toBackend.pc.Finished?)
  {
    InvHolds(START, es);
    var s := After(START, es);
    assert s.waiting == 0 ==> Remaining(s.toClient) == 0 && Remaining(s.toBackend) == 0;
  }

  /** In every schedule a broker has shut exactly the halves it is past: first the read half it used, then the write half. */
  lemma HalvesShutExactly(es: seq<Event>, d: Side)
    requires Runs(START, es)
    ensures var s := After(START, es);
            && (d in s.writeShut <==> FlowOf(s, d).pc.DoneNext? || FlowOf(s, d).pc.Finished?)
            && (d in s.readShut <==> FlowOf(s, d).pc.CloseWriteNext? || FlowOf(s, d).pc.DoneNext? || FlowOf(s, d).pc.Finished?)
  {
    InvHolds(START, es);
  }

  /** Without a quit and without faults, a direction whose broker has finished has delivered its whole stream and then the end of
      it, whatever the other direction is doing. */
  lemma EndIsPassedOn(es: seq<Event>, d: Side)
    requires Runs(START, es) && !After(START, es).quitTaken && !After(START, es).faults
    requires FlowOf(After(START, es), d).pc.Finished?
    ensures var s := After(START, es);
            && FlowOf(s, d).ended && FlowOf(s, d).delivered == FlowOf(s, d).sent
            && d in s.writeShut && d in s.readShut
  {
    InvHolds(START, es);
  }

  /** Whatever one side sends can be delivered, in either direction, with nothing failing and nothing closed. */
  lemma AnythingCanBeDelivered(d: Side, bytes: seq<Byte>)
    requires bytes != []
    ensures var es := [On(d, PeerSends(bytes)), On(d, Read(|bytes|)), On(d, Write)];
            Runs(START, es) && FlowOf(After(START, es), d).delivered == bytes && !After(START, es).faults && !AnyClosed(After(START, es))
  {
    hide Runs, After;
    var s1 := With(START, d, IDLE.(sent := bytes));
    var s2 := With(START, d, IDLE.(sent := bytes, read := |bytes|, pc := Copying(bytes)));
    var s3 := With(START, d, IDLE.(sent := bytes, read := |bytes|, delivered := bytes));
    var none: seq<Event> := [];
    var e2 := [On(d, Write)] + none;
    var e1 := [On(d, Read(|bytes|))] + e2;
    assert [] + bytes == bytes && bytes[0..0 + |bytes|] == bytes;
    Ends(s3);
    Follow(s2, s3, On(d, Write), none);
    Follow(s1, s2, On(d, Read(|bytes|)), e2);
    Follow(START, s1, On(d, PeerSends(bytes)), e1);
    assert [On(d, PeerSends(bytes)), On(d, Read(|bytes|)), On(d, Write)] == [On(d, PeerSends(bytes))] + e1;
  }

  /** The client ends its request and the backend sees this, while its response is still under way. */
  function HalfClosed(): seq<Event> {
    [On(ToBackend, PeerEnds), On(ToBackend, ReadEnd), On(ToBackend, ShutRead), On(ToBackend, ShutWrite), On(ToBackend, Done)]
  }

  lemma Follow(s: State, s': State, e: Event, es: seq<Event>)
    requires Can(s, e) && Do(s, e) == s' && Runs(s', es)
    ensures Runs(s, [e] + es) && After(s, [e] + es) == After(s', es)
  {
    assert ([e] + es)[1..] == es;
  }

  lemma Ends(s: State)
    ensures Runs(s, []) && After(s, []) == s
  {}

  /** The client has ended its stream and the broker to the backend has seen it. */
  const END_SEEN := START.(toBackend := IDLE.(ended := true, pc := CloseReadNext))

  lemma EndArrives(es: seq<Event>)
    requires Runs(END_SEEN, es)
    ensures var all := [On(ToBackend, PeerEnds)] + ([On(ToBackend, ReadEnd)] + es);
            Runs(START, all) && After(START, all) == After(END_SEEN, es)
  {
    hide Runs, After;
    var s1 := START.(toBackend := IDLE.(ended := true));
    Follow(s1, END_SEEN, On(ToBackend, ReadEnd), es);
    Follow(START, s1, On(ToBackend, PeerEnds), [On(ToBackend, ReadEnd)] + es);
  }

  lemma OtherDirectionGoesOn()
    ensures Runs(START, HalfClosed())
    ensures var s := After(START, HalfClosed());
            s.toBackend.pc.Finished? && ToBackend in s.writeShut && s.toClient.pc.Copying? && s.main == Selecting && !AnyClosed(s)
  {
    hide Runs, After;
    var s1 := END_SEEN.(toBackend := END_SEEN.toBackend.(pc := CloseWriteNext), readShut := {ToBackend});
    var s2 := s1.(toBackend := s1.toBackend.(pc := DoneNext), writeShut := {ToBackend});
    var s3 := s2.(toBackend := s2.toBackend.(pc := Finished), waiting := 1);
    var none: seq<Event> := [];
    var e2 := [On(ToBackend, Done)] + none;
    var e1 := [On(ToBackend, ShutWrite)] + e2;
    var e0 := [On(ToBackend, ShutRead)] + e1;
    Ends(s3);
    Follow(s2, s3, On(ToBackend, Done), none);
    Follow(s1, s2, On(ToBackend, ShutWrite), e2);
    Follow(END_SEEN, s1, On(ToBackend, ShutRead), e1);
    EndArrives(e0);
    assert HalfClosed() == [On(ToBackend, PeerEnds)] + ([On(ToBackend, ReadEnd)] + e0);
  }

  /** Without a quit and without network faults, once the client loop has returned both streams were delivered whole. */
  lemma BothStreamsComplete(es: seq<Event>)
    requires Runs(START, es)
    requires After(START, es).main == Returned && !After(START, es).quitTaken && !After(START, es).faults
    ensures var s := After(START, es);
            && s.toClient.ended && s.toClient.delivered == s.toClient.sent
            && s.toBackend.ended && s.toBackend.delivered == s.toBackend.sent
  {
    InvHolds(START, es);
    var s := After(START, es);
    assert Remaining(s.toClient) == 0 && Remaining(s.toBackend) == 0;
  }

  // ---------------------------------------------------------------- liveness

  predicate FromOutside(e: Event) {
    e.Quit? || (e.On? && (e.step.PeerSends? || e.step.PeerEnds?))
  }

  /** The client loop has reason to leave its select: a quit, or both brokers have finished. */
  predicate Leaves(s: State) {
    s.main != Selecting || s.quit || (s.toClient.pc.Finished? && s.toBackend.pc.Finished?)
  }

  /** With reason to leave the client loop is never stuck: until it returns, some step of the proxy can happen, and none that waits
      for a peer or the network while the sockets are open. */
  lemma NeverStuck(s: State) returns (e: Event)
    requires Inv(s) && Leaves(s) && s.main != Returned
    ensures Can(s, e) && !FromOutside(e) && (e.On? ==> s.clientClosed && s.backendClosed)
  {
    hide FlowInv;
    if s.main == Selecting {
      e := if s.quit then TakeQuit else if s.finish then TakeFinish else WaitOver;
    } else if s.main == CloseClientNext {
      e := CloseClient;
    } else if s.main == CloseBackendNext {
      e := CloseBackend;
    } else if s.finish {
      e := Return;
    } else if s.waiting == 0 {
      e := WaitOver;
    } else {
      var d := if s.toClient.pc.Finished? then ToBackend else ToClient;
      var pc := FlowOf(s, d).pc;
      e := On(d, if pc.Copying? then CopyFails(0) else if pc.CloseReadNext? then ShutRead
                 else if pc.CloseWriteNext? then ShutWrite else Done);
    }
  }

  function FlowRank(f: Flow): int {
    2 * (|f.sent| - f.read) +
      match f.pc
      case Copying(buffer) => 4 + (if buffer == [] then 0 else 1) case CloseReadNext => 3 case CloseWriteNext => 2 case DoneNext => 1
      case Finished => 0
  }

  function MainRank(main: MainPc): nat {
    match main
    case Selecting => 4 case CloseClientNext => 3 case CloseBackendNext => 2 case AwaitingFinish => 1 case Returned => 0
  }

  /** What is left to do: bytes not yet read, brokers, the waiting goroutine and the client loop. */
  function Rank(s: State): int {
    FlowRank(s.toClient) + FlowRank(s.toBackend) + (if s.finish then 0 else 1) + MainRank(s.main)
  }

  lemma FlowWindsDown(f: Flow, e: FlowEvent, closed: bool)
    requires FlowInv(f) && FlowCan(f, e, closed) && !e.PeerSends? && !e.PeerEnds?
    ensures 0 <= FlowRank(FlowDo(f, e, closed)) < FlowRank(f)
  {
  }

  lemma BrokerWindsDown(s: State, d: Side, step: FlowEvent)
    requires Inv(s) && Can(s, On(d, step)) && !FromOutside(On(d, step))
    ensures Rank(Do(s, On(d, step))) < Rank(s)
  {
    FlowWindsDown(FlowOf(s, d), step, AnyClosed(s));
    hide FlowInv, FlowCan, FlowDo, FlowRank;
  }

  /** Each step of the proxy leaves less to do, so once the peers are silent it comes to rest; with NeverStuck, a client
      loop that has left its select returns. */
  lemma WindsDown(s: State, e: Event)
    requires Inv(s) && Can(s, e) && !FromOutside(e)
    ensures 0 <= Rank(s)
    ensures Rank(Do(s, e)) < Rank(s)
  {
    hide FlowCan, FlowDo;
    if e.On? {
      BrokerWindsDown(s, e.d, e.step);
    }
  }

  lemma InvAtStart()
    ensures Inv(START)
  {}

  /** A schedule after a quit, or in which both brokers have finished, and that only the outside world could continue, has returned
      from the client loop with both sockets closed and both brokers finished. */
  lemma ClientLoopReturns(es: seq<Event>)
    requires Runs(START, es) && Leaves(After(START, es))
    requires forall e :: Can(After(START, es), e) ==> FromOutside(e)
    ensures var s := After(START, es);
            s.main == Returned && s.clientClosed && s.backendClosed && s.toClient.pc.Finished? && s.toBackend.pc.Finished?
  {
    InvHolds(START, es);
    var s := After(START, es);
    if s.main != Returned {
      var e := NeverStuck(s);
      assert false;
    }
    assert Remaining(s.toClient) == 0 && Remaining(s.toBackend) == 0;
  }

  lemma GoesOnLeaving(s: State, e: Event)
    requires Inv(s) && Leaves(s) && Can(s, e) && !FromOutside(e) && (e.On? ==> s.clientClosed && s.backendClosed)
    ensures Leaves(Do(s, e)) && Do(s, e).faults == s.faults
  {
    hide FlowInv, FlowCan, FlowDo;
  }

  /** From then on the session can be brought to its end whatever the peers do, without any network fault. */
  lemma {:induction false} CanBeEnded(s: State) returns (es: seq<Event>)
    requires Inv(s) && Leaves(s)
    ensures Runs(s, es) && |es| <= Rank(s) && forall i :: 0 <= i < |es| ==> !FromOutside(es[i])
    ensures After(s, es).main == Returned && After(s, es).faults == s.faults
    decreases Rank(s)
  {
    hide Can, Do, Inv, Rank, Leaves;
    es := [];
    RankNonNegative(s);
    if s.main != Returned {
      var e := NeverStuck(s);
      WindsDown(s, e);
      InvKept(s, e);
      GoesOnLeaving(s, e);
      var rest := CanBeEnded(Do(s, e));
      Follow(s, Do(s, e), e, rest);
      es := [e] + rest;
    }
  }

  /** A quit ends any session: from whatever schedule, with whatever the peers have left undone. */
  lemma QuitEnds(before: seq<Event>) returns (es: seq<Event>)
    requires Runs(START, before) && !After(START, before).quit
    ensures Runs(After(START, before), [Quit] + es) && forall i :: 0 <= i < |es| ==> !FromOutside(es[i])
    ensures var s := After(After(START, before), [Quit] + es);
            s.main == Returned && s.clientClosed && s.backendClosed && s.faults == After(START, before).faults
  {
    InvHolds(START, before);
    var s := After(START, before);
    InvKept(s, Quit);
    var s' := Do(s, Quit);
    assert s'.quit && s'.faults == s.faults;
    es := CanBeEnded(s');
    Follow(s, s', Quit, es);
    hide Do, Can;
    InvHolds(s', es);
  }

  /** While the peers are silent no schedule of the proxy is longer than the rank of the state it starts from. */
  lemma {:induction false} SchedulesAreBounded(s: State, es: seq<Event>)
    requires Inv(s) && Runs(s, es) && forall i :: 0 <= i < |es| ==> !FromOutside(es[i])
    ensures |es| <= Rank(s)
    decreases |es|
  {
    hide Can, Do, Inv, Rank;
    if es == [] {
      RankNonNegative(s);
    } else {
      WindsDown(s, es[0]);
      InvKept(s, es[0]);
      SchedulesAreBounded(Do(s, es[0]), es[1..]);
    }
  }

  lemma RankNonNegative(s: State)
    requires Inv(s)
    ensures 0 <= Rank(s)
  {}
}
