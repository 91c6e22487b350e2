/** After a 101 response: two copier goroutines, the handler that waits for them on an error channel, and the goroutine
    that closes the backend connection.  `cap` is the capacity of the channel; the source makes it with capacity 1. */
module UpgradeCopiers {

  datatype Direction = ToBackend | FromBackend

  datatype CopierPc = Copying | CloseReadNext | CloseWriteNext | SendNext | Finished

  /** `failed` is whether the copy ended with an error; the halves are those of the connections it copies from and to. */
  datatype Copier = Copier(pc: CopierPc, failed: bool, readShut: bool, writeShut: bool)

  /** The handler receives once, or twice when the first result is nil; then its deferred calls close the user
      connection and tell the closing goroutine to go ahead. */
  datatype HandlerPc = FirstReceive | SecondReceive | Report | CloseUserNext | SignalNext | Returned

  datatype CloserPc = Waiting | CloseNext | Done

  datatype State = State(toBackend: Copier, fromBackend: Copier, channel: seq<bool>, handler: HandlerPc, failed: bool,
                         signalled: bool, cancelled: bool, closer: CloserPc, userClosed: bool, backendClosed: bool)

  const FRESH := Copier(Copying, false, false, false)
  const START := State(FRESH, FRESH, [], FirstReceive, false, false, false, Waiting, false, false)

  function Of(s: State, d: Direction): Copier {
    if d == ToBackend then s.toBackend else s.fromBackend
  }

  function With(s: State, d: Direction, c: Copier): State {
    if d == ToBackend then s.(toBackend := c) else s.(fromBackend := c)
  }

  function Other(d: Direction): Direction { if d == ToBackend then FromBackend else ToBackend }

  datatype Event =
    | CopyEnds(d: Direction, failed: bool)      // end of stream, or a network error
    | CopyAborts(d: Direction)                  // the connection it reads from was closed
    | CloseRead(d: Direction) | CloseWrite(d: Direction)
    | Send(d: Direction) | HandOver(d: Direction)
    | Receive | ReportError | CloseUser | Signal
    | Cancel | Wake | CloseBackend

  predicate Receiving(s: State) { s.handler == FirstReceive || s.handler == SecondReceive }

  predicate SourceClosed(s: State, d: Direction) {
    if d == ToBackend then s.userClosed else s.backendClosed
  }

  /** A send needs room in the channel; with capacity 0 it needs a receiver that is waiting. */
  predicate Can(s: State, e: Event, cap: nat) {
    match e
    case CopyEnds(d, _) => Of(s, d).pc == Copying
    case CopyAborts(d) => Of(s, d).pc == Copying && SourceClosed(s, d)
    case CloseRead(d) => Of(s, d).pc == CloseReadNext
    case CloseWrite(d) => Of(s, d).pc == CloseWriteNext
    case Send(d) => Of(s, d).pc == SendNext && |s.channel| < cap
    case HandOver(d) => Of(s, d).pc == SendNext && cap == 0 && Receiving(s)
    case Receive => Receiving(s) && s.channel != []
    case ReportError => s.handler == Report
    case CloseUser => s.handler == CloseUserNext
    case Signal => s.handler == SignalNext
    case Cancel => !s.cancelled
    case Wake => s.closer == Waiting && (s.signalled || s.cancelled)
    case CloseBackend => s.closer == CloseNext
  }

  function Received(s: State, failed: bool): State
    requires Receiving(s)
  {
    if failed then s.(handler := Report, failed := true)
    else s.(handler := if s.handler == FirstReceive then SecondReceive else CloseUserNext)
  }

  /** The steps of a copier. */
  predicate Moves(e: Event) {
    e.CopyEnds? || e.CopyAborts? || e.CloseRead? || e.CloseWrite? || e.Send? || e.HandOver?
  }

  function Advance(c: Copier, e: Event): Copier {
    match e
    case CopyEnds(_, failed) => c.(pc := CloseReadNext, failed := failed)
    case CopyAborts(_) => c.(pc := CloseReadNext, failed := true)
    case CloseRead(_) => c.(pc := CloseWriteNext, readShut := true)
    case CloseWrite(_) => c.(pc := SendNext, writeShut := true)
    case _ => c.(pc := Finished)
  }

  function Moved(s: State, e: Event): State {
    if Moves(e) then With(s, e.d, Advance(Of(s, e.d), e)) else s
  }

  function Do(s: State, e: Event, cap: nat): State
    requires Can(s, e, cap)
  {
    var m := Moved(s, e);
    match e
    case Send(d) => m.(channel := s.channel + [Of(s, d).failed])
    case HandOver(d) => Received(m, Of(s, d).failed)
    case Receive => Received(s, s.channel[0]).(channel := s.channel[1..])
    case ReportError => s.(handler := CloseUserNext)
    case CloseUser => s.(handler := SignalNext, userClosed := true)
    case Signal => s.(handler := Returned, signalled := true)
    case Cancel => s.(cancelled := true)
    case Wake => s.(closer := CloseNext)
    case CloseBackend => s.(closer := Done, backendClosed := true)
    case _ => m
  }

  predicate Runs(s: State, es: seq<Event>, cap: nat)
    decreases |es|
  {
    es == [] || (Can(s, es[0], cap) && Runs(Do(s, es[0], cap), es[1..], cap))
  }

  function After(s: State, es: seq<Event>, cap: nat): State
    requires Runs(s, es, cap)
    decreases |es|
  {
    if es == [] then s else After(Do(s, es[0], cap), es[1..], cap)
  }

  // ---------------------------------------------------------------- invariant

  function Unsent(c: Copier): nat { if c.pc == Finished then 0 else 1 }

  /** How many results the handler has taken, given that it stops at the first error. */
  predicate Taken(s: State, n: nat) {
    match s.handler
    case FirstReceive => n == 0
    case SecondReceive => n == 1
    case _ => if s.failed then n == 1 || n == 2 else n == 2
  }

  /** An error still in the channel belongs to a copier that has finished. */
  ghost predicate Inv(s: State) {
    && Unsent(s.toBackend) + Unsent(s.fromBackend) + |s.channel| <= 2
    && Taken(s, 2 - Unsent(s.toBackend) - Unsent(s.fromBackend) - |s.channel|)
    && (!s.failed && s.toBackend.pc == Finished && s.toBackend.failed ==> true in s.channel)
    && (!s.failed && s.fromBackend.pc == Finished && s.fromBackend.failed ==> true in s.channel)
    && (Receiving(s) ==> !s.failed) && (s.handler == Report ==> s.failed)
    && (s.userClosed <==> s.handler == SignalNext || s.handler == Returned)
    && (s.signalled <==> s.handler == Returned)
    && (s.backendClosed <==> s.closer == Done)
  }

  predicate OfCopier(e: Event) {
    e.CopyEnds? || e.CopyAborts? || e.CloseRead? || e.CloseWrite? || e.Send?
  }

  lemma CopierKeepsInv(s: State, e: Event, cap: nat)
    requires Inv(s) && Can(s, e, cap) && OfCopier(e)
    ensures Inv(Do(s, e, cap))
  {
    if e.Send? {
      assert (s.channel + [Of(s, e.d).failed])[|s.channel|] == Of(s, e.d).failed;
    }
  }

  predicate TakesResult(e: Event) { e.Receive? || e.HandOver? }

  lemma ReceiverKeepsInv(s: State, e: Event, cap: nat)
    requires Inv(s) && Can(s, e, cap) && TakesResult(e)
    ensures Inv(Do(s, e, cap))
  {
    if e.Receive? {
      assert s.channel == [s.channel[0]] + s.channel[1..];
    }
  }

  lemma HandlerKeepsInv(s: State, e: Event, cap: nat)
    requires Inv(s) && Can(s, e, cap) && !OfCopier(e) && !TakesResult(e)
    ensures Inv(Do(s, e, cap))
  {}

  lemma InvKept(s: State, e: Event, cap: nat)
    requires Inv(s) && Can(s, e, cap)
    ensures Inv(Do(s, e, cap))
  {
    hide Inv, Do;
    if OfCopier(e) {
      CopierKeepsInv(s, e, cap);
    } else if TakesResult(e) {
      ReceiverKeepsInv(s, e, cap);
    } else {
      HandlerKeepsInv(s, e, cap);
    }
  }

  lemma {:induction false} InvHolds(s: State, es: seq<Event>, cap: nat)
    requires Inv(s) && Runs(s, es, cap)
    ensures Inv(After(s, es, cap))
    decreases |es|
  {
    hide Inv, Do;
    if es != [] {
      InvKept(s, es[0], cap);
      InvHolds(Do(s, es[0], cap), es[1..], cap);
    }
  }

  // ---------------------------------------------------------------- halves and failures

  /** A copier has shut exactly the halves it is past. */
  predicate HalvesRight(c: Copier) {
    && (c.readShut <==> c.pc != Copying && c.pc != CloseReadNext)
    && (c.writeShut <==> c.pc == SendNext || c.pc == Finished)
  }

  predicate BothRight(s: State) { HalvesRight(s.toBackend) && HalvesRight(s.fromBackend) }

  lemma StepLeavesOther(s: State, e: Event, cap: nat)
    requires Can(s, e, cap) && Moves(e)
    ensures var s' := Do(s, e, cap);
            s'.toBackend == Moved(s, e).toBackend && s'.fromBackend == Moved(s, e).fromBackend
  {
    hide Can, Moved, Of;
  }

  lemma HandlerLeavesCopiers(s: State, e: Event, cap: nat)
    requires Can(s, e, cap) && !Moves(e)
    ensures var s' := Do(s, e, cap);
            s'.toBackend == s.toBackend && s'.fromBackend == s.fromBackend
  {
    hide Can, With, Of, Advance;
  }

  /** An event changes at most the copier whose step it is. */
  lemma CopiersAfter(s: State, e: Event, cap: nat)
    requires Can(s, e, cap)
    ensures var s' := Do(s, e, cap);
            s'.toBackend == Moved(s, e).toBackend && s'.fromBackend == Moved(s, e).fromBackend
  {
    hide Can, Do, With, Of, Advance;
    if Moves(e) { StepLeavesOther(s, e, cap); } else { HandlerLeavesCopiers(s, e, cap); }
  }

  lemma AdvanceKeepsHalves(s: State, e: Event, cap: nat)
    requires BothRight(s) && Can(s, e, cap)
    ensures BothRight(Moved(s, e))
  {
    hide SourceClosed;
  }

  lemma HalvesKept(s: State, e: Event, cap: nat)
    requires BothRight(s) && Can(s, e, cap)
    ensures BothRight(Do(s, e, cap))
  {
    hide Do, Can, Moved, HalvesRight;
    CopiersAfter(s, e, cap);
    AdvanceKeepsHalves(s, e, cap);
  }

  /** A copier has finished with an error. */
  predicate SomeFailed(s: State) {
    (s.toBackend.pc == Finished && s.toBackend.failed) || (s.fromBackend.pc == Finished && s.fromBackend.failed)
  }

  /** Every error the handler has taken, or will find in the channel, comes from a copier. */
  ghost predicate FailureRight(s: State) {
    s.failed || true in s.channel ==> SomeFailed(s)
  }

  /** Errors come to the handler and into the channel from copiers only. */
  lemma ErrorsAfter(s: State, e: Event, cap: nat)
    requires Can(s, e, cap)
    ensures var s' := Do(s, e, cap);
            s'.failed || true in s'.channel ==>
              s.failed || true in s.channel || ((e.Send? || e.HandOver?) && Of(s, e.d).pc == SendNext && Of(s, e.d).failed)
  {
    hide Of, SourceClosed, Advance;
    if e.Receive? { assert s.channel == [s.channel[0]] + s.channel[1..]; }
  }

  /** A copier that has finished with an error stays so, and one that sends one has then finished with it. */
  lemma FailuresStay(s: State, e: Event, cap: nat)
    requires Can(s, e, cap)
    ensures SomeFailed(s) || ((e.Send? || e.HandOver?) && Of(s, e.d).failed) ==> SomeFailed(Moved(s, e))
  {
    hide SourceClosed;
  }

  lemma FailureKept(s: State, e: Event, cap: nat)
    requires FailureRight(s) && Can(s, e, cap)
    ensures FailureRight(Do(s, e, cap))
  {
    hide Do, Can, Of, Moved;
    ErrorsAfter(s, e, cap);
    FailuresStay(s, e, cap);
    CopiersAfter(s, e, cap);
  }

  lemma {:induction false} RightsHold(s: State, es: seq<Event>, cap: nat)
    requires BothRight(s) && FailureRight(s) && Runs(s, es, cap)
    ensures BothRight(After(s, es, cap)) && FailureRight(After(s, es, cap))
    decreases |es|
  {
    hide BothRight, FailureRight, Do;
    if es != [] {
      HalvesKept(s, es[0], cap);
      FailureKept(s, es[0], cap);
      RightsHold(Do(s, es[0], cap), es[1..], cap);
    }
  }

  /** In every schedule a copier has shut exactly the halves it is past: the read half it used, then the write half, each before
      it hands over its result. */
  lemma HalvesShutExactly(es: seq<Event>, cap: nat, d: Direction)
    requires Runs(START, es, cap)
    ensures var c := Of(After(START, es, cap), d);
            && (c.readShut <==> c.pc != Copying && c.pc != CloseReadNext)
            && (c.writeShut <==> c.pc == SendNext || c.pc == Finished)
  {
    RightsHold(START, es, cap);
  }

  /** The handler that has stopped receiving knows of an error if and only if a finished copier ended with one. */
  lemma FailsExactly(es: seq<Event>, cap: nat)
    requires Runs(START, es, cap) && !Receiving(After(START, es, cap))
    ensures After(START, es, cap).failed <==> SomeFailed(After(START, es, cap))
  {
    RightsHold(START, es, cap);
    InvHolds(START, es, cap);
  }

  /** A copier that will never get rid of its result: the channel is full and nobody receives any more. */
  predicate BlockedForever(s: State, d: Direction, cap: nat) {
    Of(s, d).pc == SendNext && |s.channel| >= cap && !Receiving(s)
  }

  /** With room for one result no copier is ever blocked forever. */
  lemma NeitherCopierBlocks(es: seq<Event>, cap: nat, d: Direction)
    requires cap >= 1 && Runs(START, es, cap)
    ensures !BlockedForever(After(START, es, cap), d, cap)
  {
    InvHolds(START, es, cap);
  }

  /** With an unbuffered channel a first error strands the other copier. */
  function Stranding(): seq<Event> {
    [CopyEnds(ToBackend, true), CloseRead(ToBackend), CloseWrite(ToBackend), HandOver(ToBackend),
     CopyEnds(FromBackend, false), CloseRead(FromBackend), CloseWrite(FromBackend)]
  }

  lemma Follow(s: State, s': State, e: Event, es: seq<Event>, cap: nat)
    requires Can(s, e, cap) && Do(s, e, cap) == s' && Runs(s', es, cap)
    ensures Runs(s, [e] + es, cap) && After(s, [e] + es, cap) == After(s', es, cap)
  {
    assert ([e] + es)[1..] == es;
  }

  lemma UnbufferedStrands()
    ensures Runs(START, Stranding(), 0) && BlockedForever(After(START, Stranding(), 0), FromBackend, 0)
  {
    var s1 := START.(toBackend := Copier(CloseReadNext, true, false, false));
    var s2 := s1.(toBackend := Copier(CloseWriteNext, true, true, false));
    var s3 := s2.(toBackend := Copier(SendNext, true, true, true));
    var s4 := s3.(toBackend := Copier(Finished, true, true, true), handler := Report, failed := true);
    var s5 := s4.(fromBackend := Copier(CloseReadNext, false, false, false));
    var s6 := s5.(fromBackend := Copier(CloseWriteNext, false, true, false));
    var s7 := s6.(fromBackend := Copier(SendNext, false, true, true));
    var e6: seq<Event> := [];
    var e5 := [CloseWrite(FromBackend)] + e6;
    var e4 := [CloseRead(FromBackend)] + e5;
    var e3 := [CopyEnds(FromBackend, false)] + e4;
    var e2 := [HandOver(ToBackend)] + e3;
    var e1 := [CloseWrite(ToBackend)] + e2;
    var e0 := [CloseRead(ToBackend)] + e1;
    Follow(s6, s7, CloseWrite(FromBackend), e6, 0);
    Follow(s5, s6, CloseRead(FromBackend), e5, 0);
    Follow(s4, s5, CopyEnds(FromBackend, false), e4, 0);
    Follow(s3, s4, HandOver(ToBackend), e3, 0);
    Follow(s2, s3, CloseWrite(ToBackend), e2, 0);
    Follow(s1, s2, CloseRead(ToBackend), e1, 0);
    Follow(START, s1, CopyEnds(ToBackend, true), e0, 0);
    assert Stranding() == [CopyEnds(ToBackend, true)] + e0;
  }

  /** No copier is blocked forever at the end of this schedule. */
  predicate Safe(es: seq<Event>, d: Direction, cap: nat) {
    Runs(START, es, cap) ==> !BlockedForever(After(START, es, cap), d, cap)
  }

  /** A capacity of one is just what is needed: copiers are never blocked forever, in any schedule, exactly when the channel
      has capacity at least one. */
  lemma CapacityNeededExactly(cap: nat)
    ensures (forall es, d :: Safe(es, d, cap)) <==> cap >= 1
  {
    hide Runs, After, BlockedForever;
    if cap >= 1 {
      forall es, d ensures Safe(es, d, cap) {
        if Runs(START, es, cap) {
          NeitherCopierBlocks(es, cap, d);
        }
      }
    } else {
      UnbufferedStrands();
      assert !Safe(Stranding(), FromBackend, cap);
    }
  }

  /** The handler leaves without an error only after both directions have ended without one. */
  lemma CleanOnlyAfterBoth(es: seq<Event>, cap: nat)
    requires Runs(START, es, cap)
    ensures var s := After(START, es, cap);
            !Receiving(s) && !s.failed ==>
              && s.toBackend.pc == Finished && !s.toBackend.failed
              && s.fromBackend.pc == Finished && !s.fromBackend.failed
  {
    InvHolds(START, es, cap);
  }

  // ---------------------------------------------------------------- termination after an error

  ghost predicate Settled(s: State) {
    s.toBackend.pc == Finished && s.fromBackend.pc == Finished && s.handler == Returned && s.closer == Done
  }

  predicate FromOutside(e: Event) { e.CopyEnds? || e.Cancel? }

  /** The session is over: the handler has stopped receiving, or neither copier is copying any more. */
  predicate Over(s: State) {
    !Receiving(s) || (s.toBackend.pc != Copying && s.fromBackend.pc != Copying)
  }

  /** Once the session is over, some step of the program can happen until everything has ended: both connections get closed, and
      with them the other copier ends. */
  lemma NeverStuck(s: State, cap: nat) returns (e: Event)
    requires cap >= 1 && Inv(s) && Over(s) && !Settled(s)
    ensures Can(s, e, cap) && !FromOutside(e)
  {
    if Receiving(s) && s.channel != [] {
      e := Receive;
    } else if s.handler == Report {
      e := ReportError;
    } else if s.handler == CloseUserNext {
      e := CloseUser;
    } else if s.handler == SignalNext {
      e := Signal;
    } else if s.closer == Waiting && !Receiving(s) {
      e := Wake;
    } else if s.closer == CloseNext {
      e := CloseBackend;
    } else {
      var d := if s.toBackend.pc == Finished then FromBackend else ToBackend;
      var pc := Of(s, d).pc;
      e := if pc == Copying then CopyAborts(d) else if pc == CloseReadNext then CloseRead(d)
           else if pc == CloseWriteNext then CloseWrite(d) else Send(d);
    }
  }

  function CopierRank(c: Copier): nat {
    match c.pc case Copying => 6 case CloseReadNext => 5 case CloseWriteNext => 4 case SendNext => 3 case Finished => 0
  }

  function HandlerRank(pc: HandlerPc): nat {
    match pc
    case FirstReceive => 5 case SecondReceive => 4 case Report => 3 case CloseUserNext => 2 case SignalNext => 1 case Returned => 0
  }

  function CloserRank(pc: CloserPc): nat {
    match pc case Waiting => 2 case CloseNext => 1 case Done => 0
  }

  function Rank(s: State): nat {
    CopierRank(s.toBackend) + CopierRank(s.fromBackend) + |s.channel| + HandlerRank(s.handler) + CloserRank(s.closer)
      + (if s.cancelled then 0 else 1)
  }

  /** A copier's step changes only that copier and, when it sends, the channel. */
  lemma CopierStep(s: State, e: Event, cap: nat)
    requires Can(s, e, cap) && OfCopier(e)
    ensures var s' := Do(s, e, cap);
            && Of(s', Other(e.d)) == Of(s, Other(e.d))
            && s'.handler == s.handler && s'.closer == s.closer && s'.cancelled == s.cancelled
  {
    hide Do, Can;
    CopiersAfter(s, e, cap);
    CopierLeavesHandler(s, e, cap);
  }

  lemma CopierLeavesHandler(s: State, e: Event, cap: nat)
    requires Can(s, e, cap) && OfCopier(e)
    ensures var s' := Do(s, e, cap);
            s'.handler == s.handler && s'.closer == s.closer && s'.cancelled == s.cancelled
  {
    hide Can, Received, Of, Advance;
  }

  function NextPc(pc: CopierPc): CopierPc {
    match pc
    case Copying => CloseReadNext
    case CloseReadNext => CloseWriteNext
    case CloseWriteNext => SendNext
    case _ => Finished
  }

  lemma CopierGetsOn(s: State, e: Event, cap: nat)
    requires Can(s, e, cap) && OfCopier(e)
    ensures var c, s' := Of(s, e.d), Do(s, e, cap);
            && c.pc != Finished && Of(s', e.d).pc == NextPc(c.pc)
            && |s'.channel| == |s.channel| + (if c.pc == SendNext then 1 else 0)
  {
    hide Received, SourceClosed;
  }

  lemma CopierWindsDown(s: State, e: Event, cap: nat)
    requires Can(s, e, cap) && OfCopier(e)
    ensures Rank(Do(s, e, cap)) < Rank(s)
  {
    hide Do, Can, HandlerRank, CloserRank;
    CopierStep(s, e, cap);
    CopierGetsOn(s, e, cap);
  }

  lemma HandOverWindsDown(s: State, d: Direction, cap: nat)
    requires Can(s, HandOver(d), cap)
    ensures Rank(Do(s, HandOver(d), cap)) < Rank(s)
  {
    hide CloserRank;
  }

  lemma HandlerWindsDown(s: State, e: Event, cap: nat)
    requires Can(s, e, cap) && !OfCopier(e) && !e.HandOver?
    ensures Rank(Do(s, e, cap)) < Rank(s)
  {
    hide CopierRank;
  }

  /** Every step leaves less to do, so each schedule ends, and after an error it ends with everything closed. */
  lemma WindsDown(s: State, e: Event, cap: nat)
    requires Inv(s) && Can(s, e, cap)
    ensures Rank(Do(s, e, cap)) < Rank(s)
  {
    hide Inv, Do, Rank;
    if OfCopier(e) {
      CopierWindsDown(s, e, cap);
    } else if e.HandOver? {
      HandOverWindsDown(s, e.d, cap);
    } else {
      HandlerWindsDown(s, e, cap);
    }
  }

  /** A schedule that cannot be continued without the outside world, after an error was received or both directions have ended, has
      closed both connections and ended both copiers. */
  lemma EndClosesBoth(es: seq<Event>, cap: nat)
    requires cap >= 1 && Runs(START, es, cap)
    requires After(START, es, cap).failed || Over(After(START, es, cap))
    requires forall e :: Can(After(START, es, cap), e, cap) ==> FromOutside(e)
    ensures var s := After(START, es, cap);
            s.userClosed && s.backendClosed && s.toBackend.pc == Finished && s.fromBackend.pc == Finished
  {
    InvHolds(START, es, cap);
    var s := After(START, es, cap);
    if !Settled(s) {
      var e := NeverStuck(s, cap);
      assert false;
    }
  }

  /** Once the client has gone, some step of the program can happen until the backend connection is closed and the copier that reads
      from it has ended. */
  lemma BackendGetsOn(s: State, cap: nat) returns (e: Event)
    requires cap >= 1 && Inv(s) && s.cancelled
    requires !s.backendClosed || s.fromBackend.pc != Finished
    ensures Can(s, e, cap) && !FromOutside(e)
  {
    if s.closer == Waiting {
      e := Wake;
    } else if s.closer == CloseNext {
      e := CloseBackend;
    } else {
      match s.fromBackend.pc
      case Copying => e := CopyAborts(FromBackend);
      case CloseReadNext => e := CloseRead(FromBackend);
      case CloseWriteNext => e := CloseWrite(FromBackend);
      case _ => e := if Receiving(s) && s.channel != [] then Receive else Send(FromBackend);
    }
  }

  /** When the client has gone, a schedule that cannot be continued without the outside world has closed the backend connection, and
      the copier that reads from it has ended. */
  lemma CancelClosesBackend(es: seq<Event>, cap: nat)
    requires cap >= 1 && Runs(START, es, cap) && After(START, es, cap).cancelled
    requires forall e :: Can(After(START, es, cap), e, cap) ==> FromOutside(e)
    ensures var s := After(START, es, cap);
            s.backendClosed && s.fromBackend.pc == Finished
  {
    InvHolds(START, es, cap);
    var s := After(START, es, cap);
    if !s.backendClosed || s.fromBackend.pc != Finished {
      var e := BackendGetsOn(s, cap);
      assert false;
    }
  }
}
