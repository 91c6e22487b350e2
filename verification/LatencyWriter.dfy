/** The latency-bounded flush writer: a destination that buffers, a flag, and a timer whose function runs in a goroutine of its
    own.  Times are in any unit; data is represented by the time it was written. */
module LatencyWriter {

  datatype Timer = NoTimer | Idle | Armed(at: int)

  datatype Flushed = Flushed(written: int, at: int)

  /** The writer's fields, with what its destination has buffered and flushed. */
  datatype Writer = Writer(latency: int, t: Timer, flushPending: bool, buffered: seq<int>, flushed: seq<Flushed>)

  /** A timer with a negative duration fires at once. */
  function Due(now: int, latency: int): int {
    if latency < 0 then now else now + latency
  }

  function Stamp(buffered: seq<int>, now: int): (fs: seq<Flushed>)
    ensures |fs| == |buffered| && forall i :: 0 <= i < |fs| ==> fs[i] == Flushed(buffered[i], now)
  {
    seq(|buffered|, i requires 0 <= i < |buffered| => Flushed(buffered[i], now))
  }

  function FlushAll(w: Writer, now: int): Writer {
    w.(buffered := [], flushed := w.flushed + Stamp(w.buffered, now))
  }

  function WriteOn(w: Writer, now: int): Writer {
    var w' := w.(buffered := w.buffered + [now]);
    if w.latency < 0 then FlushAll(w', now)
    else if w.flushPending then w'
    else w'.(t := Armed(Due(now, w.latency)), flushPending := true)
  }

  function DelayedFlushOn(w: Writer, now: int): Writer {
    if !w.flushPending then w else FlushAll(w, now).(flushPending := false)
  }

  function StopOn(w: Writer): Writer {
    w.(flushPending := false, t := if w.t == NoTimer then NoTimer else Idle)
  }

  class MaxLatencyWriter {
    const latency: int
    var t: Timer
    var flushPending: bool
    var buffered: seq<int>
    var flushed: seq<Flushed>

    function Model(): Writer
      reads this
    {
      Writer(latency, t, flushPending, buffered, flushed)
    }

    /** As copyResponse sets it up: a first timer is running so that headers get flushed. */
    constructor (latency: int, now: int)
      ensures Model() == Writer(latency, Armed(Due(now, latency)), true, [], [])
    {
      this.latency := latency;
      t, flushPending, buffered, flushed := Armed(Due(now, latency)), true, [], [];
    }

    method Flush(now: int)
      modifies this`buffered, this`flushed
      ensures Model() == FlushAll(old(Model()), now)
    {
      flushed := flushed + Stamp(buffered, now);
      buffered := [];
    }

    /** All that was ever written, in order: what was flushed and what waits in the buffer. */
    function Written(): seq<int>
      reads this
    {
      WrittenAt(flushed) + buffered
    }

    /** Whatever waits has a flush coming, and an armed timer fires in time for it. */
    predicate Promised()
      reads this
    {
      buffered == [] ||
      (latency >= 0 && flushPending && (t.Armed? ==> forall i :: 0 <= i < |buffered| ==> t.at <= Due(buffered[i], latency)))
    }

    /** Nothing is lost, and what waits goes on having a flush coming in time; with a negative latency nothing waits. */
    method Write(now: int)
      modifies this
      ensures Model() == WriteOn(old(Model()), now)
      ensures Written() == old(Written()) + [now]
      ensures latency < 0 ==> buffered == []
      ensures old(Promised()) && (old(t.Armed?) ==> old(t.at) <= Due(now, latency)) ==> Promised()
    {
      buffered := buffered + [now];
      assert Written() == old(Written()) + [now];
      if latency < 0 {
        Flush(now);
        assert Written() == old(Written()) + [now];
        return;
      }
      if flushPending {
        return;
      }
      t := Armed(Due(now, latency));
      flushPending := true;
    }

    /** A pending flush empties the buffer; one that was withdrawn by `Stop` does nothing. */
    method DelayedFlush(now: int)
      modifies this
      ensures Model() == DelayedFlushOn(old(Model()), now)
      ensures Written() == old(Written()) && !flushPending
      ensures if old(flushPending) then buffered == [] else flushed == old(flushed)
      ensures old(Promised()) ==> buffered == []
    {
      if !flushPending {
        return;
      }
      Flush(now);
      assert Written() == old(Written());
      flushPending := false;
    }

    /** Nothing is flushed, and from now on neither the timer nor a goroutine it has started flushes. */
    method Stop()
      modifies this
      ensures Model() == StopOn(old(Model()))
      ensures Written() == old(Written()) && flushed == old(flushed)
      ensures !t.Armed? && forall now :: DelayedFlushOn(Model(), now) == Model()
    {
      flushPending := false;
      if t != NoTimer {
        t := Idle;
      }
    }
  }

  // ---------------------------------------------------------------- the writer in time

  /** `started` holds the start times of flush goroutines that have not got the lock yet, `writes` the times of all writes. */
  datatype System = System(w: Writer, now: int, started: seq<int>, stopped: bool, writes: seq<int>)

  datatype Event = Write | Tick(d: nat) | Fire | RunFlush(i: nat) | Stop

  /** Timers fire punctually, and a started goroutine gets the lock within `slack`; with slack 0 firing is atomic. */
  predicate Can(s: System, e: Event, slack: nat) {
    match e
    case Write => !s.stopped
    case Tick(d) =>
      && (s.w.t.Armed? ==> s.now + d <= s.w.t.at)
      && (forall i :: 0 <= i < |s.started| ==> s.now + d <= s.started[i] + slack)
    case Fire => s.w.t.Armed? && s.w.t.at <= s.now
    case RunFlush(i) => i < |s.started|
    case Stop => !s.stopped
  }

  function Do(s: System, e: Event, slack: nat): System
    requires Can(s, e, slack)
  {
    match e
    case Write => s.(w := WriteOn(s.w, s.now), writes := s.writes + [s.now])
    case Tick(d) => s.(now := s.now + d)
    case Fire => s.(w := s.w.(t := Idle), started := s.started + [s.now])
    case RunFlush(i) => s.(w := DelayedFlushOn(s.w, s.now), started := s.started[..i] + s.started[i + 1..])
    case Stop => s.(w := StopOn(s.w), stopped := true)
  }

  predicate Runs(s: System, es: seq<Event>, slack: nat)
    decreases |es|
  {
    es == [] || (Can(s, es[0], slack) && Runs(Do(s, es[0], slack), es[1..], slack))
  }

  function After(s: System, es: seq<Event>, slack: nat): System
    requires Runs(s, es, slack)
    decreases |es|
  {
    if es == [] then s else After(Do(s, es[0], slack), es[1..], slack)
  }

  /** The writer as copyResponse makes it. */
  function Start(latency: int, now: int): System {
    System(Writer(latency, Armed(Due(now, latency)), true, [], []), now, [], false, [])
  }

  // ---------------------------------------------------------------- invariant

  function Outstanding(s: System): nat {
    |s.started| + if s.w.t.Armed? then 1 else 0
  }

  /** When the outstanding flush was or will be started. */
  function FlushStart(s: System): int
    requires Outstanding(s) == 1
  {
    if s.w.t.Armed? then s.w.t.at else s.started[0]
  }

  ghost predicate TimersRight(s: System, slack: nat) {
    && Outstanding(s) <= 1
    && (!s.stopped ==> (s.w.flushPending <==> Outstanding(s) == 1))
    && (s.stopped ==> !s.w.flushPending && !s.w.t.Armed?)
    && (s.w.t.Armed? ==> s.now <= s.w.t.at <= Due(s.now, s.w.latency))
    && (forall i :: 0 <= i < |s.started| ==> s.started[i] <= s.now <= s.started[i] + slack)
  }

  ghost predicate InTime(s: System, slack: nat) {
    && (s.w.latency < 0 ==> s.w.buffered == [])
    && (!s.stopped && s.w.buffered != [] ==> s.w.flushPending)
    && (forall i :: 0 <= i < |s.w.buffered| ==> s.w.buffered[i] <= s.now)
    && (!s.stopped && Outstanding(s) == 1 ==>
          forall i :: 0 <= i < |s.w.buffered| ==> FlushStart(s) <= Due(s.w.buffered[i], s.w.latency))
    && (forall i :: 0 <= i < |s.w.flushed| ==>
          s.w.flushed[i].written <= s.w.flushed[i].at <= Due(s.w.flushed[i].written, s.w.latency) + slack)
  }

  function WrittenAt(fs: seq<Flushed>): (ts: seq<int>)
    ensures |ts| == |fs| && forall i :: 0 <= i < |fs| ==> ts[i] == fs[i].written
  {
    seq(|fs|, i requires 0 <= i < |fs| => fs[i].written)
  }

  /** Nothing is lost, repeated or reordered: what was flushed, followed by what is buffered, is what was written. */
  ghost predicate Conserved(s: System) {
    s.writes == WrittenAt(s.w.flushed) + s.w.buffered
  }

  ghost predicate Inv(s: System, slack: nat) {
    TimersRight(s, slack) && InTime(s, slack) && Conserved(s)
  }

  lemma ConservedKept(s: System, e: Event, slack: nat)
    requires Conserved(s) && Can(s, e, slack)
    ensures Conserved(Do(s, e, slack))
  {
    var s' := Do(s, e, slack);
    assert WrittenAt(s'.w.flushed) + s'.w.buffered == WrittenAt(s.w.flushed) + s.w.buffered + (if e.Write? then [s.now] else []);
  }

  lemma InvKept(s: System, e: Event, slack: nat)
    requires Inv(s, slack) && Can(s, e, slack)
    ensures Inv(Do(s, e, slack), slack) && Do(s, e, slack).w.latency == s.w.latency
  {
    ConservedKept(s, e, slack);
    match e
    case Write =>
      assert forall i :: 0 <= i < |s.w.buffered| ==> (s.w.buffered + [s.now])[i] == s.w.buffered[i];
    case _ =>
  }

  lemma {:induction false} InvHolds(s: System, es: seq<Event>, slack: nat)
    requires Inv(s, slack) && Runs(s, es, slack)
    ensures Inv(After(s, es, slack), slack) && After(s, es, slack).w.latency == s.w.latency
    decreases |es|
  {
    hide Inv, Do;
    if es != [] {
      InvKept(s, es[0], slack);
      InvHolds(Do(s, es[0], slack), es[1..], slack);
    }
  }

  /** In every schedule at most one flush is outstanding, and data that is not flushed yet has one coming. */
  lemma OneTimerOutstanding(latency: int, t0: int, es: seq<Event>, slack: nat)
    requires Runs(Start(latency, t0), es, slack)
    ensures var s := After(Start(latency, t0), es, slack);
            Outstanding(s) <= 1 && (!s.stopped && s.w.buffered != [] ==> s.w.flushPending && Outstanding(s) == 1)
  {
    InvHolds(Start(latency, t0), es, slack);
  }

  /** Bounded delay: whatever was flushed was flushed no later than `latency` after it was written, give or take the time a
      goroutine takes to get the lock; with a negative latency nothing is ever left in the buffer. */
  lemma FlushedInTime(latency: int, t0: int, es: seq<Event>, slack: nat)
    requires Runs(Start(latency, t0), es, slack)
    ensures var s := After(Start(latency, t0), es, slack);
            && (latency >= 0 ==> forall f :: f in s.w.flushed ==> f.written <= f.at <= f.written + latency + slack)
            && (latency < 0 ==> forall f :: f in s.w.flushed ==> f.written <= f.at <= f.written + slack)
            && (latency < 0 ==> s.w.buffered == [])
            && s.writes == WrittenAt(s.w.flushed) + s.w.buffered
  {
    InvHolds(Start(latency, t0), es, slack);
  }

  /** Data still in the buffer before `stop` has not yet waited longer than that. */
  lemma UnflushedIsYoung(latency: int, t0: int, es: seq<Event>, slack: nat)
    requires Runs(Start(latency, t0), es, slack) && !After(Start(latency, t0), es, slack).stopped
    ensures var s := After(Start(latency, t0), es, slack);
            latency >= 0 ==> forall b :: b in s.w.buffered ==> b <= s.now <= b + latency + slack
  {
    InvHolds(Start(latency, t0), es, slack);
    var s := After(Start(latency, t0), es, slack);
    forall b | b in s.w.buffered ensures b <= s.now <= Due(b, latency) + slack {
      var i :| 0 <= i < |s.w.buffered| && s.w.buffered[i] == b;
      assert FlushStart(s) <= Due(b, latency);
    }
  }

  /** After `stop` nothing is flushed any more, whatever timers and goroutines are still about. */
  lemma {:induction false} NoFlushAfterStop(s: System, es: seq<Event>, slack: nat)
    requires Inv(s, slack) && s.stopped && Runs(s, es, slack)
    ensures var s' := After(s, es, slack);
            s'.stopped && s'.w.flushed == s.w.flushed && s'.w.buffered == s.w.buffered
    decreases |es|
  {
    if es != [] {
      InvKept(s, es[0], slack);
      NoFlushAfterStop(Do(s, es[0], slack), es[1..], slack);
    }
  }
}
