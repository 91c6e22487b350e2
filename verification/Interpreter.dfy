/** What applying a list of resources does, as a function of the starting world: the Test/Set/Unset
    interpreter with updating modes, suspension at a reboot and rollback. */
module Interpreter {
  import opened Resources

  datatype Call<W> = TestCall(r: Resource<W>) | SetCall(r: Resource<W>) | UnsetCall(r: Resource<W>)

  /** How the loop over the resources ends. */
  datatype End = Finished | Suspended | Raised

  datatype Result = Succeeded | PendingRestart | RolledBack | Failed

  /** What surrounds a run.  `updating` reads the installed version out of the world; `reboots` is true for
      the real installer and false for the imagined run that no reboot interrupts, because the machine restarts in place;
      `rebooting` says whether the machine is being restarted rather than the user asked to do it. */
  datatype Setting<!W> = Setting(updating: W -> bool, restart: W -> W, reboots: bool, changes: nat, rebooting: bool)

  datatype Fate = Passed | Processed | MustReboot | Broke

  /** One resource: the world after it, the calls made, whether progress was reported, what comes next. */
  datatype Visit<W> = Visit(world: W, calls: seq<Call<W>>, reported: bool, fate: Fate)

  datatype Trace<W> = Trace(world: W, calls: seq<Call<W>>, reports: seq<int>,
                                  processed: seq<Resource<W>>, count: int, end: End)

  /** The call to Set or Unset and what it entails; `asked` is whether an earlier call of the visit already turned the
      reboot flag on. */
  function Act<W>(r: Resource<W>, uninstall: bool, s: Setting<W>, w: W, calls: seq<Call<W>>, asked: bool): Visit<W> {
    var effect := if uninstall then r.unset(w) else r.set_(w);
    var made := calls + [if uninstall then UnsetCall(r) else SetCall(r)];
    match effect
    case Threw(w') => Visit(w', made, true, Broke)
    case Done(w', asks) =>
      if !(r.RebootInManifest || asked || asks) then Visit(w', made, true, Processed)
      else if s.reboots then Visit(w', made, true, MustReboot)
      else Visit(s.restart(w'), made, true, Processed)
  }

  /** The body of the loop for one resource. */
  function VisitOne<W>(r: Resource<W>, uninstall: bool, s: Setting<W>, w: W): Visit<W> {
    var tested := [TestCall(r)];
    match r.test(w)
    case ProbeThrew => Visit(w, tested, false, Broke)
    case Answer(holds) =>
      if r.RunAlways then Act(r, uninstall, s, w, tested, false)
      else if uninstall then
        if holds then Act(r, uninstall, s, w, tested, false) else Visit(w, tested, false, Passed)
      else if s.updating(w) && r.OnUpdate == Skip then Visit(w, tested, false, Passed)
      else if s.updating(w) && r.OnUpdate == Install && holds then
        match r.unset(w)
        case Threw(w') => Visit(w', tested + [UnsetCall(r)], false, Broke)
        case Done(w', asks) => Act(r, uninstall, s, w', tested + [UnsetCall(r)], asks)
      else if holds then Visit(w, tested, false, Passed)
      else Act(r, uninstall, s, w, tested, false)
  }

  function Max(a: int, b: int): int { if a < b then b else a }

  /** Reports made around one resource. */
  function ReportsOf<W>(v: Visit<W>, s: Setting<W>, count: int): seq<int> {
    (if v.reported then [count] else []) + (if v.fate == MustReboot && !s.rebooting then [0] else [])
  }

  /** The loop from a resource on, given its visit and what the remaining resources would do. */
  function Continue<W>(r: Resource<W>, v: Visit<W>, reports: seq<int>, count: int, rest: Trace<W>): Trace<W> {
    match v.fate
    case Broke => Trace(v.world, v.calls, reports, [], count, Raised)
    case MustReboot => Trace(v.world, v.calls, reports, [r], count, Suspended)
    case Passed => rest.(calls := v.calls + rest.calls, reports := reports + rest.reports)
    case Processed =>
      rest.(calls := v.calls + rest.calls, reports := reports + rest.reports, processed := [r] + rest.processed)
  }

  /** The loop: `uninstall` is the mode it decides on, `modifier` what it adds to the progress count. */
  function Loop<W>(rs: seq<Resource<W>>, uninstall: bool, s: Setting<W>, w: W, count: int, modifier: int): Trace<W> {
    if rs == [] then Trace(w, [], [Max(0, modifier * s.changes)], [], count, Finished)
    else
      var v := VisitOne(rs[0], uninstall, s, w);
      var rest := Loop(rs[1..], uninstall, s, v.world, count + modifier, modifier);
      Continue(rs[0], v, ReportsOf(v, s, count), count, rest)
  }

  function Reverse<T>(xs: seq<T>): (r: seq<T>)
    ensures |r| == |xs|
    ensures forall i :: 0 <= i < |xs| ==> r[i] == xs[|xs| - 1 - i]
  {
    if xs == [] then [] else Reverse(xs[1..]) + [xs[0]]
  }

  ghost predicate Distinct<T>(xs: seq<T>) {
    forall i, j :: 0 <= i < j < |xs| ==> xs[i] != xs[j]
  }

  datatype Outcome<W> = Outcome(world: W, calls: seq<Call<W>>, reports: seq<int>, pending: bool, result: Result)

  /** The two readings of the nested function: does it decide on the mode of the context it closes over,
      as written, or on the mode of the context it is passed, as the rollback call assumes. */
  datatype Reading = Captured | Given

  /** The nested function: the loop, and when that raises in an install, a second pass over the processed
      resources, last first, with an uninstalling context. */
  function Inner<W>(rs: seq<Resource<W>>, reading: Reading, outer: bool, own: bool, s: Setting<W>,
                          w: W, count: int, modifier: int): Outcome<W>
    decreases !own
  {
    var t := Loop(rs, if reading == Captured then outer else own, s, w, count, modifier);
    match t.end
    case Finished => Outcome(t.world, t.calls, t.reports, false, Succeeded)
    case Suspended => Outcome(t.world, t.calls, t.reports, true, PendingRestart)
    case Raised =>
      if own then Outcome(t.world, t.calls, t.reports, false, Failed)
      else
        var back := Inner(Reverse(t.processed), reading, outer, true, s, t.world, t.count, -1);
        Outcome(back.world, t.calls + back.calls, t.reports + back.reports, back.pending, RolledBack)
  }

  /** A whole Apply: the starting report, then the resources of the graph. */
  function Apply<W>(rs: seq<Resource<W>>, reading: Reading, uninstall: bool, s: Setting<W>, w: W): Outcome<W> {
    var o := Inner(rs, reading, uninstall, uninstall, s, w, 0, 1);
    o.(reports := [0] + o.reports)
  }

  // ---------------------------------------------------------------- shape of the loop

  /** Resources in the order their Test was called. */
  function Visited<W>(calls: seq<Call<W>>): seq<Resource<W>> {
    if calls == [] then []
    else (if calls[0].TestCall? then [calls[0].r] else []) + Visited(calls[1..])
  }

  lemma {:induction false} VisitedAppend<W>(a: seq<Call<W>>, b: seq<Call<W>>)
    ensures Visited(a + b) == Visited(a) + Visited(b)
  {
    if a == [] {
      assert a + b == b;
    } else {
      VisitedAppend(a[1..], b);
      var head := if a[0].TestCall? then [a[0].r] else [];
      assert (a + b)[1..] == a[1..] + b && (a + b)[0] == a[0];
      assert head + (Visited(a[1..]) + Visited(b)) == head + Visited(a[1..]) + Visited(b);
    }
  }

  lemma VisitTestsOnce<W>(r: Resource<W>, uninstall: bool, s: Setting<W>, w: W)
    ensures Visited(VisitOne(r, uninstall, s, w).calls) == [r]
  {
    var v := VisitOne(r, uninstall, s, w);
    var tail := v.calls[1..];
    assert v.calls == [TestCall(r)] + tail;
    assert |tail| <= 2;
    assert forall i :: 0 <= i < |tail| ==> !tail[i].TestCall?;
    NoTests(tail);
  }

  lemma {:induction false} NoTests<W>(calls: seq<Call<W>>)
    requires forall i :: 0 <= i < |calls| ==> !calls[i].TestCall?
    ensures Visited(calls) == []
  {
    if calls != [] { NoTests(calls[1..]); }
  }

  /** The loop visits the list in order, each resource once, all of it unless it stops early. */
  lemma {:induction false} LoopVisits<W>(rs: seq<Resource<W>>, uninstall: bool, s: Setting<W>, w: W, count: int, modifier: int)
    ensures VisitsInOrder(Loop(rs, uninstall, s, w, count, modifier), rs)
  {
    hide VisitOne, Continue;
    if rs != [] {
      var v := VisitOne(rs[0], uninstall, s, w);
      VisitTestsOnce(rs[0], uninstall, s, w);
      LoopVisits(rs[1..], uninstall, s, v.world, count + modifier, modifier);
      ContinueVisits(rs, v, ReportsOf(v, s, count), count, Loop(rs[1..], uninstall, s, v.world, count + modifier, modifier));
    }
  }

  predicate VisitsInOrder<W>(t: Trace<W>, rs: seq<Resource<W>>) {
    Visited(t.calls) <= rs && (t.end == Finished ==> Visited(t.calls) == rs)
  }

  lemma ContinueVisits<W>(rs: seq<Resource<W>>, v: Visit<W>, reports: seq<int>, count: int, rest: Trace<W>)
    requires rs != [] && Visited(v.calls) == [rs[0]]
    requires VisitsInOrder(rest, rs[1..])
    ensures VisitsInOrder(Continue(rs[0], v, reports, count, rest), rs)
  {
    VisitedAppend(v.calls, rest.calls);
    assert rs == [rs[0]] + rs[1..];
  }

  ghost predicate Within(reports: seq<int>, lo: int, hi: int) {
    forall i :: 0 <= i < |reports| ==> lo <= reports[i] <= hi
  }

  /** Counting up from `count`: reports stay in range, no more resources are processed than counted, and
      none of them asks for a reboot unless the loop ends there. */
  ghost predicate CountedUp<W>(t: Trace<W>, s: Setting<W>, count: int) {
    && Within(t.reports, 0, s.changes)
    && (t.end != Suspended ==>
          && count + |t.processed| <= t.count <= s.changes
          && (s.reboots ==> forall r :: r in t.processed ==> !r.RebootInManifest))
  }

  lemma ContinueCountsUp<W>(r: Resource<W>, v: Visit<W>, s: Setting<W>, count: int, rest: Trace<W>)
    requires 0 <= count < s.changes && CountedUp(rest, s, count + 1)
    requires v.fate == Processed && s.reboots ==> !r.RebootInManifest
    ensures CountedUp(Continue(r, v, ReportsOf(v, s, count), count, rest), s, count)
  {
  }

  /** Reports that grow from one to the next, from `lo` on and below `hi`. */
  ghost predicate Growing(reports: seq<int>, lo: int, hi: int) {
    && (forall i :: 0 <= i < |reports| ==> lo <= reports[i] < hi)
    && (forall i, j :: 0 <= i < j < |reports| ==> reports[i] < reports[j])
  }

  /** Reports of a run over `n` resources from position `count` on, of which it acts on `acted`. */
  ghost predicate Progress(reports: seq<int>, count: int, n: nat, total: nat, acted: nat) {
    |reports| == 1 + acted && reports[acted] == total && Growing(reports[..acted], count, count + n)
  }

  lemma ProgressNext(reports: seq<int>, count: int, n: nat, total: nat, acted: nat, reported: bool)
    requires Progress(reports, count + 1, n, total, acted)
    ensures reported ==> Progress([count] + reports, count, n + 1, total, acted + 1)
    ensures Progress(reports, count, n + 1, total, acted)
  {
    var all := [count] + reports;
    assert all[..acted + 1] == [count] + reports[..acted];
    assert all[..acted + 1][1..] == reports[..acted];
  }

  lemma OneStep<W>(rs: seq<Resource<W>>, uninstall: bool, s: Setting<W>, w: W, count: int, modifier: int)
    requires rs != [] && Loop(rs, uninstall, s, w, count, modifier).end == Finished
    ensures var t := Loop(rs, uninstall, s, w, count, modifier);
            var v := VisitOne(rs[0], uninstall, s, w);
            var rest := Loop(rs[1..], uninstall, s, v.world, count + modifier, modifier);
            && (v.fate == Passed || v.fate == Processed) && rest.end == Finished && t.count == rest.count
            && t.reports == (if v.fate == Processed then [count] + rest.reports else rest.reports)
            && |t.processed| == |rest.processed| + if v.fate == Processed then 1 else 0
  {
    hide VisitOne, Continue, ReportsOf;
    ReportedWhenProcessed(rs[0], uninstall, s, w);
    var v := VisitOne(rs[0], uninstall, s, w);
    var rest := Loop(rs[1..], uninstall, s, v.world, count + modifier, modifier);
    assert Loop(rs, uninstall, s, w, count, modifier) == Continue(rs[0], v, ReportsOf(v, s, count), count, rest);
    hide Loop;
    ContinuedToEnd(rs[0], v, s, count, rest);
  }

  lemma ContinuedToEnd<W>(r: Resource<W>, v: Visit<W>, s: Setting<W>, count: int, rest: Trace<W>)
    requires (v.fate == Processed ==> v.reported) && (v.fate == Passed ==> !v.reported)
    requires Continue(r, v, ReportsOf(v, s, count), count, rest).end == Finished
    ensures var t := Continue(r, v, ReportsOf(v, s, count), count, rest);
            && (v.fate == Passed || v.fate == Processed) && rest.end == Finished && t.count == rest.count
            && t.reports == (if v.fate == Processed then [count] + rest.reports else rest.reports)
            && |t.processed| == |rest.processed| + if v.fate == Processed then 1 else 0
  {
    assert [] + rest.reports == rest.reports;
  }

  /** A run that succeeds reports ever growing progress, each time the position of the resource it is about to act on, and
      completion at the end. */
  lemma {:induction false} ProgressGrows<W>(rs: seq<Resource<W>>, uninstall: bool, s: Setting<W>, w: W, count: int)
    requires 0 <= count && Loop(rs, uninstall, s, w, count, 1).end == Finished
    ensures var t := Loop(rs, uninstall, s, w, count, 1);
            Progress(t.reports, count, |rs|, s.changes, |t.processed|) && t.count == count + |rs|
  {
    if rs != [] {
      hide VisitOne, Loop, Progress;
      var v := VisitOne(rs[0], uninstall, s, w);
      OneStep(rs, uninstall, s, w, count, 1);
      ProgressGrows(rs[1..], uninstall, s, v.world, count + 1);
      var rest := Loop(rs[1..], uninstall, s, v.world, count + 1, 1);
      ProgressNext(rest.reports, count, |rs| - 1, s.changes, |rest.processed|, v.fate == Processed);
    }
  }

  /** Reports of a pass back over `n` resources from position `count` down, of which it acts on `acted`: they fall, and 0 comes last. */
  ghost predicate Regress(reports: seq<int>, count: int, n: nat, acted: nat) {
    && |reports| == 1 + acted && reports[acted] == 0
    && (forall i :: 0 <= i < acted ==> count - n < reports[i] <= count)
    && (forall i, j :: 0 <= i < j < acted ==> reports[i] > reports[j])
  }

  lemma RegressNext(reports: seq<int>, count: int, n: nat, acted: nat)
    requires Regress(reports, count - 1, n, acted)
    ensures Regress([count] + reports, count, n + 1, acted + 1) && Regress(reports, count, n + 1, acted)
  {
    var all := [count] + reports;
    assert all[1..] == reports;
    assert forall i :: 0 < i < |all| ==> all[i] == reports[i - 1];
  }

  lemma {:induction false} ProgressFalls<W>(rs: seq<Resource<W>>, uninstall: bool, s: Setting<W>, w: W, count: int)
    requires Loop(rs, uninstall, s, w, count, -1).end == Finished
    ensures var t := Loop(rs, uninstall, s, w, count, -1);
            Regress(t.reports, count, |rs|, |t.processed|)
  {
    if rs != [] {
      hide VisitOne, Loop, Regress;
      var v := VisitOne(rs[0], uninstall, s, w);
      OneStep(rs, uninstall, s, w, count, -1);
      ProgressFalls(rs[1..], uninstall, s, v.world, count - 1);
      var rest := Loop(rs[1..], uninstall, s, v.world, count - 1, -1);
      RegressNext(rest.reports, count, |rs| - 1, |rest.processed|);
    }
  }

  lemma ReportedWhenProcessed<W>(r: Resource<W>, uninstall: bool, s: Setting<W>, w: W)
    ensures var v := VisitOne(r, uninstall, s, w);
            && (v.fate == Processed ==> v.reported) && (v.fate == Passed ==> !v.reported)
  {}

  lemma {:induction false} LoopCountsUp<W>(rs: seq<Resource<W>>, uninstall: bool, s: Setting<W>, w: W, count: int)
    requires 0 <= count && count + |rs| <= s.changes
    ensures CountedUp(Loop(rs, uninstall, s, w, count, 1), s, count)
  {
    if rs != [] {
      var v := VisitOne(rs[0], uninstall, s, w);
      LoopCountsUp(rs[1..], uninstall, s, v.world, count + 1);
      ContinueCountsUp(rs[0], v, s, count, Loop(rs[1..], uninstall, s, v.world, count + 1, 1));
    }
  }

  lemma ContinueCountsDown<W>(r: Resource<W>, v: Visit<W>, s: Setting<W>, count: int, rest: Trace<W>)
    requires 0 <= count <= s.changes && Within(rest.reports, 0, s.changes)
    ensures Within(Continue(r, v, ReportsOf(v, s, count), count, rest).reports, 0, s.changes)
  {
  }

  lemma {:induction false} LoopCountsDown<W>(rs: seq<Resource<W>>, uninstall: bool, s: Setting<W>, w: W, count: int)
    requires |rs| <= count <= s.changes
    ensures Within(Loop(rs, uninstall, s, w, count, -1).reports, 0, s.changes)
  {
    hide VisitOne, Continue;
    if rs != [] {
      var v := VisitOne(rs[0], uninstall, s, w);
      LoopCountsDown(rs[1..], uninstall, s, v.world, count - 1);
      ContinueCountsDown(rs[0], v, s, count, Loop(rs[1..], uninstall, s, v.world, count - 1, -1));
    }
  }

  /** With an uninstalling context of its own, the nested function makes one pass and never rolls back. */
  lemma InnerOnce<W>(rs: seq<Resource<W>>, reading: Reading, outer: bool, s: Setting<W>, w: W, count: int, modifier: int)
    ensures var o := Inner(rs, reading, outer, true, s, w, count, modifier);
            var t := Loop(rs, if reading == Captured then outer else true, s, w, count, modifier);
            && o.world == t.world && o.calls == t.calls && o.reports == t.reports
            && o.result == (match t.end case Finished => Succeeded case Suspended => PendingRestart case Raised => Failed)
            && (o.pending <==> t.end == Suspended)
  {
    hide Loop;
  }

  /** The nested function in terms of the loop it runs and the pass it makes back. */
  lemma InnerUnfolds<W>(rs: seq<Resource<W>>, reading: Reading, uninstall: bool, s: Setting<W>, w: W)
    ensures var o := Apply(rs, reading, uninstall, s, w);
            var t := Loop(rs, uninstall, s, w, 0, 1);
            var back := Loop(Reverse(t.processed), reading == Given, s, t.world, t.count, -1);
            && (o.result == RolledBack <==> t.end == Raised && !uninstall)
            && (o.result == RolledBack ==>
                  && o.world == back.world && o.calls == t.calls + back.calls
                  && o.reports == [0] + (t.reports + back.reports))
            && (o.result != RolledBack ==> o.world == t.world && o.calls == t.calls && o.reports == [0] + t.reports)
            && (o.result == PendingRestart <==> t.end == Suspended)
            && (o.result == Succeeded <==> t.end == Finished)
            && (o.pending <==> t.end == Suspended || (o.result == RolledBack && back.end == Suspended))
  {
    hide Loop;
    var t := Loop(rs, uninstall, s, w, 0, 1);
    InnerOnce(Reverse(t.processed), reading, uninstall, s, t.world, t.count, -1);
  }

  /** A restart is pending exactly when the result says so, except after a rollback that was itself suspended. */
  lemma PendingExactly<W>(rs: seq<Resource<W>>, reading: Reading, uninstall: bool, s: Setting<W>, w: W)
    ensures var o := Apply(rs, reading, uninstall, s, w);
            o.result != RolledBack ==> (o.pending <==> o.result == PendingRestart)
  {
    InnerUnfolds(rs, reading, uninstall, s, w);
  }

  /** Whatever the resources do, in either mode and either reading, all reported progress is
      between 0 and the number of resources. */
  lemma ProgressStaysInRange<W>(rs: seq<Resource<W>>, reading: Reading, uninstall: bool, s: Setting<W>, w: W)
    requires s.changes == |rs|
    ensures Within(Apply(rs, reading, uninstall, s, w).reports, 0, s.changes)
  {
    LoopCountsUp(rs, uninstall, s, w, 0);
    InnerUnfolds(rs, reading, uninstall, s, w);
    var t := Loop(rs, uninstall, s, w, 0, 1);
    if t.end == Raised {
      LoopCountsDown(Reverse(t.processed), reading == Given, s, t.world, t.count);
    }
  }

  predicate AsksAt<W>(r: Resource<W>, w: W) {
    (r.set_(w).Done? && r.set_(w).asks) || (r.unset(w).Done? && r.unset(w).asks)
  }

  /** Some call of the resource may turn its reboot flag on. */
  ghost predicate MayAsk<W(!new)>(r: Resource<W>) {
    exists w :: AsksAt(r, w)
  }

  /** A rollback visits the processed resources once each, last first: all of them unless one raises, or turns its reboot flag
      on while it is being undone. */
  lemma RollbackVisitsInReverse<W(!new)>(rs: seq<Resource<W>>, reading: Reading, s: Setting<W>, w: W)
    requires s.reboots && s.changes == |rs|
    requires Apply(rs, reading, false, s, w).result == RolledBack
    ensures var t := Loop(rs, false, s, w, 0, 1);
            var back := Loop(Reverse(t.processed), reading == Given, s, t.world, t.count, -1);
            && t.end == Raised
            && (back.end == Suspended ==> exists r :: r in t.processed && MayAsk(r))
            && Apply(rs, reading, false, s, w).calls == t.calls + back.calls
            && Visited(back.calls) <= Reverse(t.processed)
            && (back.end == Finished ==> Visited(back.calls) == Reverse(t.processed))
  {
    InnerUnfolds(rs, reading, false, s, w);
    var t := Loop(rs, false, s, w, 0, 1);
    LoopCountsUp(rs, false, s, w, 0);
    LoopVisits(Reverse(t.processed), reading == Given, s, t.world, t.count, -1);
    ReverseKeeps(t.processed);
    if forall r :: r in t.processed ==> !MayAsk(r) {
      NeverSuspends(Reverse(t.processed), reading == Given, s, t.world, t.count, -1);
    }
  }

  /** A rollback that gets through reports falling progress, from the place of the resource that failed, and 0 at the end. */
  lemma RollbackCountsDown<W(!new)>(rs: seq<Resource<W>>, reading: Reading, s: Setting<W>, w: W)
    requires Apply(rs, reading, false, s, w).result == RolledBack
    ensures var t := Loop(rs, false, s, w, 0, 1);
            var back := Loop(Reverse(t.processed), reading == Given, s, t.world, t.count, -1);
            back.end == Finished ==>
              && Apply(rs, reading, false, s, w).reports == [0] + (t.reports + back.reports)
              && Regress(back.reports, t.count, |t.processed|, |back.processed|)
  {
    hide Loop;
    InnerUnfolds(rs, reading, false, s, w);
    var t := Loop(rs, false, s, w, 0, 1);
    if Loop(Reverse(t.processed), reading == Given, s, t.world, t.count, -1).end == Finished {
      ProgressFalls(Reverse(t.processed), reading == Given, s, t.world, t.count);
    }
  }

  lemma Associates<T>(a: seq<T>, b: seq<T>, c: seq<T>)
    ensures a + b + c == a + (b + c)
  {
  }

  lemma {:induction false} ReverseKeeps<T>(xs: seq<T>)
    ensures forall x :: x in Reverse(xs) <==> x in xs
  {
    if xs != [] { ReverseKeeps(xs[1..]); }
  }

  lemma {:induction false} NeverSuspends<W(!new)>(rs: seq<Resource<W>>, uninstall: bool, s: Setting<W>, w: W, count: int, modifier: int)
    requires forall r :: r in rs ==> !r.RebootInManifest && !MayAsk(r)
    ensures Loop(rs, uninstall, s, w, count, modifier).end != Suspended
  {
    if rs != [] {
      var v := VisitOne(rs[0], uninstall, s, w);
      assert rs[0] in rs;
      assert forall r :: r in rs[1..] ==> r in rs;
      NeverAsks(rs[0], uninstall, s, w);
      NeverSuspends(rs[1..], uninstall, s, v.world, count + modifier, modifier);
    }
  }

  lemma NeverAsks<W(!new)>(r: Resource<W>, uninstall: bool, s: Setting<W>, w: W)
    requires !r.RebootInManifest && !MayAsk(r)
    ensures VisitOne(r, uninstall, s, w).fate != MustReboot
  {
    assert !AsksAt(r, w);
    if r.unset(w).Done? { assert !AsksAt(r, r.unset(w).world); }
  }
}
