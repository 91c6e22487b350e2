/** Theorems about an installation that takes several runs, because resources ask for a restart of the machine. */
module Resumption {
  import opened Resources
  import opened Interpreter
  import opened InstallerRuns

  datatype Session<W> = Session(world: W, calls: seq<Call<W>>, result: Result)

  /** Running the installer again after every pending restart, at most `n` times; the machine restarts in between. */
  function Reruns<W>(n: nat, rs: seq<Resource<W>>, s: Setting<W>, w: W): Session<W> {
    if n == 0 then Session(w, [], PendingRestart)
    else
      var o := Apply(rs, Captured, false, s, w);
      if o.result != PendingRestart then Session(o.world, o.calls, o.result)
      else
        var more := Reruns(n - 1, rs, s, s.restart(o.world));
        more.(calls := o.calls + more.calls)
  }

  function Sets<W>(calls: seq<Call<W>>, x: Resource<W>): nat {
    if calls == [] then 0 else (if calls[0] == SetCall(x) then 1 else 0) + Sets(calls[1..], x)
  }

  function ToDo<W>(x: Resource<W>, w: W): nat { if x.test(w) == Answer(false) then 1 else 0 }

  ghost predicate AsksFor<W>(r: Resource<W>, w: W) {
    r.RebootInManifest || (r.set_(w).Done? && r.set_(w).asks)
  }

  /** The resource's Set may ask for a restart. */
  ghost predicate Asking<W(!new)>(r: Resource<W>) {
    exists w :: AsksFor(r, w)
  }

  /** How many restarts the resources may still ask for. */
  ghost function RebootsLeft<W(!new)>(rs: seq<Resource<W>>, w: W): nat {
    if rs == [] then 0 else (if Asking(rs[0]) then ToDo(rs[0], w) else 0) + RebootsLeft(rs[1..], w)
  }

  ghost predicate RestartStaysAt<W>(s: Setting<W>, realm: W -> bool, w: W) {
    realm(w) ==> realm(s.restart(w)) && (!s.updating(w) ==> !s.updating(s.restart(w)))
  }

  /** An action that the manifest marks as requiring a reboot asks for one on every run. */
  ghost predicate Nags<W(!new)>(r: Resource<W>, realm: W -> bool) {
    Action(r, realm) && r.RebootInManifest
  }

  /** Each resource settles, at once or at the next restart, or is neutral, and a neutral one marked as requiring a reboot is
      an action; nothing throws; what one resource has achieved, or will have at the next restart, is spoilt neither by the
      others nor by a restart. */
  ghost predicate Resumable<W(!new)>(rs: seq<Resource<W>>, s: Setting<W>, realm: W -> bool) {
    && s.reboots
    && Tame(rs, s, realm, s.restart) && Harmless(rs, realm, Now()) && Harmless(rs, realm, s.restart)
    && (forall r :: r in rs ==> NeverThrows(r, realm) && Survives(r, s.restart, realm))
    && (forall r :: r in rs && r.RebootInManifest ==> Settles(r, realm, s.restart) || Action(r, realm))
    && (forall w :: RestartStaysAt(s, realm, w))
  }

  lemma ResumableTail<W(!new)>(rs: seq<Resource<W>>, s: Setting<W>, realm: W -> bool)
    requires rs != [] && Resumable(rs, s, realm)
    ensures Resumable(rs[1..], s, realm)
  {
    hide Settles, Neutral, Keeps, NeverThrows, Survives, KeepsFresh, Stays, Action;
    assert forall r :: r in rs[1..] ==> r in rs;
  }

  /** One visit of a run in which nothing throws, and the same visit when the machine restarts in place. */
  lemma CalmVisit<W(!new)>(r: Resource<W>, s: Setting<W>, realm: W -> bool, w: W)
    requires Resumable([r], s, realm) && realm(w) && !s.updating(w)
    ensures var v := VisitOne(r, false, s, w);
            var p := VisitOne(r, false, s.(reboots := false), w);
            && realm(v.world) && !s.updating(v.world)
            && v.fate != Broke && p.fate != Broke && p.fate != MustReboot
            && (v.fate == MustReboot <==> r.Due(w) && AsksFor(r, w))
            && p.world == (if v.fate == MustReboot then s.restart(v.world) else v.world)
            && (Neutral(r, realm) ==> v.world == w)
            && (v.fate == Passed <==> !r.Due(w))
            && (v.fate == Passed ==> v.world == w && r.test(w) == Answer(true))
            && (!Neutral(r, realm) ==> r.Due(w) == (r.test(w) == Answer(false)))
            && (v.fate != Passed && Settles(r, realm, s.restart) ==>
                  r.test(w) == Answer(false) && r.test(s.restart(v.world)) == Answer(true))
            && v.calls == (if v.fate == Passed then [TestCall(r)] else [TestCall(r), SetCall(r)])
  {
    assert r in [r];
    FreshVisit(r, s, realm, s.restart, w);
    assert CalmAt(r, w);
    if Neutral(r, realm) { assert NeutralAt(r, w); }
  }

  lemma Alone<W(!new)>(rs: seq<Resource<W>>, s: Setting<W>, realm: W -> bool)
    requires rs != [] && Resumable(rs, s, realm)
    ensures Resumable([rs[0]], s, realm)
  {
    assert rs[0] in rs;
  }

  /** What the visit of another resource leaves of `x`: a test that holds, or will hold after a restart, still does. */
  lemma OthersKeep<W(!new)>(x: Resource<W>, rs: seq<Resource<W>>, s: Setting<W>, realm: W -> bool)
    requires x in rs && Resumable(rs, s, realm)
    ensures forall r :: r in rs ==> Keeps(r, x, realm, Now()) && Keeps(r, x, realm, s.restart)
  {
    AllKeep(x, rs, s, realm, s.restart);
    forall w | realm(w) ensures KeepsAt(x, x, Now(), w) {}
  }

  lemma VisitKeeps<W(!new)>(x: Resource<W>, r: Resource<W>, s: Setting<W>, realm: W -> bool, w: W)
    requires Resumable([r], s, realm) && realm(w) && !s.updating(w)
    requires Keeps(r, x, realm, Now()) && Keeps(r, x, realm, s.restart)
    ensures var v := VisitOne(r, false, s, w);
            && (x.test(w) == Answer(true) ==> x.test(v.world) == Answer(true))
            && (x.test(s.restart(w)) == Answer(true) ==> x.test(s.restart(v.world)) == Answer(true))
  {
    assert r in [r];
    FreshVisit(r, s, realm, s.restart, w);
    CalmVisit(r, s, realm, w);
    assert KeepsAt(r, x, Now(), w) && KeepsAt(r, x, s.restart, w);
  }

  /** Where a suspended run stops, what holds now holds after the restart, and what waits for the restart does, too. */
  lemma {:induction false} KeptUntilRestart<W(!new)>(x: Resource<W>, rs: seq<Resource<W>>, s: Setting<W>, realm: W -> bool, w: W, count: int)
    requires Resumable(rs, s, realm) && realm(w) && !s.updating(w)
    requires forall r :: r in rs ==> Keeps(r, x, realm, Now()) && Keeps(r, x, realm, s.restart)
    ensures var w' := Loop(rs, false, s, w, count, 1).world;
            && realm(w') && !s.updating(w')
            && (x.test(w) == Answer(true) ==> x.test(w') == Answer(true))
            && (x.test(s.restart(w)) == Answer(true) ==> x.test(s.restart(w')) == Answer(true))
  {
    hide VisitOne, Resumable, Keeps;
    if rs != [] {
      var v := VisitOne(rs[0], false, s, w);
      assert rs[0] in rs && forall r :: r in rs[1..] ==> r in rs;
      Alone(rs, s, realm);
      ResumableTail(rs, s, realm);
      CalmVisit(rs[0], s, realm, w);
      VisitKeeps(x, rs[0], s, realm, w);
      if v.fate == Passed || v.fate == Processed {
        KeptUntilRestart(x, rs[1..], s, realm, v.world, count + 1);
      }
    }
  }

  // ---------------------------------------------------------------- at most one Set

  lemma {:induction false} SetsAppend<W>(a: seq<Call<W>>, b: seq<Call<W>>, x: Resource<W>)
    ensures Sets(a + b, x) == Sets(a, x) + Sets(b, x)
  {
    if a == [] {
      assert a + b == b;
    } else {
      assert (a + b)[1..] == a[1..] + b;
      SetsAppend(a[1..], b, x);
    }
  }

  lemma VisitSets<W(!new)>(x: Resource<W>, r: Resource<W>, s: Setting<W>, realm: W -> bool, w: W)
    requires Resumable([r], s, realm) && realm(w) && !s.updating(w)
    ensures Sets(VisitOne(r, false, s, w).calls, x) == if r == x && r.Due(w) then 1 else 0
  {
    CalmVisit(r, s, realm, w);
    var v := VisitOne(r, false, s, w);
    assert v.calls[1..] == if v.fate == Passed then [] else [SetCall(r)];
    assert Sets([SetCall(r)], x) == if r == x then 1 else 0;
  }

  /** A resource that is not in the list is not set. */
  lemma {:induction false} OthersNotSet<W(!new)>(x: Resource<W>, rs: seq<Resource<W>>, s: Setting<W>, realm: W -> bool, w: W, count: int)
    requires Resumable(rs, s, realm) && realm(w) && !s.updating(w) && x !in rs
    ensures Sets(Loop(rs, false, s, w, count, 1).calls, x) == 0
  {
    hide VisitOne, Resumable;
    if rs != [] {
      var v := VisitOne(rs[0], false, s, w);
      assert rs[0] in rs && forall r :: r in rs[1..] ==> r in rs;
      Alone(rs, s, realm);
      ResumableTail(rs, s, realm);
      CalmVisit(rs[0], s, realm, w);
      VisitSets(x, rs[0], s, realm, w);
      OthersNotSet(x, rs[1..], s, realm, v.world, count + 1);
      SetsAppend(v.calls, Loop(rs[1..], false, s, v.world, count + 1, 1).calls, x);
    }
  }

  lemma DistinctTail<T>(xs: seq<T>)
    requires xs != [] && Distinct(xs)
    ensures Distinct(xs[1..]) && xs[0] !in xs[1..]
  {}

  /** Within one run a settling resource is set at most once, and only if its test failed at the start; once it has been set,
      its test holds after the restart. */
  lemma {:induction false} SetsAreSpent<W(!new)>(x: Resource<W>, rs: seq<Resource<W>>, s: Setting<W>, realm: W -> bool, w: W, count: int)
    requires Resumable(rs, s, realm) && Distinct(rs) && realm(w) && !s.updating(w)
    requires x in rs && Settles(x, realm, s.restart) && NeverThrows(x, realm) && Survives(x, s.restart, realm)
    requires forall r :: r in rs ==> Keeps(r, x, realm, Now()) && Keeps(r, x, realm, s.restart)
    ensures var t := Loop(rs, false, s, w, count, 1);
            Sets(t.calls, x) + ToDo(x, s.restart(t.world)) <= ToDo(x, w)
  {
    hide VisitOne, Resumable, Keeps;
    var r := rs[0];
    var v := VisitOne(r, false, s, w);
    var rest := Loop(rs[1..], false, s, v.world, count + 1, 1);
    assert r in rs && forall q :: q in rs[1..] ==> q in rs;
    Alone(rs, s, realm);
    ResumableTail(rs, s, realm);
    DistinctTail(rs);
    CalmVisit(r, s, realm, w);
    VisitSets(x, r, s, realm, w);
    SetsAppend(v.calls, rest.calls, x);
    if r == x {
      VisitedSpends(x, s, realm, w);
      OthersNotSet(x, rs[1..], s, realm, v.world, count + 1);
      KeptUntilRestart(x, rs[1..], s, realm, v.world, count + 1);
    } else {
      UnvisitedWaits(x, r, s, realm, w);
      if v.fate != MustReboot { SetsAreSpent(x, rs[1..], s, realm, v.world, count + 1); }
    }
  }

  lemma VisitedSpends<W(!new)>(x: Resource<W>, s: Setting<W>, realm: W -> bool, w: W)
    requires Resumable([x], s, realm) && realm(w) && !s.updating(w) && Settles(x, realm, s.restart)
    ensures (x.Due(w) <==> ToDo(x, w) == 1) && x.test(s.restart(VisitOne(x, false, s, w).world)) == Answer(true)
  {
    CalmVisit(x, s, realm, w);
    assert x in [x];
    assert SurvivesAt(x, s.restart, w) && CalmAt(x, w);
  }

  lemma UnvisitedWaits<W(!new)>(x: Resource<W>, r: Resource<W>, s: Setting<W>, realm: W -> bool, w: W)
    requires Resumable([r], s, realm) && realm(w) && !s.updating(w)
    requires NeverThrows(x, realm) && Survives(x, s.restart, realm)
    requires Keeps(r, x, realm, Now()) && Keeps(r, x, realm, s.restart)
    ensures var w' := VisitOne(r, false, s, w).world;
            ToDo(x, w') <= ToDo(x, w) && ToDo(x, s.restart(w')) <= ToDo(x, w)
  {
    CalmVisit(r, s, realm, w);
    VisitKeeps(x, r, s, realm, w);
    assert CalmAt(x, w) && SurvivesAt(x, s.restart, VisitOne(r, false, s, w).world);
  }

  // ---------------------------------------------------------------- where it ends

  /** Where a run that the machine restarts in place ends. */
  function Straight<W>(rs: seq<Resource<W>>, s: Setting<W>, w: W): W {
    if rs == [] then w else Straight(rs[1..], s, VisitOne(rs[0], false, s.(reboots := false), w).world)
  }

  lemma RestartStays<W(!new)>(s: Setting<W>, realm: W -> bool, rs: seq<Resource<W>>, w: W)
    requires Resumable(rs, s, realm) && realm(w) && !s.updating(w)
    ensures realm(s.restart(w)) && !s.updating(s.restart(w))
  {
    assert RestartStaysAt(s, realm, w);
  }

  lemma {:induction false} InPlaceIsStraight<W(!new)>(rs: seq<Resource<W>>, s: Setting<W>, realm: W -> bool, w: W, count: int)
    requires Resumable(rs, s, realm) && realm(w) && !s.updating(w)
    ensures var t := Loop(rs, false, s.(reboots := false), w, count, 1);
            t.world == Straight(rs, s, w) && t.end == Finished
  {
    hide VisitOne, Resumable;
    if rs != [] {
      var plain := s.(reboots := false);
      var p := VisitOne(rs[0], false, plain, w);
      Alone(rs, s, realm);
      ResumableTail(rs, s, realm);
      CalmVisit(rs[0], s, realm, w);
      RestartStays(s, realm, rs, VisitOne(rs[0], false, s, w).world);
      InPlaceIsStraight(rs[1..], s, realm, p.world, count + 1);
    }
  }

  /** Nothing throws, so a run that is not suspended finishes where the machine restarting in place would have led it. */
  lemma {:induction false} UnsuspendedFinishes<W(!new)>(rs: seq<Resource<W>>, s: Setting<W>, realm: W -> bool, w: W, count: int)
    requires Resumable(rs, s, realm) && realm(w) && !s.updating(w)
    ensures var t := Loop(rs, false, s, w, count, 1);
            t.end != Raised && (t.end == Finished ==> t.world == Straight(rs, s, w))
  {
    hide VisitOne, Resumable;
    if rs != [] {
      Alone(rs, s, realm);
      ResumableTail(rs, s, realm);
      CalmVisit(rs[0], s, realm, w);
      UnsuspendedFinishes(rs[1..], s, realm, VisitOne(rs[0], false, s, w).world, count + 1);
    }
  }

  /** After the restart that a suspended run asks for, its first resource has nothing left to do. */
  lemma FirstIsSettled<W(!new)>(rs: seq<Resource<W>>, s: Setting<W>, realm: W -> bool, w: W, count: int)
    requires Resumable(rs, s, realm) && realm(w) && !s.updating(w)
    requires forall r :: r in rs ==> !Nags(r, realm)
    requires Loop(rs, false, s, w, count, 1).end == Suspended
    ensures var w' := s.restart(Loop(rs, false, s, w, count, 1).world);
            VisitOne(rs[0], false, s.(reboots := false), w').world == w'
  {
    hide VisitOne, Resumable, Keeps;
    var r := rs[0];
    var v := VisitOne(r, false, s, w);
    var end := Loop(rs, false, s, w, count, 1).world;
    assert r in rs && forall q :: q in rs[1..] ==> q in rs;
    Alone(rs, s, realm);
    ResumableTail(rs, s, realm);
    CalmVisit(r, s, realm, w);
    OthersKeep(r, rs, s, realm);
    KeptUntilRestart(r, rs, s, realm, w, count);
    RestartStays(s, realm, rs, end);
    var w' := s.restart(end);
    CalmVisit(r, s, realm, w');
    if Settles(r, realm, s.restart) {
      VisitedSpends(r, s, realm, w);
      if v.fate != MustReboot { KeptUntilRestart(r, rs[1..], s, realm, v.world, count + 1); }
    } else {
      CalmNeutral(r, s, realm, w');
    }
  }

  lemma CalmNeutral<W(!new)>(r: Resource<W>, s: Setting<W>, realm: W -> bool, w: W)
    requires Resumable([r], s, realm) && realm(w) && !s.updating(w)
    requires !Settles(r, realm, s.restart) && !Nags(r, realm)
    ensures Neutral(r, realm) && !AsksFor(r, w)
  {
    assert r in [r];
    assert NeutralAt(r, w);
  }

  /** A run that is suspended leaves a world from which, after the restart, the straight run ends where it would have ended. */
  lemma {:induction false} SuspensionIsHarmless<W(!new)>(rs: seq<Resource<W>>, s: Setting<W>, realm: W -> bool, w: W, count: int)
    requires Resumable(rs, s, realm) && realm(w) && !s.updating(w)
    requires forall r :: r in rs ==> !Nags(r, realm)
    requires Loop(rs, false, s, w, count, 1).end == Suspended
    ensures Straight(rs, s, s.restart(Loop(rs, false, s, w, count, 1).world)) == Straight(rs, s, w)
  {
    hide VisitOne, Resumable, Nags;
    var v := VisitOne(rs[0], false, s, w);
    assert rs[0] in rs && forall r :: r in rs[1..] ==> r in rs;
    Alone(rs, s, realm);
    ResumableTail(rs, s, realm);
    CalmVisit(rs[0], s, realm, w);
    FirstIsSettled(rs, s, realm, w, count);
    if v.fate != MustReboot {
      SuspensionIsHarmless(rs[1..], s, realm, v.world, count + 1);
    }
  }

  /** A suspended run has dealt with one more resource that may ask for a restart. */
  lemma {:induction false} SuspensionProgresses<W(!new)>(rs: seq<Resource<W>>, s: Setting<W>, realm: W -> bool, w: W, count: int)
      returns (r: Resource<W>)
    requires Resumable(rs, s, realm) && realm(w) && !s.updating(w)
    requires forall q :: q in rs ==> !Nags(q, realm)
    requires Loop(rs, false, s, w, count, 1).end == Suspended
    ensures var t := Loop(rs, false, s, w, count, 1);
            r in rs && Asking(r) && ToDo(r, w) == 1 && ToDo(r, s.restart(t.world)) == 0
  {
    hide VisitOne, Resumable, Nags, Keeps;
    var v := VisitOne(rs[0], false, s, w);
    assert rs[0] in rs && forall q :: q in rs[1..] ==> q in rs;
    Alone(rs, s, realm);
    ResumableTail(rs, s, realm);
    CalmVisit(rs[0], s, realm, w);
    if v.fate == MustReboot {
      r := rs[0];
      if !Settles(r, realm, s.restart) { CalmNeutral(r, s, realm, w); }
    } else {
      r := SuspensionProgresses(rs[1..], s, realm, v.world, count + 1);
      OthersKeep(r, rs, s, realm);
      NeverThrowsIn(r, rs, s, realm);
      UnvisitedWaits(r, rs[0], s, realm, w);
    }
  }

  lemma NeverThrowsIn<W(!new)>(r: Resource<W>, rs: seq<Resource<W>>, s: Setting<W>, realm: W -> bool)
    requires r in rs && Resumable(rs, s, realm)
    ensures NeverThrows(r, realm) && Survives(r, s.restart, realm)
  {}

  lemma {:induction false} RebootsDrop<W(!new)>(rs: seq<Resource<W>>, w: W, w': W, r: Resource<W>)
    requires forall x :: x in rs && Asking(x) ==> ToDo(x, w') <= ToDo(x, w)
    ensures RebootsLeft(rs, w') <= RebootsLeft(rs, w)
    ensures r in rs && Asking(r) && ToDo(r, w') < ToDo(r, w) ==> RebootsLeft(rs, w') < RebootsLeft(rs, w)
  {
    hide Asking;
    if rs != [] {
      assert rs[0] in rs;
      assert forall x :: x in rs[1..] ==> x in rs;
      RebootsDrop(rs[1..], w, w', r);
    }
  }

  /** No resource has more to do after a run and a restart than before. */
  lemma NothingUndone<W(!new)>(x: Resource<W>, rs: seq<Resource<W>>, s: Setting<W>, realm: W -> bool, w: W)
    requires Resumable(rs, s, realm) && realm(w) && !s.updating(w) && x in rs
    ensures ToDo(x, s.restart(Loop(rs, false, s, w, 0, 1).world)) <= ToDo(x, w)
  {
    hide VisitOne, Resumable, Keeps;
    OthersKeep(x, rs, s, realm);
    NeverThrowsIn(x, rs, s, realm);
    KeptUntilRestart(x, rs, s, realm, w, 0);
    assert CalmAt(x, w) && SurvivesAt(x, s.restart, Loop(rs, false, s, w, 0, 1).world);
  }

  /** A run seen from outside: what Apply reports, in terms of the loop it runs. */
  lemma OneRun<W(!new)>(rs: seq<Resource<W>>, s: Setting<W>, realm: W -> bool, w: W)
    requires Resumable(rs, s, realm) && realm(w) && !s.updating(w)
    ensures var o := Apply(rs, Captured, false, s, w);
            var t := Loop(rs, false, s, w, 0, 1);
            && o.world == t.world && o.calls == t.calls
            && o.result == (if t.end == Suspended then PendingRestart else Succeeded)
            && realm(o.world) && !s.updating(o.world)
            && realm(s.restart(o.world)) && !s.updating(s.restart(o.world))
            && (o.result == Succeeded ==> o.world == Straight(rs, s, w))
            && Straight(rs, s, w) == Apply(rs, Captured, false, s.(reboots := false), w).world
  {
    hide VisitOne, Resumable, Loop;
    InnerUnfolds(rs, Captured, false, s, w);
    InnerUnfolds(rs, Captured, false, s.(reboots := false), w);
    UnsuspendedFinishes(rs, s, realm, w, 0);
    InPlaceIsStraight(rs, s, realm, w, 0);
    RunStays(rs, s, realm, w, 0);
    RestartStays(s, realm, rs, Loop(rs, false, s, w, 0, 1).world);
  }

  lemma {:induction false} RunStays<W(!new)>(rs: seq<Resource<W>>, s: Setting<W>, realm: W -> bool, w: W, count: int)
    requires Resumable(rs, s, realm) && realm(w) && !s.updating(w)
    ensures var w' := Loop(rs, false, s, w, count, 1).world;
            realm(w') && !s.updating(w')
  {
    hide VisitOne, Resumable;
    if rs != [] {
      Alone(rs, s, realm);
      ResumableTail(rs, s, realm);
      CalmVisit(rs[0], s, realm, w);
      RunStays(rs[1..], s, realm, VisitOne(rs[0], false, s, w).world, count + 1);
    }
  }

  /** Over any number of runs with restarts between them, a settling resource is set at most once, and only if its test
      failed at the start. */
  lemma {:induction false} SetAtMostOnce<W(!new)>(n: nat, rs: seq<Resource<W>>, s: Setting<W>, realm: W -> bool, w: W, x: Resource<W>)
    requires Resumable(rs, s, realm) && Distinct(rs) && realm(w) && !s.updating(w)
    requires x in rs && Settles(x, realm, s.restart)
    ensures Sets(Reruns(n, rs, s, w).calls, x) <= ToDo(x, w) <= 1
  {
    hide Apply, Resumable, Keeps, Loop;
    if n > 0 {
      OneRun(rs, s, realm, w);
      OthersKeep(x, rs, s, realm);
      NeverThrowsIn(x, rs, s, realm);
      SetsAreSpent(x, rs, s, realm, w, 0);
      var o := Apply(rs, Captured, false, s, w);
      if o.result == PendingRestart {
        SetAtMostOnce(n - 1, rs, s, realm, s.restart(o.world), x);
        SetsAppend(o.calls, Reruns(n - 1, rs, s, s.restart(o.world)).calls, x);
      }
    }
  }

  /** After a suspended run and the restart: the same outcome lies ahead, with fewer restarts left. */
  lemma AfterSuspension<W(!new)>(rs: seq<Resource<W>>, s: Setting<W>, realm: W -> bool, w: W)
    requires Resumable(rs, s, realm) && realm(w) && !s.updating(w)
    requires forall r :: r in rs ==> !Nags(r, realm)
    requires Apply(rs, Captured, false, s, w).result == PendingRestart
    ensures var w' := s.restart(Apply(rs, Captured, false, s, w).world);
            RebootsLeft(rs, w') < RebootsLeft(rs, w) && Straight(rs, s, w') == Straight(rs, s, w)
  {
    hide Apply, Resumable, Nags, Loop;
    OneRun(rs, s, realm, w);
    SuspensionIsHarmless(rs, s, realm, w, 0);
    var r := SuspensionProgresses(rs, s, realm, w, 0);
    var w' := s.restart(Apply(rs, Captured, false, s, w).world);
    forall x | x in rs ensures ToDo(x, w') <= ToDo(x, w) { NothingUndone(x, rs, s, realm, w); }
    RebootsDrop(rs, w, w', r);
  }

  /** Re-running after each pending restart: within one run more than the restarts still due, it succeeds, in the world that
      one run reaches when the machine restarts in place. */
  lemma {:induction false} ResumedInstall<W(!new)>(n: nat, rs: seq<Resource<W>>, s: Setting<W>, realm: W -> bool, w: W)
    requires Resumable(rs, s, realm) && realm(w) && !s.updating(w)
    requires forall r :: r in rs ==> !Nags(r, realm)
    requires n > RebootsLeft(rs, w)
    ensures var end := Reruns(n, rs, s, w);
            && end.result == Succeeded
            && end.world == Apply(rs, Captured, false, s.(reboots := false), w).world
  {
    hide Apply, Resumable, Nags, Loop;
    OneRun(rs, s, realm, w);
    var o := Apply(rs, Captured, false, s, w);
    if o.result == PendingRestart {
      AfterSuspension(rs, s, realm, w);
      OneRun(rs, s, realm, s.restart(o.world));
      ResumedInstall(n - 1, rs, s, realm, s.restart(o.world));
    }
  }

  lemma {:induction false} NaggingSuspends<W(!new)>(rs: seq<Resource<W>>, s: Setting<W>, realm: W -> bool, w: W, count: int)
    requires Resumable(rs, s, realm) && realm(w) && !s.updating(w)
    requires exists a :: a in rs && Nags(a, realm)
    ensures Loop(rs, false, s, w, count, 1).end == Suspended
  {
    hide VisitOne, Resumable;
    var v := VisitOne(rs[0], false, s, w);
    Alone(rs, s, realm);
    ResumableTail(rs, s, realm);
    CalmVisit(rs[0], s, realm, w);
    if v.fate != MustReboot {
      var a :| a in rs && Nags(a, realm);
      assert a != rs[0] ==> a in rs[1..];
      NaggingSuspends(rs[1..], s, realm, v.world, count + 1);
    }
  }

  /** With an action that requires a reboot every run ends in a pending restart, so the install never finishes. */
  lemma {:induction false} NaggingNeverFinishes<W(!new)>(n: nat, rs: seq<Resource<W>>, s: Setting<W>, realm: W -> bool, w: W)
    requires Resumable(rs, s, realm) && realm(w) && !s.updating(w)
    requires exists a :: a in rs && Nags(a, realm)
    ensures Reruns(n, rs, s, w).result == PendingRestart
  {
    hide Apply, Resumable, Nags, Loop;
    if n > 0 {
      OneRun(rs, s, realm, w);
      NaggingSuspends(rs, s, realm, w, 0);
      NaggingNeverFinishes(n - 1, rs, s, realm, s.restart(Apply(rs, Captured, false, s, w).world));
    }
  }

  /** Re-running ends in success exactly when no action of the manifest requires a reboot. */
  lemma ResumeSucceedsExactly<W(!new)>(rs: seq<Resource<W>>, s: Setting<W>, realm: W -> bool, w: W)
    requires Resumable(rs, s, realm) && realm(w) && !s.updating(w)
    ensures (exists n: nat :: Reruns(n, rs, s, w).result == Succeeded)
       <==> (forall r :: r in rs ==> !Nags(r, realm))
  {
    hide Resumable, Reruns, Nags;
    if forall r :: r in rs ==> !Nags(r, realm) {
      ResumedInstall(RebootsLeft(rs, w) + 1, rs, s, realm, w);
    } else {
      forall n: nat ensures Reruns(n, rs, s, w).result != Succeeded {
        NaggingNeverFinishes(n, rs, s, realm, w);
      }
    }
  }

  // ---------------------------------------------------------------- running again without a restart

  /** What holds is not set. */
  lemma {:induction false} HeldIsNotSet<W(!new)>(x: Resource<W>, rs: seq<Resource<W>>, s: Setting<W>, realm: W -> bool, w: W, count: int)
    requires Resumable(rs, s, realm) && realm(w) && !s.updating(w)
    requires Settles(x, realm, s.restart) && x.test(w) == Answer(true)
    requires forall r :: r in rs ==> Keeps(r, x, realm, Now()) && Keeps(r, x, realm, s.restart)
    ensures Sets(Loop(rs, false, s, w, count, 1).calls, x) == 0
  {
    hide VisitOne, Resumable, Keeps;
    if rs != [] {
      var v := VisitOne(rs[0], false, s, w);
      assert rs[0] in rs && forall r :: r in rs[1..] ==> r in rs;
      Alone(rs, s, realm);
      ResumableTail(rs, s, realm);
      CalmVisit(rs[0], s, realm, w);
      VisitSets(x, rs[0], s, realm, w);
      VisitKeeps(x, rs[0], s, realm, w);
      HeldIsNotSet(x, rs[1..], s, realm, v.world, count + 1);
      SetsAppend(v.calls, Loop(rs[1..], false, s, v.world, count + 1, 1).calls, x);
    }
  }

  /** Calls of a loop start with those of its first visit. */
  lemma FirstCalls<W(!new)>(rs: seq<Resource<W>>, s: Setting<W>, w: W, count: int, x: Resource<W>)
    requires rs != []
    ensures var v := VisitOne(rs[0], false, s, w);
            var rest := Loop(rs[1..], false, s, v.world, count + 1, 1);
            Sets(Loop(rs, false, s, w, count, 1).calls, x) ==
              Sets(v.calls, x) + if v.fate == Passed || v.fate == Processed then Sets(rest.calls, x) else 0
  {
    hide VisitOne;
    var v := VisitOne(rs[0], false, s, w);
    SetsAppend(v.calls, Loop(rs[1..], false, s, v.world, count + 1, 1).calls, x);
  }

  /** If a suspended run has set something whose test still fails where it stopped, then running again from there, without a
      restart, sets some resource a second time. */
  lemma {:induction false} SetAgain<W(!new)>(rs: seq<Resource<W>>, s: Setting<W>, realm: W -> bool, w: W, x: Resource<W>,
                                             count: int, from: int) returns (y: Resource<W>)
    requires Resumable(rs, s, realm) && realm(w) && !s.updating(w)
    requires forall r :: r in rs ==> !Nags(r, realm)
    requires Loop(rs, false, s, w, count, 1).end == Suspended
    requires x in rs && Settles(x, realm, s.restart) && Sets(Loop(rs, false, s, w, count, 1).calls, x) > 0
    requires x.test(Loop(rs, false, s, w, count, 1).world) == Answer(false)
    ensures y in rs && Settles(y, realm, s.restart)
    ensures Sets(Loop(rs, false, s, w, count, 1).calls, y) > 0
    ensures Sets(Loop(rs, false, s, Loop(rs, false, s, w, count, 1).world, from, 1).calls, y) > 0
  {
    hide VisitOne, Resumable, Nags, Keeps, Sets, Settles;
    var r := rs[0];
    var v := VisitOne(r, false, s, w);
    var w1 := Loop(rs, false, s, w, count, 1).world;
    assert r in rs && forall q :: q in rs[1..] ==> q in rs;
    Alone(rs, s, realm);
    ResumableTail(rs, s, realm);
    CalmVisit(r, s, realm, w);
    RunStays(rs, s, realm, w, count);
    CalmVisit(r, s, realm, w1);
    FirstCalls(rs, s, w, count, x);
    VisitSets(x, r, s, realm, w);
    OthersKeep(r, rs, s, realm);
    NeverThrowsIn(r, rs, s, realm);
    KeptUntilRestart(r, rs, s, realm, w, count);
    if Settles(r, realm, s.restart) && r.test(w1) == Answer(false) {
      y := r;
      DueWhenUnmet(r, s, realm, w);
      DueWhenUnmet(r, s, realm, w1);
      FirstCalls(rs, s, w, count, y);
      FirstCalls(rs, s, w1, from, y);
      VisitSets(y, r, s, realm, w);
      VisitSets(y, r, s, realm, w1);
    } else {
      assert r != x;
      PassedOver(r, s, realm, w, w1);
      y := SetAgain(rs[1..], s, realm, v.world, x, count + 1, from + 1);
      FirstCalls(rs, s, w, count, y);
      FirstCalls(rs, s, w1, from, y);
    }
  }

  lemma DueWhenUnmet<W(!new)>(r: Resource<W>, s: Setting<W>, realm: W -> bool, w: W)
    requires Resumable([r], s, realm) && realm(w)
    ensures r.test(w) != Answer(true) ==> r.Due(w)
  {
    assert r in [r] && CalmAt(r, w);
  }

  /** A resource whose test holds where a run stopped, or a neutral one that does not nag, leaves that world alone. */
  lemma PassedOver<W(!new)>(r: Resource<W>, s: Setting<W>, realm: W -> bool, w: W, w1: W)
    requires Resumable([r], s, realm) && realm(w) && !s.updating(w) && realm(w1) && !s.updating(w1)
    requires !Nags(r, realm) && (Settles(r, realm, s.restart) ==> r.test(w1) != Answer(false))
    ensures var v1 := VisitOne(r, false, s, w1);
            v1.world == w1 && (v1.fate == Passed || v1.fate == Processed)
    ensures !Settles(r, realm, s.restart) ==> VisitOne(r, false, s, w).fate != MustReboot
  {
    assert r in [r] && CalmAt(r, w1);
    CalmVisit(r, s, realm, w);
    CalmVisit(r, s, realm, w1);
    if !Settles(r, realm, s.restart) {
      CalmNeutral(r, s, realm, w);
      CalmNeutral(r, s, realm, w1);
    }
  }

  /** Running again without a restart sets some resource a second time exactly when the suspended run has set one whose test
      still fails: one whose effect waits for the restart. */
  lemma RerunSetsAgainExactly<W(!new)>(rs: seq<Resource<W>>, s: Setting<W>, realm: W -> bool, w: W)
    requires Resumable(rs, s, realm) && realm(w) && !s.updating(w)
    requires forall r :: r in rs ==> !Nags(r, realm)
    requires Apply(rs, Captured, false, s, w).result == PendingRestart
    ensures var o := Apply(rs, Captured, false, s, w);
            var again := Apply(rs, Captured, false, s, o.world);
            ((exists x :: x in rs && Settles(x, realm, s.restart) && Sets(o.calls, x) > 0 && Sets(again.calls, x) > 0)
             <==> exists x :: x in rs && Settles(x, realm, s.restart) && Sets(o.calls, x) > 0 && x.test(o.world) == Answer(false))
  {
    hide Apply, Loop, Resumable, Nags, Settles, Sets, Keeps;
    var o := Apply(rs, Captured, false, s, w);
    OneRun(rs, s, realm, w);
    OneRun(rs, s, realm, o.world);
    var again := Apply(rs, Captured, false, s, o.world);
    if exists x :: x in rs && Settles(x, realm, s.restart) && Sets(o.calls, x) > 0 && Sets(again.calls, x) > 0 {
      var x :| x in rs && Settles(x, realm, s.restart) && Sets(o.calls, x) > 0 && Sets(again.calls, x) > 0;
      OthersKeep(x, rs, s, realm);
      NeverThrowsIn(x, rs, s, realm);
      assert CalmAt(x, o.world);
      if x.test(o.world) == Answer(true) { HeldIsNotSet(x, rs, s, realm, o.world, 0); }
    }
    if exists x :: x in rs && Settles(x, realm, s.restart) && Sets(o.calls, x) > 0 && x.test(o.world) == Answer(false) {
      var x :| x in rs && Settles(x, realm, s.restart) && Sets(o.calls, x) > 0 && x.test(o.world) == Answer(false);
      var y := SetAgain(rs, s, realm, w, x, 0, 0);
    }
  }
}
