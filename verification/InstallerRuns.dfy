/** Theorems about single installer runs: the desired state they reach, and rollback after a failed Set. */
module InstallerRuns {
  import opened Resources
  import opened Interpreter

  /** Every resource settles or is neutral, and neither leaves the realm nor turns a fresh install into an update. */
  ghost predicate Tame<W(!new)>(rs: seq<Resource<W>>, s: Setting<W>, realm: W -> bool, later: W -> W) {
    forall r :: r in rs ==> (Settles(r, realm, later) || Neutral(r, realm)) && KeepsFresh(r, s.updating, realm) && Stays(r, realm)
  }

  /** None of them spoils what another one has achieved. */
  ghost predicate Harmless<W(!new)>(rs: seq<Resource<W>>, realm: W -> bool, later: W -> W) {
    forall q, r :: q in rs && r in rs && q != r ==> Keeps(q, r, realm, later)
  }

  /** Every resource is lawful or neutral, and none of them spoils another one's test. */
  ghost predicate WellBehaved<W(!new)>(rs: seq<Resource<W>>, s: Setting<W>, realm: W -> bool) {
    && s.reboots
    && Tame(rs, s, realm, Now()) && Harmless(rs, realm, Now())
    && forall r :: r in rs ==> Lawful(r, realm) || Neutral(r, realm)
  }

  lemma LawfulSettles<W(!new)>(r: Resource<W>, realm: W -> bool)
    requires Lawful(r, realm)
    ensures Settles(r, realm, Now())
  {
    forall w | realm(w) ensures SettlesAt(r, Now(), w) {
      assert LawfulAt(r.test, r.set_, r.unset, w);
    }
  }

  lemma TameTail<W(!new)>(rs: seq<Resource<W>>, s: Setting<W>, realm: W -> bool, later: W -> W)
    requires rs != [] && Tame(rs, s, realm, later)
    ensures Tame(rs[1..], s, realm, later) && Tame([rs[0]], s, realm, later)
    ensures Harmless(rs, realm, later) ==> Harmless(rs[1..], realm, later)
  {
    assert rs[0] in rs;
    assert forall r :: r in rs[1..] ==> r in rs;
  }

  lemma WellBehavedTail<W(!new)>(rs: seq<Resource<W>>, s: Setting<W>, realm: W -> bool)
    requires rs != [] && WellBehaved(rs, s, realm)
    ensures WellBehaved(rs[1..], s, realm) && (Lawful(rs[0], realm) || Neutral(rs[0], realm))
  {
    TameTail(rs, s, realm, Now());
    assert rs[0] in rs;
    assert forall r :: r in rs[1..] ==> r in rs;
  }

  /** One resource of a fresh install: it leaves the world alone, or moves to a world where its test holds after `later`. */
  lemma FreshVisit<W(!new)>(r: Resource<W>, s: Setting<W>, realm: W -> bool, later: W -> W, w: W)
    requires Tame([r], s, realm, later) && s.reboots && realm(w) && !s.updating(w)
    ensures var v := VisitOne(r, false, s, w);
            && realm(v.world) && !s.updating(v.world)
            && (v.fate == MustReboot <==>
                  r.test(w).Answer? && r.Due(w) && r.set_(w).Done? && (r.RebootInManifest || r.set_(w).asks))
            && (v.fate == Broke || v.fate == Passed || Neutral(r, realm) ==> v.world == w)
            && (v.fate == Passed <==> r.test(w) == Answer(true) && !r.RunAlways)
            && (v.fate == Broke <==> r.test(w).ProbeThrew? || (r.Due(w) && r.set_(w).Threw?))
            && (v.fate == Processed || v.fate == MustReboot ==> r.set_(w).Done? && r.set_(w).world == v.world && r.Due(w))
            && ((v.fate == Processed || v.fate == MustReboot) && Settles(r, realm, later) ==>
                  r.test(w) == Answer(false) && r.test(later(v.world)) == Answer(true))
            && (v.fate == Processed ==> !r.RebootInManifest)
            && v.calls == (if v.reported then [TestCall(r), SetCall(r)] else [TestCall(r)])
            && (v.reported ==> r.Due(w))
            && (v.fate == Processed || v.fate == MustReboot ==> v.reported)
  {
    assert r in [r];
    assert FreshAt(r, s.updating, w) && StaysAt(r, realm, w);
    if Settles(r, realm, later) { assert SettlesAt(r, later, w); }
    if Neutral(r, realm) { assert NeutralAt(r, w); }
  }

  /** Undoing a resource that a fresh visit processed leads back to the world before. */
  lemma LawfulVisit<W(!new)>(r: Resource<W>, s: Setting<W>, realm: W -> bool, w: W)
    requires Tame([r], s, realm, Now()) && s.reboots && realm(w) && !s.updating(w)
    requires Lawful(r, realm)
    requires VisitOne(r, false, s, w).fate == Processed || VisitOne(r, false, s, w).fate == MustReboot
    ensures var w' := VisitOne(r, false, s, w).world;
            r.test(w) == Answer(false) && r.test(w') == Answer(true) && r.unset(w') == Done(w, false)
  {
    FreshVisit(r, s, realm, Now(), w);
    assert LawfulAt(r.test, r.set_, r.unset, w);
  }

  /** What holds, or will hold later, goes on doing so while a fresh install runs. */
  lemma {:induction false} HoldsOnward<W(!new)>(x: Resource<W>, rs: seq<Resource<W>>, s: Setting<W>, realm: W -> bool,
                                                later: W -> W, hold: W -> W, w: W, count: int)
    requires Tame(rs, s, realm, later) && s.reboots && realm(w) && !s.updating(w)
    requires x.test(hold(w)) == Answer(true)
    requires forall r :: r in rs ==> Keeps(r, x, realm, hold)
    ensures x.test(hold(Loop(rs, false, s, w, count, 1).world)) == Answer(true)
  {
    hide VisitOne;
    if rs != [] {
      var v := VisitOne(rs[0], false, s, w);
      TameTail(rs, s, realm, later);
      FreshVisit(rs[0], s, realm, later, w);
      assert rs[0] in rs && KeepsAt(rs[0], x, hold, w);
      assert forall r :: r in rs[1..] ==> r in rs;
      if v.fate == Passed || v.fate == Processed {
        HoldsOnward(x, rs[1..], s, realm, later, hold, v.world, count + 1);
      }
    }
  }

  /** A resource does not spoil what it achieves itself. */
  lemma SelfKeeps<W(!new)>(x: Resource<W>, realm: W -> bool, later: W -> W)
    requires Settles(x, realm, later) || Neutral(x, realm)
    ensures Keeps(x, x, realm, later)
  {
    forall w | realm(w) ensures KeepsAt(x, x, later, w) {
      if Settles(x, realm, later) { assert SettlesAt(x, later, w); } else { assert NeutralAt(x, w); }
    }
  }

  lemma AllKeep<W(!new)>(x: Resource<W>, rs: seq<Resource<W>>, s: Setting<W>, realm: W -> bool, later: W -> W)
    requires x in rs && Tame(rs, s, realm, later) && Harmless(rs, realm, later)
    ensures forall r :: r in rs ==> Keeps(r, x, realm, later)
  {
    SelfKeeps(x, realm, later);
  }

  // ---------------------------------------------------------------- the desired state

  /** Where a fresh install stops, all it has left behind holds, or will hold later; when it finishes this is every
      resource that settles. */
  lemma {:induction false} Settled<W(!new)>(rs: seq<Resource<W>>, s: Setting<W>, realm: W -> bool, later: W -> W, w: W, count: int)
    requires Tame(rs, s, realm, later) && Harmless(rs, realm, later) && s.reboots && realm(w) && !s.updating(w)
    requires forall r :: r in rs ==> Survives(r, later, realm)
    ensures var t := Loop(rs, false, s, w, count, 1);
            && realm(t.world) && !s.updating(t.world)
            && (forall r :: r in t.processed ==> r in rs)
            && (forall r :: r in t.processed && Settles(r, realm, later) ==> r.test(later(t.world)) == Answer(true))
            && (t.end == Finished ==> forall r :: r in rs && Settles(r, realm, later) ==> r.test(later(t.world)) == Answer(true))
  {
    hide VisitOne;
    if rs != [] {
      var r := rs[0];
      var v := VisitOne(r, false, s, w);
      TameTail(rs, s, realm, later);
      FreshVisit(r, s, realm, later, w);
      assert r in rs && forall q :: q in rs[1..] ==> q in rs;
      if v.fate == Passed || v.fate == Processed {
        Settled(rs[1..], s, realm, later, v.world, count + 1);
        if Settles(r, realm, later) {
          assert SurvivesAt(r, later, w);
          AllKeep(r, rs, s, realm, later);
          HoldsOnward(r, rs[1..], s, realm, later, later, v.world, count + 1);
        }
      }
    }
  }

  lemma NowSurvives<W(!new)>(rs: seq<Resource<W>>, realm: W -> bool)
    ensures forall r :: r in rs ==> Survives(r, Now(), realm)
  {
    forall r | r in rs ensures Survives(r, Now(), realm) {
      forall w | realm(w) ensures SurvivesAt(r, Now(), w) {}
    }
  }

  /** A fresh install that finishes leaves every resource that settles in its desired state: at once (`later` is `Now`)
      or, when its effect waits for a restart, after the next one. */
  lemma InstallReachesDesiredState<W(!new)>(rs: seq<Resource<W>>, s: Setting<W>, realm: W -> bool, later: W -> W, w: W)
    requires Tame(rs, s, realm, later) && Harmless(rs, realm, later) && s.reboots && realm(w) && !s.updating(w)
    requires forall r :: r in rs ==> Survives(r, later, realm)
    requires Apply(rs, Captured, false, s, w).result == Succeeded
    ensures forall r :: r in rs && Settles(r, realm, later) ==>
              r.test(later(Apply(rs, Captured, false, s, w).world)) == Answer(true)
  {
    InnerUnfolds(rs, Captured, false, s, w);
    Settled(rs, s, realm, later, w, 0);
  }

  /** In an install, resources whose tests hold are only asked. */
  lemma {:induction false} SatisfiedAreSkipped<W(!new)>(rs: seq<Resource<W>>, s: Setting<W>, w: W, count: int, modifier: int)
    requires !s.updating(w)
    requires forall r :: r in rs ==> !r.RunAlways && r.test(w) == Answer(true)
    ensures var t := Loop(rs, false, s, w, count, modifier);
            t.world == w && t.end == Finished && forall i :: 0 <= i < |t.calls| ==> t.calls[i].TestCall?
  {
    if rs != [] {
      assert rs[0] in rs;
      assert forall r :: r in rs[1..] ==> r in rs;
      SatisfiedAreSkipped(rs[1..], s, w, count + modifier, modifier);
    }
  }

  /** Installing again calls no Set and no Unset, and changes nothing. */
  lemma SecondInstallDoesNothing<W(!new)>(rs: seq<Resource<W>>, s: Setting<W>, realm: W -> bool, w: W)
    requires WellBehaved(rs, s, realm) && realm(w) && !s.updating(w)
    requires forall r :: r in rs ==> Lawful(r, realm)
    requires Apply(rs, Captured, false, s, w).result == Succeeded
    ensures var installed := Apply(rs, Captured, false, s, w).world;
            var again := Apply(rs, Captured, false, s, installed);
            && again.result == Succeeded && again.world == installed
            && forall i :: 0 <= i < |again.calls| ==> again.calls[i].TestCall?
  {
    hide Loop;
    InnerUnfolds(rs, Captured, false, s, w);
    NowSurvives(rs, realm);
    Settled(rs, s, realm, Now(), w, 0);
    forall r | r in rs ensures Settles(r, realm, Now()) { LawfulSettles(r, realm); }
    var installed := Loop(rs, false, s, w, 0, 1).world;
    InnerUnfolds(rs, Captured, false, s, installed);
    SatisfiedAreSkipped(rs, s, installed, 0, 1);
  }

  // ---------------------------------------------------------------- rollback

  /** Running `a + b` is running `a` and, if that finishes, `b` from where it ended. */
  lemma {:induction false} LoopAppend<W(!new)>(a: seq<Resource<W>>, b: seq<Resource<W>>, uninstall: bool, s: Setting<W>,
                                               w: W, count: int, modifier: int)
    requires Loop(a, uninstall, s, w, count, modifier).end == Finished
    ensures var first := Loop(a, uninstall, s, w, count, modifier);
            var whole := Loop(a + b, uninstall, s, w, count, modifier);
            var second := Loop(b, uninstall, s, first.world, first.count, modifier);
            whole.world == second.world && whole.end == second.end
  {
    hide VisitOne;
    if a == [] {
      assert a + b == b;
    } else {
      var v := VisitOne(a[0], uninstall, s, w);
      assert (a + b)[1..] == a[1..] + b && (a + b)[0] == a[0];
      LoopAppend(a[1..], b, uninstall, s, v.world, count + modifier, modifier);
    }
  }

  /** The calls of a loop: those of its first visit, then those of the rest, if it goes on. */
  lemma CallsOfLoop<W>(rs: seq<Resource<W>>, uninstall: bool, s: Setting<W>, w: W, count: int, modifier: int)
    requires rs != []
    ensures var v := VisitOne(rs[0], uninstall, s, w);
            var rest := Loop(rs[1..], uninstall, s, v.world, count + modifier, modifier);
            var t := Loop(rs, uninstall, s, w, count, modifier);
            if v.fate == Passed || v.fate == Processed then
              t.calls == v.calls + rest.calls && t.end == rest.end && t.world == rest.world && t.count == rest.count
            else t.calls == v.calls && t.end != Finished
  {
    hide VisitOne, ReportsOf;
  }

  lemma {:induction false} LoopAppendCalls<W(!new)>(a: seq<Resource<W>>, b: seq<Resource<W>>, uninstall: bool, s: Setting<W>,
                                                    w: W, count: int, modifier: int)
    requires Loop(a, uninstall, s, w, count, modifier).end == Finished
    ensures var first := Loop(a, uninstall, s, w, count, modifier);
            var second := Loop(b, uninstall, s, first.world, first.count, modifier);
            Loop(a + b, uninstall, s, w, count, modifier).calls == first.calls + second.calls
  {
    if a == [] {
      assert a + b == b;
    } else {
      hide VisitOne, Loop;
      var v := VisitOne(a[0], uninstall, s, w);
      assert (a + b)[1..] == a[1..] + b && (a + b)[0] == a[0];
      CallsOfLoop(a, uninstall, s, w, count, modifier);
      CallsOfLoop(a + b, uninstall, s, w, count, modifier);
      LoopAppendCalls(a[1..], b, uninstall, s, v.world, count + modifier, modifier);
      var rest := Loop(a[1..], uninstall, s, v.world, count + modifier, modifier);
      Associates(v.calls, rest.calls, Loop(b, uninstall, s, rest.world, rest.count, modifier).calls);
    }
  }

  lemma ReverseCons<T>(x: T, xs: seq<T>)
    ensures Reverse([x] + xs) == Reverse(xs) + [x]
  {
    assert ([x] + xs)[1..] == xs;
  }

  /** Undoing one resource right after a fresh visit processed it leads back to the world before. */
  lemma UndoOne<W(!new)>(r: Resource<W>, s: Setting<W>, realm: W -> bool, w: W, count: int, modifier: int)
    requires WellBehaved([r], s, realm) && realm(w) && !s.updating(w)
    requires VisitOne(r, false, s, w).fate == Processed
    ensures var back := Loop([r], true, s, VisitOne(r, false, s, w).world, count, modifier);
            back.world == w && back.end == Finished
  {
    assert r in [r];
    FreshVisit(r, s, realm, Now(), w);
    if Lawful(r, realm) { LawfulVisit(r, s, realm, w); } else { assert NeutralAt(r, w); }
    var w' := VisitOne(r, false, s, w).world;
    var v := VisitOne(r, true, s, w');
    assert v.world == w && (v.fate == Passed || v.fate == Processed);
    assert Loop([r], true, s, w', count, modifier) ==
           Continue(r, v, ReportsOf(v, s, count), count, Loop([], true, s, w, count + modifier, modifier));
  }

  /** However far a fresh install gets, undoing what it processed, last first, restores the world it started in. */
  lemma {:induction false} UndoProcessed<W(!new)>(rs: seq<Resource<W>>, s: Setting<W>, realm: W -> bool, w: W,
                                                  count: int, from: int, modifier: int)
    requires WellBehaved(rs, s, realm) && realm(w) && !s.updating(w)
    requires Loop(rs, false, s, w, count, 1).end != Suspended
    ensures var t := Loop(rs, false, s, w, count, 1);
            var back := Loop(Reverse(t.processed), true, s, t.world, from, modifier);
            back.world == w && back.end == Finished
  {
    hide VisitOne;
    if rs != [] {
      var v := VisitOne(rs[0], false, s, w);
      WellBehavedTail(rs, s, realm);
      TameTail(rs, s, realm, Now());
      FreshVisit(rs[0], s, realm, Now(), w);
      if v.fate == Passed {
        UndoProcessed(rs[1..], s, realm, w, count + 1, from, modifier);
      } else if v.fate == Processed {
        UndoProcessed(rs[1..], s, realm, v.world, count + 1, from, modifier);
        var rest := Loop(rs[1..], false, s, v.world, count + 1, 1);
        var back := Loop(Reverse(rest.processed), true, s, rest.world, from, modifier);
        LoopAppend(Reverse(rest.processed), [rs[0]], true, s, rest.world, from, modifier);
        ReverseCons(rs[0], rest.processed);
        UndoOne(rs[0], s, realm, w, back.count, modifier);
      }
    }
  }

  /** With the mode taken from the context that is passed, a rollback restores the starting world. */
  lemma RollbackRestores<W(!new)>(rs: seq<Resource<W>>, s: Setting<W>, realm: W -> bool, w: W)
    requires WellBehaved(rs, s, realm) && realm(w) && !s.updating(w)
    requires Apply(rs, Given, false, s, w).result == RolledBack
    ensures Apply(rs, Given, false, s, w).world == w
  {
    hide Loop;
    InnerUnfolds(rs, Given, false, s, w);
    var t := Loop(rs, false, s, w, 0, 1);
    UndoProcessed(rs, s, realm, w, 0, t.count, -1);
  }

  ghost predicate AllHold<W>(rs: seq<Resource<W>>, k: nat, w: W)
    requires k <= |rs|
  {
    forall i :: 0 <= i < k ==> rs[i].test(w) == Answer(true)
  }

  /** The first resource that is not already in its desired state is one whose Test or Set throws. */
  ghost predicate FirstUnmetThrows<W>(rs: seq<Resource<W>>, s: Setting<W>, w: W) {
    exists i :: 0 <= i < |rs| && AllHold(rs, i, w) && VisitOne(rs[i], false, s, w).fate == Broke
  }

  lemma FirstUnmetCons<W>(rs: seq<Resource<W>>, s: Setting<W>, w: W)
    requires rs != [] && !s.updating(w) && !rs[0].RunAlways
    ensures FirstUnmetThrows(rs, s, w) <==>
              VisitOne(rs[0], false, s, w).fate == Broke || (rs[0].test(w) == Answer(true) && FirstUnmetThrows(rs[1..], s, w))
  {
    hide VisitOne;
    var tail := rs[1..];
    if VisitOne(rs[0], false, s, w).fate == Broke {
      assert AllHold(rs, 0, w);
    }
    if rs[0].test(w) == Answer(true) && FirstUnmetThrows(tail, s, w) {
      var i :| 0 <= i < |tail| && AllHold(tail, i, w) && VisitOne(tail[i], false, s, w).fate == Broke;
      assert AllHold(rs, i + 1, w) by {
        forall j | 0 <= j < i + 1 ensures rs[j].test(w) == Answer(true) { if j > 0 { assert rs[j] == tail[j - 1]; } }
      }
      assert rs[i + 1] == tail[i];
    }
    if FirstUnmetThrows(rs, s, w) {
      var i :| 0 <= i < |rs| && AllHold(rs, i, w) && VisitOne(rs[i], false, s, w).fate == Broke;
      if i > 0 {
        assert rs[0].test(w) == Answer(true);
        assert AllHold(tail, i - 1, w) by {
          forall j | 0 <= j < i - 1 ensures tail[j].test(w) == Answer(true) { assert tail[j] == rs[j + 1]; }
        }
        assert tail[i - 1] == rs[i];
      }
    }
  }

  /** A fresh install raises with nothing processed exactly when the first resource not already in its desired state throws. */
  lemma {:induction false} NothingProcessed<W(!new)>(rs: seq<Resource<W>>, s: Setting<W>, w: W, count: int)
    requires !s.updating(w) && forall r :: r in rs ==> !r.RunAlways
    ensures var t := Loop(rs, false, s, w, count, 1);
            t.end == Raised && t.processed == [] <==> FirstUnmetThrows(rs, s, w)
  {
    hide FirstUnmetThrows;
    if rs == [] {
      NothingUnmet(rs, s, w);
    } else {
      FirstUnmetCons(rs, s, w);
      assert rs[0] in rs && forall r :: r in rs[1..] ==> r in rs;
      if VisitOne(rs[0], false, s, w).fate == Passed {
        NothingProcessed(rs[1..], s, w, count + 1);
      }
    }
  }

  lemma NothingUnmet<W>(rs: seq<Resource<W>>, s: Setting<W>, w: W)
    requires rs == []
    ensures !FirstUnmetThrows(rs, s, w)
  {}

  /** What a fresh install processes first was not in its desired state at the start; what it passes leaves the world alone. */
  lemma {:induction false} FirstProcessed<W(!new)>(rs: seq<Resource<W>>, s: Setting<W>, realm: W -> bool, w: W, count: int)
    requires Tame(rs, s, realm, Now()) && s.reboots && realm(w) && !s.updating(w)
    requires forall r :: r in rs ==> Lawful(r, realm)
    ensures var t := Loop(rs, false, s, w, count, 1);
            if t.processed == [] then t.end == Raised || t.end == Finished ==> t.world == w
            else t.processed[0] in rs && t.processed[0].test(w) == Answer(false)
  {
    hide VisitOne;
    if rs != [] {
      var v := VisitOne(rs[0], false, s, w);
      TameTail(rs, s, realm, Now());
      FreshVisit(rs[0], s, realm, Now(), w);
      assert rs[0] in rs && forall r :: r in rs[1..] ==> r in rs;
      LawfulSettles(rs[0], realm);
      if v.fate == Passed { FirstProcessed(rs[1..], s, realm, w, count + 1); }
    }
  }

  /** As written, the rollback decides on the captured context: it calls no Set and no Unset and leaves the world as
      the failed install left it. */
  lemma RollbackOnlyTests<W(!new)>(rs: seq<Resource<W>>, s: Setting<W>, realm: W -> bool, w: W)
    requires WellBehaved(rs, s, realm) && realm(w) && !s.updating(w)
    requires forall r :: r in rs ==> Lawful(r, realm)
    requires Apply(rs, Captured, false, s, w).result == RolledBack
    ensures var o := Apply(rs, Captured, false, s, w);
            var t := Loop(rs, false, s, w, 0, 1);
            && t.end == Raised && o.world == t.world && t.calls <= o.calls
            && (forall i :: |t.calls| <= i < |o.calls| ==> o.calls[i].TestCall?)
            && (forall r :: r in t.processed ==> r.test(t.world) == Answer(true))
  {
    hide VisitOne, Loop;
    InnerUnfolds(rs, Captured, false, s, w);
    var t := Loop(rs, false, s, w, 0, 1);
    NowSurvives(rs, realm);
    Settled(rs, s, realm, Now(), w, 0);
    ReverseKeeps(t.processed);
    forall r | r in t.processed ensures !r.RunAlways && r.test(t.world) == Answer(true) {
      LawfulSettles(r, realm);
    }
    SatisfiedAreSkipped(Reverse(t.processed), s, t.world, t.count, -1);
  }

  /** So as written a rollback restores the starting world exactly when there is nothing to undo: when the first resource
      that was not already in its desired state is the one that throws. */
  lemma RollbackAsWritten<W(!new)>(rs: seq<Resource<W>>, s: Setting<W>, realm: W -> bool, w: W)
    requires WellBehaved(rs, s, realm) && realm(w) && !s.updating(w)
    requires forall r :: r in rs ==> Lawful(r, realm)
    requires Apply(rs, Captured, false, s, w).result == RolledBack
    ensures Apply(rs, Captured, false, s, w).world == w <==> FirstUnmetThrows(rs, s, w)
  {
    hide VisitOne, Loop, Apply, FirstUnmetThrows;
    RollbackOnlyTests(rs, s, realm, w);
    NothingProcessed(rs, s, w, 0);
    FirstProcessed(rs, s, realm, w, 0);
    var t := Loop(rs, false, s, w, 0, 1);
    if t.processed != [] {
      assert t.processed[0] in t.processed;
    }
  }
}
