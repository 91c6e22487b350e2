/** Runs seen resource by resource, and in particular those that update an installed version. */
module Updates {
  import opened Resources
  import opened Interpreter
  import opened InstallerRuns

  // ---------------------------------------------------------------- a run resource by resource

  lemma {:induction false} PrefixFinishes<W(!new)>(a: seq<Resource<W>>, b: seq<Resource<W>>, uninstall: bool, s: Setting<W>,
                                                   w: W, count: int, modifier: int)
    requires Loop(a + b, uninstall, s, w, count, modifier).end == Finished
    ensures Loop(a, uninstall, s, w, count, modifier).end == Finished
  {
    hide VisitOne;
    if a != [] {
      var v := VisitOne(a[0], uninstall, s, w);
      assert (a + b)[1..] == a[1..] + b && (a + b)[0] == a[0];
      PrefixFinishes(a[1..], b, uninstall, s, v.world, count + modifier, modifier);
    }
  }

  lemma VisitCallsOwn<W>(r: Resource<W>, uninstall: bool, s: Setting<W>, w: W)
    ensures forall c :: c in VisitOne(r, uninstall, s, w).calls ==> c.r == r
  {}

  lemma {:induction false} CallsAreOf<W>(rs: seq<Resource<W>>, uninstall: bool, s: Setting<W>, w: W, count: int, modifier: int)
    ensures forall c :: c in Loop(rs, uninstall, s, w, count, modifier).calls ==> c.r in rs
  {
    hide VisitOne;
    if rs != [] {
      var v := VisitOne(rs[0], uninstall, s, w);
      VisitCallsOwn(rs[0], uninstall, s, w);
      CallsAreOf(rs[1..], uninstall, s, v.world, count + modifier, modifier);
    }
  }

  /** The world in which a run reaches its resource number `i`. */
  function Reached<W>(rs: seq<Resource<W>>, i: nat, uninstall: bool, s: Setting<W>, w: W): W
    requires i <= |rs|
  {
    Loop(rs[..i], uninstall, s, w, 0, 1).world
  }

  /** The calls of resource `r` are these, one right after the other. */
  ghost predicate OwnCalls<W>(calls: seq<Call<W>>, r: Resource<W>, own: seq<Call<W>>) {
    exists k :: OwnCallsFrom(calls, r, own, k)
  }

  ghost predicate OwnCallsFrom<W>(calls: seq<Call<W>>, r: Resource<W>, own: seq<Call<W>>, k: nat) {
    && k + |own| <= |calls| && calls[k..k + |own|] == own
    && forall j :: 0 <= j < |calls| ==> (calls[j].r == r <==> k <= j < k + |own|)
  }

  lemma HeadOfLoop<W(!new)>(r: Resource<W>, tail: seq<Resource<W>>, uninstall: bool, s: Setting<W>, w: W, count: int)
    ensures var t := Loop([r] + tail, uninstall, s, w, count, 1);
            var v := VisitOne(r, uninstall, s, w);
            var rest := Loop(tail, uninstall, s, v.world, count + 1, 1);
            && (t.end == Finished ==> (v.fate == Passed || v.fate == Processed) && t.calls == v.calls + rest.calls && t.world == rest.world)
            && (tail == [] ==> rest.world == v.world && rest.end == Finished)
            && (v.fate == Passed || v.fate == Processed ==> t.world == rest.world && t.end == rest.end)
            && (v.fate == Broke ==> t.end == Raised) && (v.fate == MustReboot ==> t.end == Suspended)
  {
    hide VisitOne, ReportsOf;
    assert ([r] + tail)[1..] == tail;
  }

  /** A successful run at its resource number `i`: the calls are those of this visit, the world moves on as it does. */
  lemma SuccessAt<W(!new)>(rs: seq<Resource<W>>, i: nat, reading: Reading, uninstall: bool, s: Setting<W>, w: W)
    requires Distinct(rs) && i < |rs| && Apply(rs, reading, uninstall, s, w).result == Succeeded
    ensures var v := VisitOne(rs[i], uninstall, s, Reached(rs, i, uninstall, s, w));
            && (v.fate == Passed || v.fate == Processed)
            && Reached(rs, i + 1, uninstall, s, w) == v.world
            && OwnCalls(Apply(rs, reading, uninstall, s, w).calls, rs[i], v.calls)
  {
    hide VisitOne, Inner;
    var before, after := rs[..i], rs[i + 1..];
    InnerUnfolds(rs, reading, uninstall, s, w);
    assert rs == before + ([rs[i]] + after) && rs[..i + 1] == before + [rs[i]];
    PrefixFinishes(before, [rs[i]] + after, uninstall, s, w, 0, 1);
    LoopAppend(before, [rs[i]] + after, uninstall, s, w, 0, 1);
    LoopAppendCalls(before, [rs[i]] + after, uninstall, s, w, 0, 1);
    LoopAppend(before, [rs[i]], uninstall, s, w, 0, 1);
    var first := Loop(before, uninstall, s, w, 0, 1);
    var v := VisitOne(rs[i], uninstall, s, first.world);
    var rest := Loop(after, uninstall, s, v.world, first.count + 1, 1);
    HeadOfLoop(rs[i], after, uninstall, s, first.world, first.count);
    HeadOfLoop(rs[i], [], uninstall, s, first.world, first.count);
    assert [rs[i]] + [] == [rs[i]];
    hide Loop;
    CallsAreOf(before, uninstall, s, w, 0, 1);
    CallsAreOf(after, uninstall, s, v.world, first.count + 1, 1);
    VisitCallsOwn(rs[i], uninstall, s, first.world);
    assert rs[i] !in before && rs[i] !in after;
    OwnInTheMiddle(first.calls, v.calls, rest.calls, rs[i]);
  }

  lemma OwnInTheMiddle<W>(a: seq<Call<W>>, own: seq<Call<W>>, b: seq<Call<W>>, r: Resource<W>)
    requires (forall c :: c in a ==> c.r != r) && (forall c :: c in own ==> c.r == r) && (forall c :: c in b ==> c.r != r)
    ensures OwnCalls(a + (own + b), r, own)
  {
    var all, k := a + (own + b), |a|;
    assert all[k..k + |own|] == own;
    forall j | 0 <= j < |all| ensures all[j].r == r <==> k <= j < k + |own| {
      if j < k { assert all[j] in a; } else if j < k + |own| { assert all[j] in own; } else { assert all[j] in b; }
    }
    assert OwnCallsFrom(all, r, own, k);
  }

  // ---------------------------------------------------------------- what runs do to each resource

  /** A fresh install that succeeds sets a resource once if its test fails or it is forced to run, and only asks it otherwise. */
  lemma InstallTreats<W(!new)>(rs: seq<Resource<W>>, i: nat, s: Setting<W>, w: W)
    requires Distinct(rs) && i < |rs| && Apply(rs, Captured, false, s, w).result == Succeeded
    requires s.reboots && !s.updating(Reached(rs, i, false, s, w))
    ensures var r, u, u' := rs[i], Reached(rs, i, false, s, w), Reached(rs, i + 1, false, s, w);
            var calls := Apply(rs, Captured, false, s, w).calls;
            && r.test(u).Answer?
            && (r.RunAlways || r.test(u) == Answer(false) ==>
                  OwnCalls(calls, r, [TestCall(r), SetCall(r)]) && r.set_(u).Done? && u' == r.set_(u).world)
            && (!r.RunAlways && r.test(u) == Answer(true) ==> OwnCalls(calls, r, [TestCall(r)]) && u' == u)
  {
    hide Apply, OwnCalls, Reached, VisitOne;
    SuccessAt(rs, i, Captured, false, s, w);
    InstallVisitTreats(rs[i], s, Reached(rs, i, false, s, w));
  }

  lemma InstallVisitTreats<W>(r: Resource<W>, s: Setting<W>, u: W)
    requires s.reboots && !s.updating(u)
    requires VisitOne(r, false, s, u).fate == Passed || VisitOne(r, false, s, u).fate == Processed
    ensures var v := VisitOne(r, false, s, u);
            && r.test(u).Answer?
            && (r.RunAlways || r.test(u) == Answer(false) ==>
                  v.calls == [TestCall(r), SetCall(r)] && r.set_(u).Done? && v.world == r.set_(u).world)
            && (!r.RunAlways && r.test(u) == Answer(true) ==> v.calls == [TestCall(r)] && v.world == u)
  {}

  /** An uninstall that succeeds unsets a resource once if its test holds or it is forced to run, and only asks it otherwise. */
  lemma UninstallTreats<W(!new)>(rs: seq<Resource<W>>, i: nat, s: Setting<W>, w: W)
    requires Distinct(rs) && i < |rs| && Apply(rs, Captured, true, s, w).result == Succeeded
    requires s.reboots
    ensures var r, u, u' := rs[i], Reached(rs, i, true, s, w), Reached(rs, i + 1, true, s, w);
            var calls := Apply(rs, Captured, true, s, w).calls;
            && r.test(u).Answer?
            && (r.RunAlways || r.test(u) == Answer(true) ==>
                  OwnCalls(calls, r, [TestCall(r), UnsetCall(r)]) && r.unset(u).Done? && u' == r.unset(u).world)
            && (!r.RunAlways && r.test(u) == Answer(false) ==> OwnCalls(calls, r, [TestCall(r)]) && u' == u)
  {
    hide Apply, OwnCalls, Reached, VisitOne;
    SuccessAt(rs, i, Captured, true, s, w);
    UninstallVisitTreats(rs[i], s, Reached(rs, i, true, s, w));
  }

  lemma UninstallVisitTreats<W>(r: Resource<W>, s: Setting<W>, u: W)
    requires s.reboots
    requires VisitOne(r, true, s, u).fate == Passed || VisitOne(r, true, s, u).fate == Processed
    ensures var v := VisitOne(r, true, s, u);
            && r.test(u).Answer?
            && (r.RunAlways || r.test(u) == Answer(true) ==>
                  v.calls == [TestCall(r), UnsetCall(r)] && r.unset(u).Done? && v.world == r.unset(u).world)
            && (!r.RunAlways && r.test(u) == Answer(false) ==> v.calls == [TestCall(r)] && v.world == u)
  {}

  /** Where a fresh install reaches a resource whose Test throws, or whose Set is due and throws, it is rolled back; where one that
      it sets asks for a reboot, it ends with a pending restart. */
  lemma InstallStopsAt<W(!new)>(rs: seq<Resource<W>>, i: nat, s: Setting<W>, w: W)
    requires i < |rs| && Loop(rs[..i], false, s, w, 0, 1).end == Finished
    requires s.reboots && !s.updating(Reached(rs, i, false, s, w))
    ensures var r, u := rs[i], Reached(rs, i, false, s, w);
            var o := Apply(rs, Captured, false, s, w);
            && (r.test(u).ProbeThrew? || (r.Due(u) && r.set_(u).Threw?) ==> o.result == RolledBack)
            && (r.test(u).Answer? && r.Due(u) && r.set_(u).Done? && (r.RebootInManifest || r.set_(u).asks) ==>
                  o.result == PendingRestart && o.pending && o.world == r.set_(u).world)
  {
    var before, after := rs[..i], rs[i + 1..];
    assert rs == before + ([rs[i]] + after);
    var first := Loop(before, false, s, w, 0, 1);
    LoopAppend(before, [rs[i]] + after, false, s, w, 0, 1);
    HeadOfLoop(rs[i], after, false, s, first.world, first.count);
    InnerUnfolds(rs, Captured, false, s, w);
    StopsWhere(rs[i], after, false, s, first.world, first.count);
  }

  /** Where an uninstall reaches a resource whose Test throws, or whose Unset is due and throws, it fails; where one that it unsets
      asks for a reboot, it ends with a pending restart. */
  lemma UninstallStopsAt<W(!new)>(rs: seq<Resource<W>>, i: nat, s: Setting<W>, w: W)
    requires i < |rs| && Loop(rs[..i], true, s, w, 0, 1).end == Finished && s.reboots
    ensures var r, u := rs[i], Reached(rs, i, true, s, w);
            var o := Apply(rs, Captured, true, s, w);
            var due := r.RunAlways || r.test(u) == Answer(true);
            && (r.test(u).ProbeThrew? || (due && r.unset(u).Threw?) ==> o.result == Failed)
            && (r.test(u).Answer? && due && r.unset(u).Done? && (r.RebootInManifest || r.unset(u).asks) ==>
                  o.result == PendingRestart && o.pending && o.world == r.unset(u).world)
  {
    var before, after := rs[..i], rs[i + 1..];
    assert rs == before + ([rs[i]] + after);
    var first := Loop(before, true, s, w, 0, 1);
    LoopAppend(before, [rs[i]] + after, true, s, w, 0, 1);
    HeadOfLoop(rs[i], after, true, s, first.world, first.count);
    InnerUnfolds(rs, Captured, true, s, w);
    StopsWhere(rs[i], after, true, s, first.world, first.count);
  }

  /** Where an update reaches a resource whose Test throws, or of which a call that is due throws, it is rolled back; where a call
      asks for a reboot, be it the Unset before the Set, it ends with a pending restart after the Set. */
  lemma UpdateStopsAt<W(!new)>(rs: seq<Resource<W>>, i: nat, s: Setting<W>, w: W)
    requires i < |rs| && Loop(rs[..i], false, s, w, 0, 1).end == Finished
    requires s.reboots && s.updating(Reached(rs, i, false, s, w))
    ensures var r, u := rs[i], Reached(rs, i, false, s, w);
            var o := Apply(rs, Captured, false, s, w);
            && (r.test(u).ProbeThrew? ==> o.result == RolledBack)
            && (r.test(u).Answer? && (r.RunAlways || (r.OnUpdate != Skip && r.test(u) == Answer(false))) ==>
                  && (r.set_(u).Threw? ==> o.result == RolledBack)
                  && (r.set_(u).Done? && (r.RebootInManifest || r.set_(u).asks) ==>
                        o.result == PendingRestart && o.pending && o.world == r.set_(u).world))
            && (!r.RunAlways && r.OnUpdate == Install && r.test(u) == Answer(true) ==>
                  var gone := r.unset(u);
                  && (gone.Threw? || r.set_(gone.world).Threw? ==> o.result == RolledBack)
                  && (gone.Done? && r.set_(gone.world).Done? && (r.RebootInManifest || gone.asks || r.set_(gone.world).asks) ==>
                        o.result == PendingRestart && o.pending && o.world == r.set_(gone.world).world))
  {
    var before, after := rs[..i], rs[i + 1..];
    assert rs == before + ([rs[i]] + after);
    var first := Loop(before, false, s, w, 0, 1);
    LoopAppend(before, [rs[i]] + after, false, s, w, 0, 1);
    HeadOfLoop(rs[i], after, false, s, first.world, first.count);
    InnerUnfolds(rs, Captured, false, s, w);
    StopsWhere(rs[i], after, false, s, first.world, first.count);
  }

  lemma StopsWhere<W(!new)>(r: Resource<W>, tail: seq<Resource<W>>, uninstall: bool, s: Setting<W>, w: W, count: int)
    ensures VisitOne(r, uninstall, s, w).fate == MustReboot ==>
              Loop([r] + tail, uninstall, s, w, count, 1).world == VisitOne(r, uninstall, s, w).world
  {
    hide VisitOne, ReportsOf;
    assert ([r] + tail)[1..] == tail;
  }

  /** An update that succeeds: a resource to be installed anew whose test holds is unset once and right after that set once; one
      whose test fails is set once, unless it is to be skipped; one that is forced to run is set once; otherwise nothing is done. */
  lemma UpdateTreats<W(!new)>(rs: seq<Resource<W>>, i: nat, s: Setting<W>, w: W)
    requires Distinct(rs) && i < |rs| && Apply(rs, Captured, false, s, w).result == Succeeded
    requires s.reboots && s.updating(Reached(rs, i, false, s, w))
    ensures var r, u, u' := rs[i], Reached(rs, i, false, s, w), Reached(rs, i + 1, false, s, w);
            var calls := Apply(rs, Captured, false, s, w).calls;
            && r.test(u).Answer?
            && (r.RunAlways || (r.OnUpdate != Skip && r.test(u) == Answer(false)) ==>
                  && OwnCalls(calls, r, [TestCall(r), SetCall(r)])
                  && r.set_(u).Done? && u' == r.set_(u).world)
            && (!r.RunAlways && r.OnUpdate == Install && r.test(u) == Answer(true) ==>
                  && OwnCalls(calls, r, [TestCall(r), UnsetCall(r), SetCall(r)])
                  && r.unset(u).Done? && r.set_(r.unset(u).world).Done? && u' == r.set_(r.unset(u).world).world)
            && (!r.RunAlways && (r.OnUpdate == Skip || (r.OnUpdate == NoAction && r.test(u) == Answer(true))) ==>
                  OwnCalls(calls, r, [TestCall(r)]) && u' == u)
  {
    hide Apply, OwnCalls, Reached, VisitOne;
    SuccessAt(rs, i, Captured, false, s, w);
    UpdateVisitTreats(rs[i], s, Reached(rs, i, false, s, w));
  }

  lemma UpdateVisitTreats<W>(r: Resource<W>, s: Setting<W>, u: W)
    requires s.reboots && s.updating(u)
    requires VisitOne(r, false, s, u).fate == Passed || VisitOne(r, false, s, u).fate == Processed
    ensures var v := VisitOne(r, false, s, u);
            && r.test(u).Answer?
            && (r.RunAlways || (r.OnUpdate != Skip && r.test(u) == Answer(false)) ==>
                  v.calls == [TestCall(r), SetCall(r)] && r.set_(u).Done? && v.world == r.set_(u).world)
            && (!r.RunAlways && r.OnUpdate == Install && r.test(u) == Answer(true) ==>
                  && v.calls == [TestCall(r), UnsetCall(r), SetCall(r)]
                  && r.unset(u).Done? && r.set_(r.unset(u).world).Done? && v.world == r.set_(r.unset(u).world).world)
            && (!r.RunAlways && (r.OnUpdate == Skip || (r.OnUpdate == NoAction && r.test(u) == Answer(true))) ==>
                  v.calls == [TestCall(r)] && v.world == u)
  {}

  ghost predicate StaysUpdateAt<W>(r: Resource<W>, updating: W -> bool, w: W) {
    updating(w) ==> updating(r.set_(w).world) && updating(r.unset(w).world)
  }

  /** Running the resource does not end the update. */
  ghost predicate KeepsUpdate<W(!new)>(r: Resource<W>, updating: W -> bool, realm: W -> bool) {
    forall w :: realm(w) ==> StaysUpdateAt(r, updating, w)
  }

  predicate SkippedOnUpdate<W>(r: Resource<W>) { r.OnUpdate == Skip && !r.RunAlways }

  /** What an update may do to a resource: nothing but test one that is to be skipped, and unset only
      one that is to be installed anew. */
  predicate UpdateCall<W>(c: Call<W>) {
    c.TestCall? || (!SkippedOnUpdate(c.r) && (c.UnsetCall? ==> c.r.OnUpdate == Install && !c.r.RunAlways))
  }

  ghost predicate UpdateCalls<W>(calls: seq<Call<W>>) {
    forall i :: 0 <= i < |calls| ==> UpdateCall(calls[i])
  }

  lemma UpdateVisit<W(!new)>(r: Resource<W>, s: Setting<W>, realm: W -> bool, w: W)
    requires KeepsUpdate(r, s.updating, realm) && Stays(r, realm) && s.updating(w) && realm(w) && s.reboots
    ensures var v := VisitOne(r, false, s, w);
            s.updating(v.world) && realm(v.world) && UpdateCalls(v.calls)
  {
    assert StaysUpdateAt(r, s.updating, w) && StaysAt(r, realm, w);
    var w' := r.unset(w).world;
    assert StaysUpdateAt(r, s.updating, w') && StaysAt(r, realm, w');
  }

  /** Updating, whatever the resources do: skipped resources are only asked, and only those to be installed anew are unset. */
  lemma {:induction false} UpdateLeavesSkippedAlone<W(!new)>(rs: seq<Resource<W>>, s: Setting<W>, realm: W -> bool, w: W, count: int)
    requires forall r :: r in rs ==> KeepsUpdate(r, s.updating, realm) && Stays(r, realm)
    requires s.updating(w) && realm(w) && s.reboots
    ensures UpdateCalls(Loop(rs, false, s, w, count, 1).calls)
  {
    hide VisitOne, UpdateCall;
    if rs != [] {
      var v := VisitOne(rs[0], false, s, w);
      assert rs[0] in rs && forall r :: r in rs[1..] ==> r in rs;
      UpdateVisit(rs[0], s, realm, w);
      UpdateLeavesSkippedAlone(rs[1..], s, realm, v.world, count + 1);
    }
  }

  // ---------------------------------------------------------------- the desired state after an update

  ghost predicate ReinstallsAt<W>(r: Resource<W>, w: W) {
    r.test(w) == Answer(true) && r.OnUpdate == Install && r.unset(w).Done? && r.set_(r.unset(w).world).Done? ==>
      r.test(r.set_(r.unset(w).world).world) == Answer(true)
  }

  ghost predicate KeepsOverAt<W>(r: Resource<W>, x: Resource<W>, w: W) {
    r.test(w) == Answer(true) && r.OnUpdate == Install && r.unset(w).Done? && r.set_(r.unset(w).world).Done?
    && x.test(w) == Answer(true) ==>
      x.test(r.set_(r.unset(w).world).world) == Answer(true)
  }

  /** Installing `r` anew does not spoil what `x` has achieved. */
  ghost predicate KeepsOver<W(!new)>(r: Resource<W>, x: Resource<W>, realm: W -> bool) {
    forall w :: realm(w) ==> KeepsOverAt(r, x, w)
  }

  /** A settling resource whose test also holds after it was installed anew. */
  ghost predicate Reinstalls<W(!new)>(r: Resource<W>, realm: W -> bool) {
    Settles(r, realm, Now()) && forall w :: realm(w) ==> ReinstallsAt(r, w)
  }

  ghost predicate Updatable<W(!new)>(rs: seq<Resource<W>>, s: Setting<W>, realm: W -> bool) {
    && s.reboots
    && (forall r :: r in rs ==> (Reinstalls(r, realm) || Inert(r, realm)) && Stays(r, realm) && KeepsUpdate(r, s.updating, realm))
    && (forall q, r :: q in rs && r in rs && q != r ==> Keeps(q, r, realm, Now()) && KeepsOver(q, r, realm))
  }

  lemma UpdatableTail<W(!new)>(rs: seq<Resource<W>>, s: Setting<W>, realm: W -> bool)
    requires rs != [] && Updatable(rs, s, realm)
    ensures Updatable(rs[1..], s, realm) && Updatable([rs[0]], s, realm)
  {
    hide Reinstalls, Inert, Stays, KeepsUpdate, Keeps, KeepsOver;
    assert rs[0] in rs;
    assert forall r :: r in rs[1..] ==> r in rs;
  }

  /** One visit of an update that goes on: it keeps what holds, and brings its own resource up unless that is to be skipped. */
  lemma UpdateStep<W(!new)>(r: Resource<W>, x: Resource<W>, s: Setting<W>, realm: W -> bool, w: W)
    requires Updatable([r], s, realm) && realm(w) && s.updating(w)
    requires r == x || (Keeps(r, x, realm, Now()) && KeepsOver(r, x, realm))
    requires VisitOne(r, false, s, w).fate == Passed || VisitOne(r, false, s, w).fate == Processed
    ensures var w' := VisitOne(r, false, s, w).world;
            && realm(w') && s.updating(w')
            && (x.test(w) == Answer(true) ==> x.test(w') == Answer(true))
            && (r.OnUpdate != Skip && Reinstalls(r, realm) ==> r.test(w') == Answer(true))
  {
    assert r in [r];
    UpdateVisit(r, s, realm, w);
    if Inert(r, realm) {
      assert InertAt(r, w) && NeutralAt(r, w);
    } else {
      assert SettlesAt(r, Now(), w) && ReinstallsAt(r, w);
    }
    if r != x { assert KeepsAt(r, x, Now(), w) && KeepsOverAt(r, x, w); }
  }

  lemma {:induction false} HeldInUpdate<W(!new)>(x: Resource<W>, rs: seq<Resource<W>>, s: Setting<W>, realm: W -> bool, w: W, count: int)
    requires Updatable(rs, s, realm) && realm(w) && s.updating(w) && x.test(w) == Answer(true)
    requires forall r :: r in rs && r != x ==> Keeps(r, x, realm, Now()) && KeepsOver(r, x, realm)
    requires Loop(rs, false, s, w, count, 1).end == Finished
    ensures x.test(Loop(rs, false, s, w, count, 1).world) == Answer(true)
  {
    hide VisitOne, Updatable, Keeps, KeepsOver;
    if rs != [] {
      UpdatableTail(rs, s, realm);
      assert rs[0] in rs && forall r :: r in rs[1..] ==> r in rs;
      UpdateStep(rs[0], x, s, realm, w);
      HeldInUpdate(x, rs[1..], s, realm, VisitOne(rs[0], false, s, w).world, count + 1);
    }
  }

  lemma OthersKeepIt<W(!new)>(x: Resource<W>, rs: seq<Resource<W>>, s: Setting<W>, realm: W -> bool)
    requires Updatable(rs, s, realm) && x in rs
    ensures forall r :: r in rs && r != x ==> Keeps(r, x, realm, Now()) && KeepsOver(r, x, realm)
  {}

  lemma {:induction false} UpdateSettles<W(!new)>(x: Resource<W>, rs: seq<Resource<W>>, s: Setting<W>, realm: W -> bool, w: W, count: int)
    requires Updatable(rs, s, realm) && realm(w) && s.updating(w) && x in rs
    requires forall r :: r in rs && r != x ==> Keeps(r, x, realm, Now()) && KeepsOver(r, x, realm)
    requires x.OnUpdate != Skip && Reinstalls(x, realm)
    requires Loop(rs, false, s, w, count, 1).end == Finished
    ensures x.test(Loop(rs, false, s, w, count, 1).world) == Answer(true)
  {
    hide VisitOne, Updatable, Keeps, KeepsOver, Reinstalls;
    UpdatableTail(rs, s, realm);
    assert rs[0] in rs && forall r :: r in rs[1..] ==> r in rs;
    UpdateStep(rs[0], x, s, realm, w);
    var w' := VisitOne(rs[0], false, s, w).world;
    if rs[0] == x {
      HeldInUpdate(x, rs[1..], s, realm, w', count + 1);
    } else {
      UpdateSettles(x, rs[1..], s, realm, w', count + 1);
    }
  }

  /** A run that counts as an update from its resource number `k` on, and succeeds, leaves in its desired state every resource from
      there on that is not to be skipped, and every skipped one that was in it when the update began. */
  lemma UpdateReachesDesiredState<W(!new)>(rs: seq<Resource<W>>, k: nat, s: Setting<W>, realm: W -> bool, w: W, x: Resource<W>)
    requires k <= |rs| && Apply(rs, Captured, false, s, w).result == Succeeded
    requires Updatable(rs[k..], s, realm) && realm(Reached(rs, k, false, s, w)) && s.updating(Reached(rs, k, false, s, w))
    requires x in rs[k..]
    ensures var end := Apply(rs, Captured, false, s, w).world;
            && (x.OnUpdate != Skip && Reinstalls(x, realm) ==> x.test(end) == Answer(true))
            && (x.test(Reached(rs, k, false, s, w)) == Answer(true) ==> x.test(end) == Answer(true))
  {
    hide VisitOne, Loop, Updatable, Keeps, KeepsOver, Reinstalls, Inner;
    InnerUnfolds(rs, Captured, false, s, w);
    assert rs == rs[..k] + rs[k..];
    PrefixFinishes(rs[..k], rs[k..], false, s, w, 0, 1);
    LoopAppend(rs[..k], rs[k..], false, s, w, 0, 1);
    var u := Loop(rs[..k], false, s, w, 0, 1);
    OthersKeepIt(x, rs[k..], s, realm);
    if x.OnUpdate != Skip && Reinstalls(x, realm) { UpdateSettles(x, rs[k..], s, realm, u.world, u.count); }
    if x.test(u.world) == Answer(true) { HeldInUpdate(x, rs[k..], s, realm, u.world, u.count); }
  }
}
