/** What uninstalling leaves of an installation: the uninstall graph keeps always-first resources in front, reverses only the
    sorted ones, and leaves out those that are not to be uninstalled. */
module Uninstall {
  import opened Resources
  import opened Interpreter
  import opened InstallerRuns
  import opened Manifest
  import Text

  ghost predicate ClearsAt<W>(r: Resource<W>, w: W) {
    && r.test(w).Answer?
    && (r.test(w) == Answer(true) ==>
          r.unset(w).Done? && !r.unset(w).asks && r.test(r.unset(w).world) == Answer(false))
  }

  /** A lawful resource whose Unset makes a test that holds fail. */
  ghost predicate Reversible<W(!new)>(r: Resource<W>, realm: W -> bool) {
    Lawful(r, realm) && forall w :: realm(w) ==> ClearsAt(r, w)
  }

  ghost predicate IndependentAt<W>(r: Resource<W>, x: Resource<W>, w: W) {
    && (r.test(w) == Answer(false) && r.set_(w).Done? ==> x.test(r.set_(w).world) == x.test(w))
    && (r.test(w) == Answer(true) && r.unset(w).Done? ==> x.test(r.unset(w).world) == x.test(w))
  }

  /** Setting and unsetting `r` does not change the verdict on `x`. */
  ghost predicate Independent<W(!new)>(r: Resource<W>, x: Resource<W>, realm: W -> bool) {
    forall w :: realm(w) ==> IndependentAt(r, x, w)
  }

  ghost predicate CommutesAt<W>(f: Resource<W>, r: Resource<W>, w: W) {
    f.test(w) == Answer(true) && f.unset(w).Done? && r.Due(w) && r.set_(w).Done? ==>
      var b := f.unset(w).world;
      && r.set_(b).Done? && r.set_(b).asks == r.set_(w).asks
      && f.unset(r.set_(w).world) == Done(r.set_(b).world, false)
  }

  /** Setting `r` and then unsetting `f` is unsetting `f` and then setting `r`. */
  ghost predicate Commutes<W(!new)>(f: Resource<W>, r: Resource<W>, realm: W -> bool) {
    forall w :: realm(w) ==> CommutesAt(f, r, w)
  }

  ghost predicate Removable<W(!new)>(rs: seq<Resource<W>>, s: Setting<W>, realm: W -> bool) {
    && s.reboots
    && (forall r :: r in rs ==> Reversible(r, realm) || Inert(r, realm))
    && (forall r :: r in rs ==> !r.RebootInManifest && KeepsFresh(r, s.updating, realm) && Stays(r, realm))
    && (forall q, r :: q in rs && r in rs && q != r ==> Independent(q, r, realm))
  }

  /** The resource is to be kept if and only if it was in its desired state before the installation. */
  ghost predicate Balanced<W(!new)>(r: Resource<W>, realm: W -> bool, w: W) {
    Inert(r, realm) || (r.test(w) == Answer(true) <==> r.NoUninstall)
  }

  /** The uninstall graph. */
  function Down<W>(first: seq<Resource<W>>, sorted: seq<Resource<W>>): seq<Resource<W>> {
    Arrange(first, sorted, true)
  }

  // ---------------------------------------------------------------- single visits

  lemma RemovableTail<W(!new)>(rs: seq<Resource<W>>, s: Setting<W>, realm: W -> bool)
    requires rs != [] && Removable(rs, s, realm)
    ensures Removable(rs[1..], s, realm) && Removable([rs[0]], s, realm)
    ensures forall r :: r in rs[1..] && r != rs[0] ==> Independent(rs[0], r, realm) && Independent(r, rs[0], realm)
  {
    hide Reversible, Inert, Independent, KeepsFresh, Stays;
    assert rs[0] in rs;
    assert forall r :: r in rs[1..] ==> r in rs;
  }

  lemma RemovableIsWellBehaved<W(!new)>(rs: seq<Resource<W>>, s: Setting<W>, realm: W -> bool)
    requires Removable(rs, s, realm)
    ensures WellBehaved(rs, s, realm)
  {
    forall r | r in rs ensures (Settles(r, realm, Now()) || Neutral(r, realm)) && (Lawful(r, realm) || Neutral(r, realm)) {
      if Reversible(r, realm) { LawfulSettles(r, realm); }
    }
    forall q, r | q in rs && r in rs && q != r ensures Keeps(q, r, realm, Now()) {
      forall w | realm(w) ensures KeepsAt(q, r, Now(), w) {
        assert IndependentAt(q, r, w);
      }
    }
  }

  /** A visit of a fresh install that goes on. */
  lemma InstallVisit<W(!new)>(r: Resource<W>, s: Setting<W>, realm: W -> bool, w: W)
    requires Removable([r], s, realm) && realm(w) && !s.updating(w)
    ensures var v := VisitOne(r, false, s, w);
            && realm(v.world) && !s.updating(v.world)
            && (Inert(r, realm) ==> v.world == w)
            && (v.fate == Passed || v.fate == Broke ==> v.world == w)
            && (v.fate == Passed <==> r.test(w).Answer? && !r.Due(w))
            && (v.fate == Processed ==> r.Due(w) && r.set_(w) == Done(v.world, false))
            && (r.test(w).Answer? && r.Due(w) && r.set_(w).Done? && !r.set_(w).asks ==> v.fate == Processed)
            && (!Inert(r, realm) ==> r.Due(w) == (r.test(w) == Answer(false)))
            && (v.fate == Processed && !Inert(r, realm) ==> r.test(v.world) == Answer(true) && r.unset(v.world) == Done(w, false))
  {
    assert r in [r];
    RemovableIsWellBehaved([r], s, realm);
    FreshVisit(r, s, realm, Now(), w);
    if Inert(r, realm) { assert NeutralAt(r, w); } else { assert LawfulAt(r.test, r.set_, r.unset, w); }
  }

  lemma UninstallVisit<W(!new)>(r: Resource<W>, s: Setting<W>, realm: W -> bool, w: W)
    requires Removable([r], s, realm) && realm(w)
    ensures var v := VisitOne(r, true, s, w);
            && (v.fate == Passed || v.fate == Processed) && realm(v.world)
            && (Inert(r, realm) || r.test(w) == Answer(false) ==> v.world == w)
            && (!Inert(r, realm) && r.test(w) == Answer(true) ==> r.unset(w) == Done(v.world, false))
            && (!Inert(r, realm) ==> r.test(v.world) == Answer(false))
  {
    assert r in [r] && StaysAt(r, realm, w);
    if Inert(r, realm) { assert InertAt(r, w) && NeutralAt(r, w); } else { assert ClearsAt(r, w); }
  }

  // ---------------------------------------------------------------- what the tests say

  lemma VisitsKeepTests<W(!new)>(x: Resource<W>, r: Resource<W>, s: Setting<W>, realm: W -> bool, w: W)
    requires Removable([r], s, realm) && realm(w) && Independent(r, x, realm)
    ensures x.test(VisitOne(r, true, s, w).world) == x.test(w)
    ensures !s.updating(w) && VisitOne(r, false, s, w).fate == Processed ==> x.test(VisitOne(r, false, s, w).world) == x.test(w)
  {
    assert r in [r] && IndependentAt(r, x, w);
    UninstallVisit(r, s, realm, w);
    if !s.updating(w) { InstallVisit(r, s, realm, w); }
    if !Inert(r, realm) { assert ClearsAt(r, w); }
  }

  /** An uninstall pass finishes; afterwards the tests of what it went through fail, and the others are as they were. */
  lemma {:induction false} UninstallTests<W(!new)>(x: Resource<W>, rs: seq<Resource<W>>, s: Setting<W>, realm: W -> bool, w: W, count: int)
    requires Removable(rs, s, realm) && Distinct(rs) && realm(w)
    requires !Inert(x, realm) && forall r :: r in rs && r != x ==> Independent(r, x, realm)
    ensures var t := Loop(rs, true, s, w, count, 1);
            && t.end == Finished
            && x.test(t.world) == (if x in rs then Answer(false) else x.test(w))
  {
    hide VisitOne, Removable, Inert, Independent;
    if rs != [] {
      var r := rs[0];
      var v := VisitOne(r, true, s, w);
      RemovableTail(rs, s, realm);
      UninstallVisit(r, s, realm, w);
      assert r in rs && forall q :: q in rs[1..] ==> q in rs;
      assert r !in rs[1..];
      if r != x { VisitsKeepTests(x, r, s, realm, w); }
      UninstallTests(x, rs[1..], s, realm, v.world, count + 1);
    }
  }

  lemma {:induction false} UninstallFinishes<W(!new)>(rs: seq<Resource<W>>, s: Setting<W>, realm: W -> bool, w: W, count: int)
    requires Removable(rs, s, realm) && realm(w)
    ensures Loop(rs, true, s, w, count, 1).end == Finished
  {
    hide VisitOne, Removable;
    if rs != [] {
      RemovableTail(rs, s, realm);
      UninstallVisit(rs[0], s, realm, w);
      UninstallFinishes(rs[1..], s, realm, VisitOne(rs[0], true, s, w).world, count + 1);
    }
  }

  // ---------------------------------------------------------------- the sorted part, last first

  lemma {:induction false} WhereAppend<T>(a: seq<T>, b: seq<T>, p: T -> bool)
    ensures Where(a + b, p) == Where(a, p) + Where(b, p)
  {
    if a == [] {
      assert a + b == b;
    } else {
      assert (a + b)[1..] == a[1..] + b;
      WhereAppend(a[1..], b, p);
    }
  }

  function Uninstalled<W>(): Resource<W> -> bool { (r: Resource<W>) => !r.NoUninstall }

  lemma BalancedOnward<W(!new)>(rs: seq<Resource<W>>, s: Setting<W>, realm: W -> bool, w: W)
    requires rs != [] && Removable(rs, s, realm) && Distinct(rs) && realm(w) && !s.updating(w)
    requires forall r :: r in rs ==> Balanced(r, realm, w)
    requires VisitOne(rs[0], false, s, w).fate == Passed || VisitOne(rs[0], false, s, w).fate == Processed
    ensures forall r :: r in rs[1..] ==> Balanced(r, realm, VisitOne(rs[0], false, s, w).world)
  {
    hide VisitOne, Removable, Inert, Independent;
    RemovableTail(rs, s, realm);
    InstallVisit(rs[0], s, realm, w);
    assert rs[0] !in rs[1..];
    forall r | r in rs[1..] ensures Balanced(r, realm, VisitOne(rs[0], false, s, w).world) {
      assert r in rs;
      VisitsKeepTests(r, rs[0], s, realm, w);
    }
  }

  /** Undoing a balanced resource right after its visit, unless it is to be kept, leads back. */
  lemma UndoBalanced<W(!new)>(r: Resource<W>, s: Setting<W>, realm: W -> bool, w: W, count: int)
    requires Removable([r], s, realm) && realm(w) && !s.updating(w) && Balanced(r, realm, w)
    requires VisitOne(r, false, s, w).fate == Passed || VisitOne(r, false, s, w).fate == Processed
    ensures var t := Loop(Where([r], Uninstalled()), true, s, VisitOne(r, false, s, w).world, count, 1);
            t.world == w && t.end == Finished
  {
    hide VisitOne;
    var w' := VisitOne(r, false, s, w).world;
    InstallVisit(r, s, realm, w);
    UninstallVisit(r, s, realm, w');
    assert r in [r];
    if !Inert(r, realm) { assert ClearsAt(r, w); }
    assert [r][1..] == [];
    if r.NoUninstall {
      assert Where([r], Uninstalled()) == [];
    } else {
      assert Where([r], Uninstalled()) == [r];
      assert Loop([], true, s, w, count + 1, 1).world == w;
    }
  }

  lemma {:induction false} UndoSorted<W(!new)>(rs: seq<Resource<W>>, s: Setting<W>, realm: W -> bool, w: W, count: int, from: int)
    requires Removable(rs, s, realm) && Distinct(rs) && realm(w) && !s.updating(w)
    requires forall r :: r in rs ==> Balanced(r, realm, w)
    requires Loop(rs, false, s, w, count, 1).end == Finished
    ensures var back := Loop(Where(Reverse(rs), Uninstalled()), true, s, Loop(rs, false, s, w, count, 1).world, from, 1);
            back.world == w && back.end == Finished
  {
    hide VisitOne, Removable, Balanced;
    if rs != [] {
      var v := VisitOne(rs[0], false, s, w);
      RemovableTail(rs, s, realm);
      InstallVisit(rs[0], s, realm, w);
      BalancedOnward(rs, s, realm, w);
      assert rs[0] in rs;
      UndoSorted(rs[1..], s, realm, v.world, count + 1, from);
      ReverseCons(rs[0], rs[1..]);
      assert rs == [rs[0]] + rs[1..];
      WhereAppend(Reverse(rs[1..]), [rs[0]], Uninstalled());
      var tail := Where(Reverse(rs[1..]), Uninstalled());
      var back := Loop(tail, true, s, Loop(rs, false, s, w, count, 1).world, from, 1);
      LoopAppend(tail, Where([rs[0]], Uninstalled()), true, s, Loop(rs, false, s, w, count, 1).world, from, 1);
      UndoBalanced(rs[0], s, realm, w, back.count);
    }
  }

  // ---------------------------------------------------------------- always-first resources, undone first

  lemma CommutingVisit<W(!new)>(f: Resource<W>, r: Resource<W>, s: Setting<W>, realm: W -> bool, a: W, b: W)
    requires Removable([r], s, realm) && Removable([f], s, realm) && !Inert(f, realm) && f != r
    requires Independent(f, r, realm) && Independent(r, f, realm) && Commutes(f, r, realm)
    requires realm(a) && realm(b) && !s.updating(a) && !s.updating(b)
    requires f.test(a) == Answer(true) && f.unset(a) == Done(b, false)
    requires VisitOne(r, false, s, a).fate == Passed || VisitOne(r, false, s, a).fate == Processed
    ensures var va := VisitOne(r, false, s, a);
            var vb := VisitOne(r, false, s, b);
            && vb.fate == va.fate && f.test(va.world) == Answer(true) && f.unset(va.world) == Done(vb.world, false)
  {
    hide VisitOne;
    InstallVisit(r, s, realm, a);
    InstallVisit(r, s, realm, b);
    assert IndependentAt(f, r, a) && IndependentAt(r, f, a) && CommutesAt(f, r, a);
  }

  /** Undoing what was set first, after all the rest was set, gives what setting only the rest would have given. */
  lemma {:induction false} HeadUndone<W(!new)>(f: Resource<W>, rs: seq<Resource<W>>, s: Setting<W>, realm: W -> bool, a: W, b: W, count: int)
    requires Removable(rs, s, realm) && Removable([f], s, realm) && !Inert(f, realm) && f !in rs
    requires forall r :: r in rs ==> Independent(f, r, realm) && Independent(r, f, realm) && Commutes(f, r, realm)
    requires realm(a) && realm(b) && !s.updating(a) && !s.updating(b)
    requires f.test(a) == Answer(true) && f.unset(a) == Done(b, false)
    requires Loop(rs, false, s, a, count, 1).end == Finished
    ensures var ta := Loop(rs, false, s, a, count, 1);
            var tb := Loop(rs, false, s, b, count, 1);
            && tb.end == Finished && realm(ta.world)
            && f.test(ta.world) == Answer(true) && f.unset(ta.world) == Done(tb.world, false)
  {
    hide VisitOne, Removable, Inert, Independent, Commutes;
    if rs != [] {
      var r := rs[0];
      assert r in rs && forall q :: q in rs[1..] ==> q in rs;
      RemovableTail(rs, s, realm);
      InstallVisit(r, s, realm, a);
      InstallVisit(r, s, realm, b);
      CommutingVisit(f, r, s, realm, a, b);
      HeadUndone(f, rs[1..], s, realm, VisitOne(r, false, s, a).world, VisitOne(r, false, s, b).world, count + 1);
    }
  }

  /** What always-first resources may change can be undone before the rest is. */
  ghost predicate FirstCommute<W(!new)>(first: seq<Resource<W>>, rs: seq<Resource<W>>, realm: W -> bool) {
    forall f, r :: f in first && r in rs && f != r ==> Inert(f, realm) || Commutes(f, r, realm)
  }

  /** One always-first resource and its undoing, before all the rest is undone: the rest is left as if it alone had been installed. */
  lemma UndoFirst<W(!new)>(f: Resource<W>, rest: seq<Resource<W>>, s: Setting<W>, realm: W -> bool, w: W, count: int)
    requires Removable([f] + rest, s, realm) && f !in rest && realm(w) && !s.updating(w) && Balanced(f, realm, w)
    requires forall r :: r in rest ==> Inert(f, realm) || Commutes(f, r, realm)
    requires Loop([f] + rest, false, s, w, count, 1).end == Finished
    ensures var end := Loop([f] + rest, false, s, w, count, 1).world;
            var alone := Loop(rest, false, s, w, count + 1, 1);
            && alone.end == Finished
            && (f.NoUninstall ==> end == alone.world)
            && (!f.NoUninstall ==>
                  VisitOne(f, true, s, end).world == alone.world
                  && (VisitOne(f, true, s, end).fate == Passed || VisitOne(f, true, s, end).fate == Processed))
  {
    hide VisitOne, Removable, Inert, Independent, Commutes;
    var all := [f] + rest;
    assert all[0] == f && all[1..] == rest;
    assert f in all;
    RemovableTail(all, s, realm);
    InstallVisit(f, s, realm, w);
    var v := VisitOne(f, false, s, w);
    var end := Loop(all, false, s, w, count, 1).world;
    InstallStays(all, s, realm, w, count);
    UninstallVisit(f, s, realm, end);
    if v.fate == Processed && !Inert(f, realm) {
      HeadUndone(f, rest, s, realm, v.world, w, count + 1);
    }
  }

  lemma {:induction false} UndoAll<W(!new)>(first: seq<Resource<W>>, sorted: seq<Resource<W>>, s: Setting<W>, realm: W -> bool, w: W,
                                            count: int, from: int)
    requires Removable(first + sorted, s, realm) && Distinct(first + sorted) && realm(w) && !s.updating(w)
    requires FirstCommute(first, first + sorted, realm)
    requires forall r :: r in first + sorted ==> Balanced(r, realm, w)
    requires Loop(first + sorted, false, s, w, count, 1).end == Finished
    ensures var back := Loop(Down(first, sorted), true, s, Loop(first + sorted, false, s, w, count, 1).world, from, 1);
            back.world == w && back.end == Finished
    decreases |first|
  {
    hide VisitOne, Removable, Inert, Independent, Commutes, Where, Balanced, Down;
    if first == [] {
      assert first + sorted == sorted && first + Reverse(sorted) == Reverse(sorted);
      UndoNoFirst(first, sorted);
      UndoSorted(sorted, s, realm, w, count, from);
    } else {
      var f, rest := first[0], first[1..] + sorted;
      var all := first + sorted;
      assert all == [f] + rest && all[1..] == rest;
      assert f in all && f !in rest && forall r :: r in rest ==> r in all;
      FirstTail(first, sorted, realm);
      RemovableTail(all, s, realm);
      UndoFirst(f, rest, s, realm, w, count);
      DownCons(first, sorted);
      UndoAll(first[1..], sorted, s, realm, w, count + 1, if f.NoUninstall then from else from + 1);
      var down := Down(first[1..], sorted);
      assert f.NoUninstall ==> [] + down == down;
      assert ([f] + down)[1..] == down;
    }
  }

  lemma UndoNoFirst<W>(first: seq<Resource<W>>, sorted: seq<Resource<W>>)
    requires first == []
    ensures Down(first, sorted) == Where(Reverse(sorted), Uninstalled())
  {
    assert first + Reverse(sorted) == Reverse(sorted);
  }

  lemma {:induction false} InstallStays<W(!new)>(rs: seq<Resource<W>>, s: Setting<W>, realm: W -> bool, w: W, count: int)
    requires Removable(rs, s, realm) && realm(w) && !s.updating(w)
    ensures realm(Loop(rs, false, s, w, count, 1).world)
  {
    hide VisitOne, Removable;
    if rs != [] {
      RemovableTail(rs, s, realm);
      InstallVisit(rs[0], s, realm, w);
      InstallStays(rs[1..], s, realm, VisitOne(rs[0], false, s, w).world, count + 1);
    }
  }

  lemma DownCons<W>(first: seq<Resource<W>>, sorted: seq<Resource<W>>)
    requires first != []
    ensures Down(first, sorted) == (if first[0].NoUninstall then [] else [first[0]]) + Down(first[1..], sorted)
  {
    assert (first + Reverse(sorted))[1..] == first[1..] + Reverse(sorted);
  }

  lemma FirstTail<W(!new)>(first: seq<Resource<W>>, sorted: seq<Resource<W>>, realm: W -> bool)
    requires first != [] && FirstCommute(first, first + sorted, realm)
    ensures FirstCommute(first[1..], first[1..] + sorted, realm)
    ensures forall r :: r in first[1..] + sorted && r != first[0] ==> Inert(first[0], realm) || Commutes(first[0], r, realm)
  {
    assert forall r :: r in first[1..] ==> r in first;
    assert forall r :: r in first[1..] + sorted ==> r in first + sorted;
    assert first[0] in first;
  }

  // ---------------------------------------------------------------- exactness

  lemma DownMembers<W>(first: seq<Resource<W>>, sorted: seq<Resource<W>>)
    requires Distinct(first + sorted)
    ensures Distinct(Down(first, sorted))
    ensures forall r :: r in Down(first, sorted) <==> r in first + sorted && !r.NoUninstall
  {
    var all := first + sorted;
    assert forall i :: 0 <= i < |first| ==> all[i] == first[i];
    assert forall i :: 0 <= i < |sorted| ==> all[|first| + i] == sorted[i];
    assert Distinct(first) && Distinct(sorted);
    forall r | r in first ensures r !in sorted {
      var i :| 0 <= i < |first| && first[i] == r;
      forall j | 0 <= j < |sorted| ensures sorted[j] != r { assert all[i] != all[|first| + j]; }
    }
    ArrangedDistinct(first, sorted, true);
    ReverseKeeps(sorted);
  }

  lemma RemovableSublist<W(!new)>(rs: seq<Resource<W>>, part: seq<Resource<W>>, s: Setting<W>, realm: W -> bool)
    requires Removable(rs, s, realm) && forall r :: r in part ==> r in rs
    ensures Removable(part, s, realm)
  {
    hide Reversible, Inert, Independent, KeepsFresh, Stays;
  }

  /** A resource that is not balanced leaves its residue: its test is not what it was before the installation. */
  lemma Residue<W(!new)>(first: seq<Resource<W>>, sorted: seq<Resource<W>>, s: Setting<W>, realm: W -> bool, w: W, x: Resource<W>)
    requires Removable(first + sorted, s, realm) && Distinct(first + sorted) && realm(w) && !s.updating(w)
    requires Loop(first + sorted, false, s, w, 0, 1).end == Finished
    requires x in first + sorted && !Balanced(x, realm, w)
    ensures x.test(Loop(Down(first, sorted), true, s, Loop(first + sorted, false, s, w, 0, 1).world, 0, 1).world) != x.test(w)
  {
    hide VisitOne, Loop, Removable, Inert, Independent;
    var all := first + sorted;
    var installed := Loop(all, false, s, w, 0, 1).world;
    InstallStays(all, s, realm, w, 0);
    Unbalanced(all, s, realm, w, x);
    DownMembers(first, sorted);
    RemovableSublist(all, Down(first, sorted), s, realm);
    OthersIndependent(all, x, s, realm);
    UninstallTests(x, Down(first, sorted), s, realm, installed, 0);
  }

  lemma OthersIndependent<W(!new)>(rs: seq<Resource<W>>, x: Resource<W>, s: Setting<W>, realm: W -> bool)
    requires Removable(rs, s, realm) && x in rs
    ensures forall r :: r in rs && r != x ==> Independent(r, x, realm)
  {}

  /** After the installation an unbalanced resource is in its desired state; whether it was before differs from whether it is kept. */
  lemma Unbalanced<W(!new)>(rs: seq<Resource<W>>, s: Setting<W>, realm: W -> bool, w: W, x: Resource<W>)
    requires Removable(rs, s, realm) && realm(w) && !s.updating(w)
    requires Loop(rs, false, s, w, 0, 1).end == Finished
    requires x in rs && !Balanced(x, realm, w)
    ensures x.test(Loop(rs, false, s, w, 0, 1).world) == Answer(true)
    ensures !Inert(x, realm) && x.test(w) == Answer(x.NoUninstall == false)
  {
    hide Loop;
    RemovableIsWellBehaved(rs, s, realm);
    NowSurvives(rs, realm);
    Settled(rs, s, realm, Now(), w, 0);
    LawfulSettles(x, realm);
    assert ClearsAt(x, w);
  }

  /** Uninstalling after a fresh install always succeeds.  It restores the world from before exactly when each resource that can
      change it was, before, in its desired state if and only if it is marked as not to be uninstalled. */
  lemma UninstallRestoresExactly<W(!new)>(first: seq<Resource<W>>, sorted: seq<Resource<W>>, reading: Reading, s: Setting<W>,
                                          realm: W -> bool, w: W)
    requires Removable(first + sorted, s, realm) && Distinct(first + sorted) && realm(w) && !s.updating(w)
    requires FirstCommute(first, first + sorted, realm)
    requires Apply(Arrange(first, sorted, false), reading, false, s, w).result == Succeeded
    ensures var installed := Apply(Arrange(first, sorted, false), reading, false, s, w).world;
            var o := Apply(Arrange(first, sorted, true), reading, true, s, installed);
            && o.result == Succeeded
            && (o.world == w <==> forall r :: r in first + sorted ==> Balanced(r, realm, w))
  {
    hide VisitOne, Loop, Removable, Balanced, Commutes, Inner, Where;
    var all := first + sorted;
    InnerUnfolds(all, reading, false, s, w);
    var installed := Loop(all, false, s, w, 0, 1).world;
    InnerUnfolds(Down(first, sorted), reading, true, s, installed);
    InstallStays(all, s, realm, w, 0);
    DownMembers(first, sorted);
    RemovableSublist(all, Down(first, sorted), s, realm);
    UninstallFinishes(Down(first, sorted), s, realm, installed, 0);
    if forall r :: r in all ==> Balanced(r, realm, w) {
      UndoAll(first, sorted, s, realm, w, 0, 0);
    } else {
      var x :| x in all && !Balanced(x, realm, w);
      Residue(first, sorted, s, realm, w, x);
    }
  }

  // ---------------------------------------------------------------- when always-first resources do not commute

  /** Takes the letter back when it is the last one, and otherwise leaves a hole. */
  function Erased(w: string, c: char): string {
    if w != "" && w[|w| - 1] == c && c !in w[..|w| - 1] then w[..|w| - 1] else Text.Replace(w, c, '-')
  }

  /** A resource that writes a letter at the end of the world. */
  ghost predicate Writes(r: Resource<string>, c: char) {
    && c != '-' && !r.RunAlways && !r.RebootInManifest && !r.NoUninstall
    && (forall w :: r.test(w) == Answer(c in w))
    && (forall w :: r.set_(w) == Done(w + [c], false))
    && (forall w :: r.unset(w) == Done(Erased(w, c), false))
  }

  lemma ErasedKeeps(w: string, c: char, d: char)
    requires c != '-' && d != '-'
    ensures d in Erased(w, c) <==> d in w && d != c
  {
    var e := Erased(w, c);
    if w != "" && w[|w| - 1] == c && c !in w[..|w| - 1] {
      assert w == w[..|w| - 1] + [c];
    } else {
      if d in w && d != c {
        var i :| 0 <= i < |w| && w[i] == d;
        assert e[i] == d;
      }
      if d in e {
        var i :| 0 <= i < |e| && e[i] == d;
        assert w[i] == d;
      }
    }
  }

  lemma WritersAreRemovable(rs: seq<Resource<string>>, s: Setting<string>)
    requires s.reboots && forall w :: !s.updating(w)
    requires forall r :: r in rs ==> exists c :: Writes(r, c)
    requires forall q, r, c :: q in rs && r in rs && Writes(q, c) && Writes(r, c) ==> q == r
    ensures Removable(rs, s, w => true)
  {
    var realm := (w: string) => true;
    forall r | r in rs ensures Reversible(r, realm) && KeepsFresh(r, s.updating, realm) && Stays(r, realm) {
      var c :| Writes(r, c);
      forall w | realm(w)
        ensures LawfulAt(r.test, r.set_, r.unset, w) && ClearsAt(r, w) && FreshAt(r, s.updating, w) && StaysAt(r, realm, w)
      {
        assert (w + [c])[..|w|] == w;
        ErasedKeeps(w, c, c);
      }
    }
    forall q, r | q in rs && r in rs && q != r ensures Independent(q, r, realm) {
      var c :| Writes(q, c);
      var d :| Writes(r, d);
      forall w | realm(w) ensures IndependentAt(q, r, w) { ErasedKeeps(w, c, d); }
    }
  }

  lemma TwoCalls<W(!new)>(q: Resource<W>, r: Resource<W>, uninstall: bool, s: Setting<W>, w: W)
    requires VisitOne(q, uninstall, s, w).fate == Processed
    requires VisitOne(r, uninstall, s, VisitOne(q, uninstall, s, w).world).fate == Processed
    ensures var t := Loop([q, r], uninstall, s, w, 0, 1);
            t.end == Finished && t.world == VisitOne(r, uninstall, s, VisitOne(q, uninstall, s, w).world).world
  {
    hide VisitOne;
    assert [q, r][1..] == [r] && [r][1..] == [];
    var v := VisitOne(q, uninstall, s, w);
    var u := VisitOne(r, uninstall, s, v.world);
    var last := Loop([], uninstall, s, u.world, 2, 1);
    var tail := Loop([r], uninstall, s, v.world, 1, 1);
    assert tail == Continue(r, u, ReportsOf(u, s, 1), 1, last);
  }

  /** Without commuting the order matters: of two removable, balanced resources, the always-first one is undone while the other
      is still there, and leaves a hole. */
  lemma AlwaysFirstLeavesResidue(f: Resource<string>, x: Resource<string>, s: Setting<string>)
    requires s.reboots && (forall w :: !s.updating(w)) && Writes(f, 'f') && Writes(x, 'x')
    ensures Removable([f] + [x], s, w => true) && Balanced(f, w => true, "") && Balanced(x, w => true, "")
    ensures Loop([f, x], false, s, "", 0, 1).end == Finished && Loop([f, x], false, s, "", 0, 1).world == "fx"
    ensures Arrange([f], [x], true) == [f, x]
    ensures Loop(Arrange([f], [x], true), true, s, "fx", 0, 1).world == "-"
  {
    assert forall w :: f.test(w) == Answer('f' in w) && x.test(w) == Answer('x' in w);
    assert f.set_("") == Done("" + ['f'], false) && f.set_("x") == Done("x" + ['f'], false);
    Letters(f, x);
    WritersAreRemovable([f] + [x], s);
    assert !s.updating("") && !s.updating("f");
    assert "" + ['f'] == "f" && "f" + ['x'] == "fx";
    TwoCalls(f, x, false, s, "");
    ErasedInTurn();
    TwoCalls(f, x, true, s, "fx");
    OneOfEach(f, x);
  }

  /** Erasing leaves a hole, unless it takes the last letter. */
  lemma ErasedInTurn()
    ensures 'f' in "fx" && Erased("fx", 'f') == "-x" && 'x' in "-x" && Erased("-x", 'x') == "-"
  {
    assert "fx"[..1] == "f" && "fx"[1] == 'x' && "fx"[0] == 'f';
    assert "-x"[..1] == "-" && "-x"[1] == 'x';
  }

  lemma OneOfEach(f: Resource<string>, x: Resource<string>)
    requires !f.NoUninstall && !x.NoUninstall
    ensures Arrange([f], [x], true) == [f, x]
  {
    assert Reverse([x]) == [x] && [f] + [x] == [f, x];
    DownCons([f], [x]);
    UndoNoFirst([], [x]);
    assert [f][1..] == [] && [x][1..] == [];
    assert Where([x], Uninstalled<string>()) == [x];
  }

  lemma Letters(f: Resource<string>, x: Resource<string>)
    requires Writes(f, 'f') && Writes(x, 'x')
    ensures forall q, r, c :: q in [f] + [x] && r in [f] + [x] && Writes(q, c) && Writes(r, c) ==> q == r
    ensures f != x
  {
    forall q, c | q in [f] + [x] && Writes(q, c) ensures (q == f ==> c == 'f') && (q == x ==> c == 'x') {
      assert q.set_("") == Done("" + [c], false);
      assert f.set_("") == Done("" + ['f'], false) && x.set_("") == Done("" + ['x'], false);
      assert ("" + [c])[0] == c && ("" + ['f'])[0] == 'f' && ("" + ['x'])[0] == 'x';
    }
  }
}
