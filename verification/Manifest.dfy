/** The configuration manifest as the program runs it: dependency graph built by editing lists in place, the nested
    Apply loop with its stack of processed resources, and the disabled ids kept in the state file. */
module Manifest {
  import opened Resources
  import opened Interpreter
  import Sort = DependencySort
  import Text

  /** The "DisabledResources" entry of the context state.  What was read from the state file is a JSON array; what this
      process stored is a string array, and reading it back in the same process finds no JSON array. */
  datatype Entry = Missing | FromFile(ids: seq<string>) | Stored(ids: seq<string>)

  function DisabledIn(e: Entry): seq<string> { if e.FromFile? then e.ids else [] }

  class ConfigurationContext<W> {
    const Uninstall: bool
    const Updating: W -> bool
    const Rebooting: bool
    /** What a restart makes of the world; no code of a run looks at it. */
    ghost const Restart: W -> W
    var World: W
    var Calls: seq<Call<W>>
    var Reports: seq<int>
    var RestartPending: bool
    var Disabled: Entry
    var StateFile: Entry

    /** A context starts with the state it finds on disk. */
    constructor (uninstall: bool, updating: W -> bool, rebooting: bool, ghost restart: W -> W, world: W, file: Entry)
      requires !file.Stored?
      ensures Uninstall == uninstall && Updating == updating && Rebooting == rebooting && Restart == restart && World == world
      ensures Calls == [] && Reports == [] && !RestartPending && Disabled == file && StateFile == file
    {
      Uninstall, Updating, Rebooting, Restart, World := uninstall, updating, rebooting, restart, world;
      Calls, Reports, RestartPending, Disabled, StateFile := [], [], false, file, file;
    }

    method ReportProgress(value: int)
      modifies this`Reports
      ensures Reports == old(Reports) + [value]
    {
      Reports := Reports + [value];
    }

    method SaveDisabled(ids: seq<string>)
      modifies this`Disabled, this`StateFile
      ensures Disabled == Stored(ids) && StateFile == FromFile(ids)
    {
      Disabled, StateFile := Stored(ids), FromFile(ids);
    }

    method ClearState()
      modifies this`Disabled, this`StateFile
      ensures Disabled == Missing && StateFile == Missing
    {
      Disabled, StateFile := Missing, Missing;
    }

    method Test(r: Resource<W>) returns (probe: Probe)
      modifies this`Calls
      ensures probe == r.test(World) && Calls == old(Calls) + [TestCall(r)]
    {
      probe := r.test(World);
      Calls := Calls + [TestCall(r)];
    }

    /** Calls Set or Unset, which may turn the reboot flag of the resource on. */
    method Run(r: Resource<W>, uninstall: bool) returns (threw: bool)
      modifies this`World, this`Calls, r`RequiresReboot
      ensures Calls == old(Calls) + [if uninstall then UnsetCall(r) else SetCall(r)]
      ensures var effect := if uninstall then r.unset(old(World)) else r.set_(old(World));
              && World == effect.world && threw == effect.Threw?
              && r.RequiresReboot == (old(r.RequiresReboot) || (effect.Done? && effect.asks))
    {
      var effect := if uninstall then r.unset(World) else r.set_(World);
      World := effect.world;
      threw := effect.Threw?;
      if effect.Done? && effect.asks {
        r.RequiresReboot := true;
      }
      Calls := Calls + [if uninstall then UnsetCall(r) else SetCall(r)];
    }
  }

  // ---------------------------------------------------------------- selection

  function Where<T>(xs: seq<T>, p: T -> bool): (s: seq<T>)
    ensures forall x :: x in s ==> x in xs && p(x)
    ensures forall x :: x in xs ==> p(x) ==> x in s
    ensures Distinct(xs) ==> Distinct(s)
  {
    if xs == [] then []
    else
      var rest := Where(xs[1..], p);
      if p(xs[0]) then [xs[0]] + rest else rest
  }

  /** Resources that are enabled in the manifest and not named by the loaded state. */
  function Selected<W>(rs: seq<Resource<W>>, disabled: seq<string>): seq<Resource<W>> {
    Where(rs, (r: Resource<W>) => r.Enabled && r.Id !in disabled)
  }

  function First<W>(rs: seq<Resource<W>>): seq<Resource<W>> {
    Where(rs, (r: Resource<W>) => r.RunAlwaysFirst)
  }

  function Others<W>(rs: seq<Resource<W>>): seq<Resource<W>> {
    Where(rs, (r: Resource<W>) => !r.RunAlwaysFirst)
  }

  function IdsOf<W>(rs: seq<Resource<W>>): (ids: seq<string>)
    ensures |ids| == |rs| && forall i :: 0 <= i < |rs| ==> ids[i] == rs[i].Id
  {
    seq(|rs|, i requires 0 <= i < |rs| => rs[i].Id)
  }

  /** The ids saved for the next run: those of the resources disabled in this manifest object. */
  function SavedIds<W>(rs: seq<Resource<W>>): seq<string> {
    IdsOf(Where(rs, (r: Resource<W>) => !r.Enabled))
  }

  function Arrange<W>(first: seq<Resource<W>>, sorted: seq<Resource<W>>, uninstall: bool): seq<Resource<W>> {
    if uninstall then Where(first + Reverse(sorted), (r: Resource<W>) => !r.NoUninstall) else first + sorted
  }

  function ItemsOf<T>(ns: seq<Sort.Node<T>>): (items: seq<T>)
    ensures |items| == |ns| && forall i :: 0 <= i < |ns| ==> items[i] == ns[i].item
  {
    seq(|ns|, i requires 0 <= i < |ns| => ns[i].item)
  }

  /** The resources of a list as nodes to be sorted, with the dependency lists they now have. */
  ghost function Nodes<W>(rs: seq<Resource<W>>, needs: map<Resource<W>, seq<string>>): (ns: seq<Sort.Node<Resource<W>>>)
    requires forall r :: r in rs ==> r in needs
    reads rs
    ensures |ns| == |rs|
    ensures forall i :: 0 <= i < |rs| ==> ns[i] == Sort.Node(rs[i], rs[i].Id, needs[rs[i]], rs[i].DependsOn)
  {
    seq(|rs|, i requires 0 <= i < |rs| && rs[i] in needs reads rs => Sort.Node(rs[i], rs[i].Id, needs[rs[i]], rs[i].DependsOn))
  }

  ghost function LoadedNodes<W>(rs: seq<Resource<W>>): (ns: seq<Sort.Node<Resource<W>>>)
    reads rs
    ensures |ns| == |rs|
    ensures forall i :: 0 <= i < |rs| ==> ns[i] == Sort.Node(rs[i], rs[i].Id, rs[i].DependsOn, rs[i].DependsOn)
  {
    seq(|rs|, i requires 0 <= i < |rs| reads rs => Sort.Node(rs[i], rs[i].Id, rs[i].DependsOn, rs[i].DependsOn))
  }

  // ---------------------------------------------------------------- the sort in place

  /** The loop over a dependency list has reached index `j`; what it will have made of the list is `goal`. */
  ghost predicate StripsTo<T>(deps: seq<string>, j: nat, done: seq<Sort.Node<T>>, goal: seq<string>) {
    if j <= |deps| then deps[..j] + Sort.Strip(deps[j..], done, false) == goal else deps == goal
  }

  lemma StripStarts<T>(deps: seq<string>, done: seq<Sort.Node<T>>)
    ensures StripsTo(deps, 0, done, Sort.Strip(deps, done, false))
  {
    assert deps[0..] == deps;
  }

  lemma StripKeeps<T>(deps: seq<string>, j: nat, done: seq<Sort.Node<T>>, goal: seq<string>)
    requires j < |deps| && !Sort.Matches(done, deps[j]) && StripsTo(deps, j, done, goal)
    ensures StripsTo(deps, j + 1, done, goal)
  {
    assert deps[j..][1..] == deps[j + 1..];
    assert deps[..j + 1] == deps[..j] + [deps[j]];
  }

  lemma StripRemoves<T>(deps: seq<string>, j: nat, done: seq<Sort.Node<T>>, goal: seq<string>)
    requires j < |deps| && Sort.Matches(done, deps[j]) && StripsTo(deps, j, done, goal)
    ensures StripsTo(deps[..j] + deps[j + 1..], j + 1, done, goal)
  {
    var shorter := deps[..j] + deps[j + 1..];
    var ahead := deps[j..];
    assert ahead[0] == deps[j] && |ahead| == |deps| - j;
    if j + 1 < |deps| {
      assert ahead[1] == deps[j + 1];
      var kept := Sort.Strip(deps[j + 2..], done, false);
      assert ahead[2..] == deps[j + 2..];
      assert Sort.Strip(ahead, done, false) == [deps[j + 1]] + kept;
      assert shorter[j + 1..] == deps[j + 2..];
      assert shorter[..j + 1] == deps[..j] + [deps[j + 1]];
      assert deps[..j] + ([deps[j + 1]] + kept) == deps[..j] + [deps[j + 1]] + kept;
    } else {
      assert ahead[1..] == [];
    }
  }

  predicate AnyNamed<W>(resolved: seq<Resource<W>>, d: string) {
    exists i :: 0 <= i < |resolved| && Text.EqualFold(resolved[i].Id, d)
  }

  ghost predicate SameIds<W>(done: seq<Sort.Node<Resource<W>>>, resolved: seq<Resource<W>>) {
    |done| == |resolved| && forall i :: 0 <= i < |done| ==> done[i].item == resolved[i] && done[i].id == resolved[i].Id
  }

  lemma NamedMatches<W>(done: seq<Sort.Node<Resource<W>>>, resolved: seq<Resource<W>>, d: string)
    requires SameIds(done, resolved)
    ensures AnyNamed(resolved, d) <==> Sort.Matches(done, d)
  {
    if AnyNamed(resolved, d) {
      var i :| 0 <= i < |resolved| && Text.EqualFold(resolved[i].Id, d);
      assert Text.EqualFold(done[i].id, d);
    }
  }

  /** The innermost loop: removes matched entries of one dependency list, moving on after each removal. */
  method StripResolved<W>(r: Resource<W>, resolved: seq<Resource<W>>, ghost done: seq<Sort.Node<Resource<W>>>)
    requires SameIds(done, resolved)
    modifies r`DependsOn
    ensures r.DependsOn == Sort.Strip(old(r.DependsOn), done, false)
  {
    var j := 0;
    ghost var goal := Sort.Strip(r.DependsOn, done, false);
    StripStarts(r.DependsOn, done);
    while j < |r.DependsOn|
      invariant 0 <= j <= |r.DependsOn| + 1
      invariant StripsTo(r.DependsOn, j, done, goal)
      decreases |r.DependsOn| + 1 - j
    {
      NamedMatches(done, resolved, r.DependsOn[j]);
      if AnyNamed(resolved, r.DependsOn[j]) {
        StripRemoves(r.DependsOn, j, done, goal);
        r.DependsOn := r.DependsOn[..j] + r.DependsOn[j + 1..];
      } else {
        StripKeeps(r.DependsOn, j, done, goal);
      }
      j := j + 1;
    }
    if j == |r.DependsOn| {
      assert r.DependsOn[j..] == [] && r.DependsOn[..j] == r.DependsOn;
    }
  }

  lemma SameIdsAppend<W>(done: seq<Sort.Node<Resource<W>>>, resolved: seq<Resource<W>>, n: Sort.Node<Resource<W>>)
    requires SameIds(done, resolved) && n.id == n.item.Id
    ensures SameIds(done + [n], resolved + [n.item])
  {
  }

  lemma DistinctRemove<T>(xs: seq<T>, i: nat)
    requires i < |xs| && Distinct(xs)
    ensures Distinct(xs[..i] + xs[i + 1..])
    ensures forall x :: x in xs[..i] + xs[i + 1..] ==> x in xs
    ensures xs[i] !in xs[..i] && xs[i] !in xs[i + 1..]
  {
  }

  /** No resource is listed twice, in one list or in both. */
  ghost predicate Apart<T>(rest: seq<T>, resolved: seq<T>) {
    Distinct(rest) && Distinct(resolved) && forall x :: x in rest ==> x !in resolved
  }

  lemma MovedApart<T>(rest: seq<T>, resolved: seq<T>, i: nat)
    requires i < |rest| && Apart(rest, resolved)
    ensures Apart(rest[..i] + rest[i + 1..], resolved + [rest[i]])
    ensures forall x :: x in rest || x in resolved <==> x in rest[..i] + rest[i + 1..] || x in resolved + [rest[i]]
  {
    DistinctRemove(rest, i);
    assert rest[i] in rest;
    assert rest == rest[..i] + [rest[i]] + rest[i + 1..];
  }

  /** A pass has left `before` behind and has `after` ahead; what it will end with is `goal`. */
  ghost predicate PassesTo<T>(before: seq<Sort.Node<T>>, after: seq<Sort.Node<T>>, done: seq<Sort.Node<T>>,
                              goal: (seq<Sort.Node<T>>, seq<Sort.Node<T>>)) {
    var (stay, done') := Sort.Pass(after, done, false);
    before + stay == goal.0 && done' == goal.1
  }

  lemma PassAdvances<T>(before: seq<Sort.Node<T>>, n: Sort.Node<T>, after: seq<Sort.Node<T>>, done: seq<Sort.Node<T>>,
                        goal: (seq<Sort.Node<T>>, seq<Sort.Node<T>>))
    requires PassesTo(before, [n] + after, done, goal)
    ensures var n' := n.(deps := Sort.Strip(n.deps, done, false));
            if n'.deps == [] then PassesTo(before, after, done + [n'], goal) else PassesTo(before + [n'], after, done, goal)
  {
    var n' := n.(deps := Sort.Strip(n.deps, done, false));
    assert ([n] + after)[1..] == after;
    if n'.deps != [] {
      var stay := Sort.Pass(after, done, false).0;
      assert before + ([n'] + stay) == before + [n'] + stay;
    }
  }

  /** One visit of a pass to the resource at `i`; the returned index is where the loop goes on. */
  method VisitWaiting<W>(r: Resource<W>, rest0: seq<Resource<W>>, i0: nat, resolved0: seq<Resource<W>>, ghost needs: map<Resource<W>, seq<string>>,
                         ghost done0: seq<Sort.Node<Resource<W>>>, ghost goal: (seq<Sort.Node<Resource<W>>>, seq<Sort.Node<Resource<W>>>))
      returns (rest: seq<Resource<W>>, i: int, resolved: seq<Resource<W>>, ghost done: seq<Sort.Node<Resource<W>>>)
    requires i0 < |rest0| && r == rest0[i0] && Apart(rest0, resolved0) && (forall r :: r in rest0 ==> r in needs && r.Enabled)
    requires SameIds(done0, resolved0)
    requires PassesTo(Nodes(rest0[..i0], needs), Nodes(rest0[i0..], needs), done0, goal)
    modifies r`DependsOn
    ensures Apart(rest, resolved) && (forall r :: r in rest ==> r in rest0)
    ensures forall r :: r in resolved ==> r in rest0 || r in resolved0
    ensures forall r :: r in rest0 || r in resolved0 ==> r in rest || r in resolved
    ensures 0 <= i <= |rest| && |rest| - i < |rest0| - i0
    ensures SameIds(done, resolved)
    ensures PassesTo(Nodes(rest[..i], needs), Nodes(rest[i..], needs), done, goal)
  {
    hide PassesTo;
    rest, resolved, done, i := rest0, resolved0, done0, i0;
    assert r in rest;
    if r.Enabled {
      ghost var before, after, was := Nodes(rest[..i], needs), Nodes(rest[i + 1..], needs), r.DependsOn;
      ghost var n := Sort.Node(r, r.Id, needs[r], was);
      assert Nodes(rest[i..], needs) == [n] + after;
      PassAdvances(before, n, after, done, goal);
      DistinctRemove(rest, i);
      StripResolved(r, resolved, done);
      assert Nodes(rest[..i], needs) == before && Nodes(rest[i + 1..], needs) == after;
      ghost var n' := Sort.Node(r, r.Id, needs[r], r.DependsOn);
      if |r.DependsOn| == 0 {
        SameIdsAppend(done, resolved, n');
        MovedApart(rest, resolved, i);
        resolved := resolved + [r];
        done := done + [n'];
        rest := rest[..i] + rest[i + 1..];
        assert rest[..i] == rest0[..i] && rest[i..] == rest0[i + 1..];
        i := i - 1;
      } else {
        assert Nodes(rest[..i + 1], needs) == before + [n'];
      }
    }
    i := i + 1;
  }

  /** One pass over `rest`: a resource whose list becomes empty moves to the resolved graph. */
  method PassOver<W>(rest0: seq<Resource<W>>, resolved0: seq<Resource<W>>,
                     ghost needs: map<Resource<W>, seq<string>>, ghost done0: seq<Sort.Node<Resource<W>>>)
      returns (rest: seq<Resource<W>>, resolved: seq<Resource<W>>, ghost done: seq<Sort.Node<Resource<W>>>)
    requires Apart(rest0, resolved0) && (forall r :: r in rest0 ==> r in needs && r.Enabled)
    requires SameIds(done0, resolved0)
    modifies set r | r in rest0 :: r`DependsOn
    ensures Apart(rest, resolved) && (forall r :: r in rest ==> r in rest0)
    ensures forall r :: r in resolved ==> r in rest0 || r in resolved0
    ensures forall r :: r in rest0 || r in resolved0 ==> r in rest || r in resolved
    ensures SameIds(done, resolved)
    ensures (Nodes(rest, needs), done) == Sort.Pass(old(Nodes(rest0, needs)), done0, false)
  {
    rest, resolved, done := rest0, resolved0, done0;
    var i := 0;
    ghost var goal := Sort.Pass(Nodes(rest0, needs), done0, false);
    assert rest[0..] == rest && Nodes(rest[..0], needs) + goal.0 == goal.0;
    while i < |rest|
      invariant 0 <= i <= |rest|
      invariant Apart(rest, resolved) && (forall r :: r in rest ==> r in rest0)
      invariant forall r :: r in resolved ==> r in rest0 || r in resolved0
      invariant forall r :: r in rest0 || r in resolved0 ==> r in rest || r in resolved
      invariant SameIds(done, resolved)
      invariant PassesTo(Nodes(rest[..i], needs), Nodes(rest[i..], needs), done, goal)
      decreases |rest| - i
    {
      assert rest[i] in rest;
      rest, i, resolved, done := VisitWaiting(rest[i], rest, i, resolved, needs, done, goal);
    }
    assert Nodes(rest[i..], needs) == [] && rest[..i] == rest;
    assert Nodes(rest, needs) + [] == Nodes(rest, needs);
  }

  /** The outer loop: passes until nothing is left, or until a pass resolves nothing. */
  method SortResources<W>(rest0: seq<Resource<W>>) returns (rest: seq<Resource<W>>, resolvedGraph: seq<Resource<W>>)
    requires Distinct(rest0) && forall r :: r in rest0 ==> r.Enabled
    modifies set r | r in rest0 :: r`DependsOn
    ensures Distinct(resolvedGraph) && forall r :: r in resolvedGraph ==> r in rest0
    ensures |rest| == 0 ==> forall r :: r in rest0 ==> r in resolvedGraph
    ensures var sorted := Sort.Sort(old(LoadedNodes(rest0)), [], false);
            |rest| == |sorted.0| && resolvedGraph == ItemsOf(sorted.1)
  {
    rest, resolvedGraph := rest0, [];
    ghost var needs := map r | r in rest :: r.DependsOn;
    ghost var done: seq<Sort.Node<Resource<W>>> := [];
    ghost var goal := Sort.Sort(LoadedNodes(rest), [], false);
    assert Nodes(rest, needs) == LoadedNodes(rest);
    var count := -1;
    while |rest| > 0 && |resolvedGraph| != count
      invariant -1 <= count <= |resolvedGraph|
      invariant Apart(rest, resolvedGraph) && (forall r :: r in rest ==> r in needs && r.Enabled && r in rest0)
      invariant forall r :: r in resolvedGraph ==> r in rest0
      invariant forall r :: r in rest0 ==> r in rest || r in resolvedGraph
      invariant SameIds(done, resolvedGraph)
      invariant if |resolvedGraph| == count then (Nodes(rest, needs), done) == goal
                else Sort.Sort(Nodes(rest, needs), done, false) == goal
      decreases |rest|, |resolvedGraph| - count
    {
      count := |resolvedGraph|;
      ghost var nodes := Nodes(rest, needs);
      ghost var done0 := done;
      rest, resolvedGraph, done := PassOver(rest, resolvedGraph, needs, done);
      assert |Nodes(rest, needs)| + |done| == |nodes| + |done0|;
    }
  }

  // ---------------------------------------------------------------- the apply loop

  /** A loop that has made `calls` and `reports` and kept `processed` so far, with `rest` to come, makes `t`. */
  ghost predicate Leads<W>(t: Trace<W>, calls: seq<Call<W>>, reports: seq<int>, processed: seq<Resource<W>>, rest: Trace<W>) {
    t == rest.(calls := calls + rest.calls, reports := reports + rest.reports, processed := processed + rest.processed)
  }

  lemma LeadsOn<W>(t: Trace<W>, calls: seq<Call<W>>, reports: seq<int>, processed: seq<Resource<W>>,
                   r: Resource<W>, v: Visit<W>, made: seq<int>, count: int, rest: Trace<W>)
    requires Leads(t, calls, reports, processed, Continue(r, v, made, count, rest))
    ensures v.fate == Passed ==> Leads(t, calls + v.calls, reports + made, processed, rest)
    ensures v.fate == Processed ==> Leads(t, calls + v.calls, reports + made, processed + [r], rest)
    ensures v.fate == Broke ==> t == Trace(v.world, calls + v.calls, reports + made, processed, count, Raised)
    ensures v.fate == MustReboot ==> t == Trace(v.world, calls + v.calls, reports + made, processed + [r], count, Suspended)
  {
    assert calls + (v.calls + rest.calls) == calls + v.calls + rest.calls;
    assert reports + (made + rest.reports) == reports + made + rest.reports;
    assert processed + ([r] + rest.processed) == processed + [r] + rest.processed;
  }

  /** Where the loop stands: still going with `rest` to come, or ended early with all of `t` made. */
  ghost predicate Stands<W>(t: Trace<W>, rest: seq<Resource<W>>, uninstall: bool, s: Setting<W>, modifier: int,
                            w: W, calls: seq<Call<W>>, reports: seq<int>, processed: seq<Resource<W>>, count: int, end: End) {
    if end == Finished then Leads(t, calls, reports, processed, Loop(rest, uninstall, s, w, count, modifier))
    else t == Trace(w, calls, reports, processed, count, end)
  }

  lemma StandsAtStart<W>(rest: seq<Resource<W>>, uninstall: bool, s: Setting<W>, modifier: int, w: W, count: int)
    ensures Stands(Loop(rest, uninstall, s, w, count, modifier), rest, uninstall, s, modifier, w, [], [], [], count, Finished)
  {
    hide VisitOne;
  }

  lemma StandsAtEnd<W>(t: Trace<W>, uninstall: bool, s: Setting<W>, modifier: int,
                       w: W, calls: seq<Call<W>>, reports: seq<int>, processed: seq<Resource<W>>, count: int)
    requires Stands(t, [], uninstall, s, modifier, w, calls, reports, processed, count, Finished)
    ensures t == Trace(w, calls, reports + [Max(0, modifier * s.changes)], processed, count, Finished)
  {
    hide VisitOne;
  }

  function EndOf(fate: Fate): End {
    match fate case Broke => Raised case MustReboot => Suspended case Passed => Finished case Processed => Finished
  }

  lemma StandsOn<W>(t: Trace<W>, rest: seq<Resource<W>>, uninstall: bool, s: Setting<W>, modifier: int,
                    w: W, calls: seq<Call<W>>, reports: seq<int>, processed: seq<Resource<W>>, count: int)
    requires rest != [] && Stands(t, rest, uninstall, s, modifier, w, calls, reports, processed, count, Finished)
    ensures var v := VisitOne(rest[0], uninstall, s, w);
            var goesOn := v.fate == Passed || v.fate == Processed;
            Stands(t, if goesOn then rest[1..] else rest, uninstall, s, modifier, v.world, calls + v.calls,
                   reports + ReportsOf(v, s, count), if v.fate == Processed || v.fate == MustReboot then processed + [rest[0]] else processed,
                   if goesOn then count + modifier else count, EndOf(v.fate))
  {
    var v := VisitOne(rest[0], uninstall, s, w);
    LeadsOn(t, calls, reports, processed, rest[0], v, ReportsOf(v, s, count), count,
            Loop(rest[1..], uninstall, s, v.world, count + modifier, modifier));
  }

  lemma Regroup<T>(a: seq<T>, b: seq<T>, c: seq<T>)
    requires a <= b <= c
    ensures c == a + (b[|a|..] + c[|b|..])
  {
  }

  lemma ArrangedDistinct<W>(first: seq<Resource<W>>, sorted: seq<Resource<W>>, uninstall: bool)
    requires Distinct(first) && Distinct(sorted) && forall r :: r in first ==> r !in sorted
    ensures Distinct(Arrange(first, sorted, uninstall))
    ensures forall r :: r in Arrange(first, sorted, uninstall) <==> (r in first || r in sorted) && (uninstall ==> !r.NoUninstall)
  {
    ReverseKeeps(sorted);
    ReverseDistinct(sorted);
    ConcatDistinct(first, sorted);
    ConcatDistinct(first, Reverse(sorted));
  }

  /** The elements of one list stand in it as they do in the other. */
  ghost predicate InOrderOf<T>(xs: seq<T>, all: seq<T>) {
    forall i, j :: 0 <= i < j < |xs| ==> Before(all, xs[i], xs[j])
  }

  ghost predicate Before<T>(all: seq<T>, x: T, y: T) {
    exists a, b :: 0 <= a < b < |all| && all[a] == x && all[b] == y
  }

  /** Every always-first resource stands before every other one, and these are in the order of the manifest. */
  ghost predicate FirstInFront<W>(all: seq<Resource<W>>, graph: seq<Resource<W>>) {
    && (forall i, j :: 0 <= i < j < |graph| && graph[j].RunAlwaysFirst ==> graph[i].RunAlwaysFirst)
    && (forall i, j :: 0 <= i < j < |graph| && graph[i].RunAlwaysFirst && graph[j].RunAlwaysFirst ==> Before(all, graph[i], graph[j]))
  }

  lemma BeforeInTail<T>(x: T, all: seq<T>, a: T, b: T)
    requires Before(all, a, b)
    ensures Before([x] + all, a, b)
  {
    var i, j :| 0 <= i < j < |all| && all[i] == a && all[j] == b;
    assert ([x] + all)[i + 1] == a && ([x] + all)[j + 1] == b;
  }

  lemma {:induction false} WhereInOrder<T>(xs: seq<T>, p: T -> bool)
    ensures InOrderOf(Where(xs, p), xs)
  {
    if xs != [] {
      var s := Where(xs, p);
      WhereInOrder(xs[1..], p);
      assert xs == [xs[0]] + xs[1..];
      forall i, j | 0 <= i < j < |s| ensures Before(xs, s[i], s[j]) {
        var rest := Where(xs[1..], p);
        if p(xs[0]) {
          if i == 0 {
            assert s[j] == rest[j - 1] && rest[j - 1] in rest;
            var b :| 0 <= b < |xs[1..]| && xs[1..][b] == s[j];
            assert xs[0] == s[0] && xs[b + 1] == s[j];
          } else {
            assert s[i] == rest[i - 1] && s[j] == rest[j - 1];
            BeforeInTail(xs[0], xs[1..], s[i], s[j]);
          }
        } else {
          BeforeInTail(xs[0], xs[1..], s[i], s[j]);
        }
      }
    }
  }

  lemma OrderThrough<T>(xs: seq<T>, ys: seq<T>, all: seq<T>)
    requires InOrderOf(xs, ys) && InOrderOf(ys, all)
    ensures InOrderOf(xs, all)
  {
    forall i, j | 0 <= i < j < |xs| ensures Before(all, xs[i], xs[j]) {
      assert Before(ys, xs[i], xs[j]);
      var a, b :| 0 <= a < b < |ys| && ys[a] == xs[i] && ys[b] == xs[j];
      assert Before(all, ys[a], ys[b]);
    }
  }

  lemma SelectedInOrder<W>(rs: seq<Resource<W>>, disabled: seq<string>)
    ensures InOrderOf(First(Selected(rs, disabled)), rs)
  {
    WhereInOrder(rs, (r: Resource<W>) => r.Enabled && r.Id !in disabled);
    WhereInOrder(Selected(rs, disabled), (r: Resource<W>) => r.RunAlwaysFirst);
    OrderThrough(First(Selected(rs, disabled)), Selected(rs, disabled), rs);
  }

  lemma ArrangedInFront<W>(all: seq<Resource<W>>, first: seq<Resource<W>>, sorted: seq<Resource<W>>, uninstall: bool)
    requires InOrderOf(first, all)
    requires (forall r :: r in first ==> r.RunAlwaysFirst) && (forall r :: r in sorted ==> !r.RunAlwaysFirst)
    ensures FirstInFront(all, Arrange(first, sorted, uninstall))
  {
    ReverseKeeps(sorted);
    ConcatInFront(all, first, sorted);
    ConcatInFront(all, first, Reverse(sorted));
    if uninstall {
      var graph := first + Reverse(sorted);
      var kept := Arrange(first, sorted, true);
      WhereInOrder(graph, (r: Resource<W>) => !r.NoUninstall);
      forall i, j | 0 <= i < j < |kept|
        ensures kept[j].RunAlwaysFirst ==> kept[i].RunAlwaysFirst
        ensures kept[i].RunAlwaysFirst && kept[j].RunAlwaysFirst ==> Before(all, kept[i], kept[j])
      {
        assert Before(graph, kept[i], kept[j]);
        var a, b :| 0 <= a < b < |graph| && graph[a] == kept[i] && graph[b] == kept[j];
      }
    }
  }

  lemma ConcatInFront<W>(all: seq<Resource<W>>, first: seq<Resource<W>>, others: seq<Resource<W>>)
    requires InOrderOf(first, all)
    requires (forall r :: r in first ==> r.RunAlwaysFirst) && (forall r :: r in others ==> !r.RunAlwaysFirst)
    ensures FirstInFront(all, first + others)
  {
    var graph := first + others;
    forall i | 0 <= i < |graph| ensures graph[i].RunAlwaysFirst <==> i < |first| {
      if i < |first| { assert graph[i] in first; } else { assert graph[i] in others; }
    }
  }

  lemma ReverseDistinct<T>(xs: seq<T>)
    requires Distinct(xs)
    ensures Distinct(Reverse(xs))
  {}

  lemma ConcatDistinct<T>(a: seq<T>, b: seq<T>)
    requires Distinct(a) && Distinct(b) && forall x :: x in a ==> x !in b
    ensures Distinct(a + b)
  {
    forall i, j | 0 <= i < j < |a + b| ensures (a + b)[i] != (a + b)[j] {
      assert i < |a| ==> a[i] in a;
      assert j >= |a| ==> b[j - |a|] in b;
    }
  }

  lemma FreshlyVisited<T>(xs: seq<T>, i: nat, seen: seq<T>)
    requires i < |xs| && Distinct(xs) && Distinct(seen) && forall x :: x in seen ==> x in xs[..i]
    ensures xs[i] !in seen && Distinct(seen + [xs[i]])
    ensures forall x :: x in seen + [xs[i]] ==> x in xs[..i + 1]
  {
    assert xs[i] !in xs[..i];
    assert xs[..i + 1] == xs[..i] + [xs[i]];
  }

  /** The reboot flags are as the manifest has set them. */
  ghost predicate FlagsAsLoaded<W>(rs: seq<Resource<W>>)
    reads set r | r in rs :: r`RequiresReboot
  {
    forall r :: r in rs ==> r.RequiresReboot == r.RebootInManifest
  }

  class ConfigurationManifest<W> {
    const Resources: seq<Resource<W>>

    constructor (resources: seq<Resource<W>>)
      ensures Resources == resources
    {
      Resources := resources;
    }

    /** The graph to apply, or nothing when the source throws because dependencies cannot be resolved. */
    method BuildDependencyGraph(context: ConfigurationContext<W>) returns (found: bool, graph: seq<Resource<W>>)
      requires Distinct(Resources)
      modifies context`Disabled, context`StateFile, set r | r in Resources :: r`DependsOn
      ensures var selected := Selected(Resources, DisabledIn(old(context.Disabled)));
              var sorted := Sort.Sort(old(LoadedNodes(Others(selected))), [], false);
              && (found <==> Sort.Accepted(old(LoadedNodes(Others(selected))), false))
              && (found ==> graph == Arrange(First(selected), ItemsOf(sorted.1), context.Uninstall))
      ensures found ==> Distinct(graph) && forall r :: r in graph <==>
                && r in Resources && r.Enabled && (context.Uninstall ==> !r.NoUninstall)
                && !(old(context.Disabled).FromFile? && r.Id in old(context.Disabled).ids)
      ensures found ==> FirstInFront(Resources, graph)
      ensures found ==> context.Disabled == Stored(SavedIds(Resources)) && context.StateFile == FromFile(SavedIds(Resources))
      ensures !found ==> context.Disabled == old(context.Disabled) && context.StateFile == old(context.StateFile)
    {
      var resources := Selected(Resources, DisabledIn(context.Disabled));
      var allwaysFirst := First(resources);
      var rest, resolvedGraph := SortResources(Others(resources));
      if |rest| > 0 {
        return false, [];
      }
      graph := Arrange(allwaysFirst, resolvedGraph, context.Uninstall);
      ArrangedDistinct(allwaysFirst, resolvedGraph, context.Uninstall);
      SelectedInOrder(Resources, DisabledIn(context.Disabled));
      ArrangedInFront(Resources, allwaysFirst, resolvedGraph, context.Uninstall);
      context.SaveDisabled(SavedIds(Resources));
      found := true;
    }

    ghost function SettingOf(context: ConfigurationContext<W>, changes: nat): Setting<W> {
      Setting(context.Updating, context.Restart, true, changes, context.Rebooting)
    }

    /** The nested function.  Everything is decided on `context`; only the failure handling looks at `ownUninstall`, the mode
        of the context the caller passed. */
    method ApplyResources(context: ConfigurationContext<W>, resources: seq<Resource<W>>, ownUninstall: bool,
                          initialCount: int, countModifier: int, changes: nat) returns (result: Result)
      requires ownUninstall || !context.Uninstall
      requires Distinct(resources) && FlagsAsLoaded(resources)
      modifies context`World, context`Calls, context`Reports, context`RestartPending, set r | r in resources :: r`RequiresReboot
      ensures var o := Inner(resources, Captured, context.Uninstall, ownUninstall, SettingOf(context, changes),
                             old(context.World), initialCount, countModifier);
              && context.World == o.world && result == o.result
              && context.Calls == old(context.Calls) + o.calls
              && context.Reports == old(context.Reports) + o.reports
              && context.RestartPending == (old(context.RestartPending) || o.pending)
      decreases !ownUninstall
    {
      ghost var calls0, reports0 := context.Calls, context.Reports;
      var end, processed, count := RunLoop(context, resources, initialCount, countModifier, changes);
      match end
      case Finished =>
        result := Succeeded;
      case Suspended =>
        context.RestartPending := true;
        result := PendingRestart;
      case Raised =>
        if ownUninstall {
          result := Failed;
        } else {
          ghost var calls1, reports1 := context.Calls, context.Reports;
          ReverseKeeps(processed);
          ReverseDistinct(processed);
          var _ := ApplyResources(context, Reverse(processed), true, count, -1, changes);
          Regroup(calls0, calls1, context.Calls);
          Regroup(reports0, reports1, context.Reports);
          result := RolledBack;
        }
    }

    /** The loop over the resources, up to its normal end, its early return for a reboot, or an exception. */
    method RunLoop(context: ConfigurationContext<W>, resources: seq<Resource<W>>, initialCount: int, countModifier: int, changes: nat)
        returns (end: End, processed: seq<Resource<W>>, count: int)
      requires Distinct(resources) && FlagsAsLoaded(resources)
      modifies context`World, context`Calls, context`Reports, set r | r in resources :: r`RequiresReboot
      ensures Distinct(processed) && (forall r :: r in processed ==> r in resources)
      ensures end == Raised ==> FlagsAsLoaded(processed)
      ensures var t := Loop(resources, context.Uninstall, SettingOf(context, changes), old(context.World), initialCount, countModifier);
              && t == Trace(context.World, t.calls, t.reports, processed, count, end)
              && context.Calls == old(context.Calls) + t.calls
              && context.Reports == old(context.Reports) + t.reports
    {
      hide VisitOne, Leads, Loop;
      count, processed, end := initialCount, [], Finished;
      var i := 0;
      ghost var s := SettingOf(context, changes);
      ghost var t := Loop(resources, context.Uninstall, s, context.World, count, countModifier);
      ghost var calls, reports := [], [];
      assert resources[0..] == resources;
      StandsAtStart(resources, context.Uninstall, s, countModifier, context.World, count);
      while i < |resources| && end == Finished
        invariant 0 <= i <= |resources|
        invariant Distinct(processed) && forall r :: r in processed ==> r in resources
        invariant end == Finished ==> FlagsAsLoaded(resources) && forall r :: r in processed ==> r in resources[..i]
        invariant end == Raised ==> FlagsAsLoaded(processed)
        invariant context.Calls == old(context.Calls) + calls && context.Reports == old(context.Reports) + reports
        invariant Stands(t, resources[i..], context.Uninstall, s, countModifier, context.World, calls, reports, processed, count, end)
        decreases |resources| - i, end == Finished
      {
        var r := resources[i];
        assert resources[i..][0] == r && resources[i..][1..] == resources[i + 1..];
        assert r in resources;
        FreshlyVisited(resources, i, processed);
        var fate;
        fate, calls, reports := Iterate(context, r, count, t, resources[i..], s, countModifier, old(context.Calls), calls,
                                        old(context.Reports), reports, processed);
        end := EndOf(fate);
        if fate == MustReboot || fate == Processed {
          processed := processed + [r];
        }
        if end == Finished {
          count := count + countModifier;
          i := i + 1;
        }
      }
      if end == Finished {
        assert resources[i..] == [];
        StandsAtEnd(t, context.Uninstall, s, countModifier, context.World, calls, reports, processed, count);
        Associates(old(context.Reports), reports, [Max(0, countModifier * changes)]);
        context.ReportProgress(Max(0, countModifier * changes));
      }
    }

    /** One iteration, in terms of where the loop stands before and after it. */
    method Iterate(context: ConfigurationContext<W>, r: Resource<W>, count: int, ghost t: Trace<W>, ghost rest: seq<Resource<W>>,
                   ghost s: Setting<W>, ghost modifier: int, ghost calls0: seq<Call<W>>, ghost calls: seq<Call<W>>,
                   ghost reports0: seq<int>, ghost reports: seq<int>, ghost processed: seq<Resource<W>>)
        returns (fate: Fate, ghost calls': seq<Call<W>>, ghost reports': seq<int>)
      requires rest != [] && rest[0] == r && s == SettingOf(context, s.changes)
      requires Stands(t, rest, context.Uninstall, s, modifier, context.World, calls, reports, processed, count, Finished)
      requires context.Calls == calls0 + calls && context.Reports == reports0 + reports
      requires r.RequiresReboot == r.RebootInManifest
      modifies context`World, context`Calls, context`Reports, r`RequiresReboot
      ensures fate == Processed || fate == Passed ==> r.RequiresReboot == r.RebootInManifest
      ensures context.Calls == calls0 + calls' && context.Reports == reports0 + reports'
      ensures var goesOn := EndOf(fate) == Finished;
              Stands(t, if goesOn then rest[1..] else rest, context.Uninstall, s, modifier, context.World, calls', reports',
                     if fate == MustReboot || fate == Processed then processed + [r] else processed,
                     if goesOn then count + modifier else count, EndOf(fate))
    {
      StandsOn(t, rest, context.Uninstall, s, modifier, context.World, calls, reports, processed, count);
      ghost var v := VisitOne(r, context.Uninstall, s, context.World);
      fate := Visit(context, r, count, s.changes);
      Associates(calls0, calls, v.calls);
      Associates(reports0, reports, ReportsOf(v, s, count));
      calls', reports' := calls + v.calls, reports + ReportsOf(v, s, count);
    }

    /** The loop body for one resource: test it, set or unset it, and ask for a reboot if it needs one. */
    method Visit(context: ConfigurationContext<W>, r: Resource<W>, count: int, ghost changes: nat) returns (fate: Fate)
      requires r.RequiresReboot == r.RebootInManifest
      modifies context`World, context`Calls, context`Reports, r`RequiresReboot
      ensures fate == Processed || fate == Passed ==> r.RequiresReboot == r.RebootInManifest
      ensures var v := VisitOne(r, context.Uninstall, SettingOf(context, changes), old(context.World));
              && fate == v.fate && context.World == v.world
              && context.Calls == old(context.Calls) + v.calls
              && context.Reports == old(context.Reports) + ReportsOf(v, SettingOf(context, changes), count)
    {
      var probe := context.Test(r);
      if probe.ProbeThrew? {
        return Broke;
      }
      var test := probe.holds;
      if r.RunAlways {
        test := false;
      } else if context.Uninstall {
        test := !test;
      } else if context.Updating(context.World) {
        match r.OnUpdate
        case Install =>
          if test {
            var threw := context.Run(r, true);
            if threw {
              return Broke;
            }
            test := false;
          }
        case Skip =>
          test := true;
        case NoAction =>
      }
      if test {
        return Passed;
      }
      context.ReportProgress(count);
      var threw := context.Run(r, context.Uninstall);
      fate := if threw then Broke else if r.RequiresReboot then MustReboot else Processed;
      if fate == MustReboot && !context.Rebooting {
        context.ReportProgress(0);
      }
    }

    /** A whole installer run on a context made for it. */
    method Apply(context: ConfigurationContext<W>) returns (found: bool, result: Result, ghost graph: seq<Resource<W>>)
      requires Distinct(Resources) && FlagsAsLoaded(Resources)
      requires !context.RestartPending && context.Calls == [] && context.Reports == []
      modifies context, set r | r in Resources
      ensures var selected := Selected(Resources, DisabledIn(old(context.Disabled)));
              var start := old(LoadedNodes(Others(selected)));
              && (found <==> Sort.Accepted(start, false))
              && (found ==> graph == Arrange(First(selected), ItemsOf(Sort.Sort(start, [], false).1), context.Uninstall))
      ensures found ==>
                var o := Interpreter.Apply(graph, Captured, context.Uninstall, SettingOf(context, |graph|), old(context.World));
                && result == o.result && context.World == o.world && context.Calls == o.calls
                && context.Reports == o.reports && context.RestartPending == o.pending
      ensures found && result != RolledBack ==> (context.RestartPending <==> result == PendingRestart)
      ensures found ==> context.StateFile == if context.RestartPending then FromFile(SavedIds(Resources)) else Missing
      ensures !found ==> context.World == old(context.World) && context.Calls == [] && context.StateFile == old(context.StateFile)
    {
      hide Interpreter.Apply, Sort.Sort, FirstInFront, Where;
      var resources;
      found, resources := BuildDependencyGraph(context);
      graph := resources;
      result := Failed;
      if found {
        PendingExactly(graph, Captured, context.Uninstall, SettingOf(context, |graph|), context.World);
        result := ApplyGraph(context, resources);
      }
    }

    method ApplyGraph(context: ConfigurationContext<W>, graph: seq<Resource<W>>) returns (result: Result)
      requires Distinct(graph) && FlagsAsLoaded(graph)
      requires !context.RestartPending && context.Calls == [] && context.Reports == []
      modifies context, set r | r in graph :: r`RequiresReboot
      ensures var o := Interpreter.Apply(graph, Captured, context.Uninstall, SettingOf(context, |graph|), old(context.World));
              && result == o.result && context.World == o.world && context.Calls == o.calls
              && context.Reports == o.reports && context.RestartPending == o.pending
      ensures context.StateFile == if context.RestartPending then old(context.StateFile) else Missing
    {
      hide Inner;
      context.ReportProgress(0);
      result := ApplyResources(context, graph, context.Uninstall, 0, 1, |graph|);
      if !context.RestartPending {
        context.ClearState();
      }
    }
  }
}
