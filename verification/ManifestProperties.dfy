/** What the dependency graph of a manifest guarantees, and how the saved disabled ids carry over to the next run. */
module ManifestProperties {
  import opened Resources
  import opened Interpreter
  import opened Manifest
  import Sort = DependencySort
  import Text

  /** Nodes that stand for resources about to be sorted. */
  ghost predicate Represents<W>(ns: seq<Sort.Node<Resource<W>>>, rs: seq<Resource<W>>) {
    |ns| == |rs| && forall i :: 0 <= i < |rs| ==> ns[i].item == rs[i] && ns[i].id == rs[i].Id && ns[i].deps == ns[i].needs
  }

  lemma {:induction false} CountIsMultiplicity<T>(ns: seq<Sort.Node<T>>, x: T)
    ensures multiset(ItemsOf(ns))[x] == Sort.Count(ns, x)
  {
    if ns != [] {
      CountIsMultiplicity(ns[1..], x);
      assert ItemsOf(ns) == [ns[0].item] + ItemsOf(ns[1..]);
    }
  }

  lemma {:induction false} WherePartitions<T>(xs: seq<T>, p: T -> bool, q: T -> bool)
    requires forall x :: x in xs ==> q(x) == !p(x)
    ensures multiset(Where(xs, p)) + multiset(Where(xs, q)) == multiset(xs)
  {
    if xs != [] {
      assert xs[0] in xs && forall x :: x in xs[1..] ==> x in xs;
      WherePartitions(xs[1..], p, q);
      assert xs == [xs[0]] + xs[1..];
    }
  }

  lemma {:induction false} ReverseMultiset<T>(xs: seq<T>)
    ensures multiset(Reverse(xs)) == multiset(xs)
  {
    if xs != [] {
      ReverseMultiset(xs[1..]);
      assert xs == [xs[0]] + xs[1..];
    }
  }

  /** The ids of sorted nodes are the ids of their resources. */
  ghost predicate Labelled<W>(ns: seq<Sort.Node<Resource<W>>>) {
    forall i :: 0 <= i < |ns| ==> ns[i].id == ns[i].item.Id
  }

  lemma {:induction false} PassLabelled<W>(rest: seq<Sort.Node<Resource<W>>>, done: seq<Sort.Node<Resource<W>>>)
    requires Labelled(rest) && Labelled(done)
    ensures Labelled(Sort.Pass(rest, done, false).0) && Labelled(Sort.Pass(rest, done, false).1)
  {
    if rest != [] {
      var n := rest[0].(deps := Sort.Strip(rest[0].deps, done, false));
      PassLabelled(rest[1..], if n.deps == [] then done + [n] else done);
    }
  }

  lemma {:induction false} SortLabelled<W>(rest: seq<Sort.Node<Resource<W>>>, done: seq<Sort.Node<Resource<W>>>)
    requires Labelled(rest) && Labelled(done)
    ensures Labelled(Sort.Sort(rest, done, false).1)
    decreases |rest|
  {
    if rest != [] {
      PassLabelled(rest, done);
      var (stay, done') := Sort.Pass(rest, done, false);
      if |done'| != |done| { SortLabelled(stay, done'); }
    }
  }

  /** Every selected resource is in the graph exactly as often as it was selected, in either mode, before resources that
      are not uninstalled are taken out. */
  lemma GraphHoldsSelection<W>(selected: seq<Resource<W>>, start: seq<Sort.Node<Resource<W>>>)
    requires Represents(start, Others(selected)) && Sort.Accepted(start, false)
    ensures var sorted := ItemsOf(Sort.Sort(start, [], false).1);
            && multiset(First(selected) + sorted) == multiset(selected)
            && multiset(First(selected) + Reverse(sorted)) == multiset(selected)
  {
    var nodes := Sort.Sort(start, [], false).1;
    Sort.SortSound(start, false);
    var sorted := ItemsOf(nodes);
    assert ItemsOf(start) == Others(selected);
    forall x ensures multiset(sorted)[x] == multiset(Others(selected))[x] {
      CountIsMultiplicity(nodes, x);
      CountIsMultiplicity(start, x);
    }
    assert multiset(sorted) == multiset(Others(selected));
    WherePartitions(selected, (r: Resource<W>) => r.RunAlwaysFirst, (r: Resource<W>) => !r.RunAlwaysFirst);
    ReverseMultiset(sorted);
  }

  /** A resource at a position in `lo .. hi` has the id, but for case. */
  predicate NamedWithin<W>(rs: seq<Resource<W>>, lo: nat, hi: nat, id: string) {
    exists j :: lo <= j < hi && j < |rs| && Text.EqualFold(rs[j].Id, id)
  }

  /** Node `i` stands at its place in the install and in the uninstall order, and `d` is the id of a sorted resource strictly
      before it in the former and strictly after it in the latter. */
  ghost predicate MatchedBothWays<W>(first: seq<Resource<W>>, nodes: seq<Sort.Node<Resource<W>>>, i: nat, d: string)
    requires i < |nodes|
  {
    var up, down := first + ItemsOf(nodes), first + Reverse(ItemsOf(nodes));
    && up[|first| + i] == nodes[i].item == down[|down| - 1 - i]
    && NamedWithin(up, |first|, |first| + i, d)
    && NamedWithin(down, |down| - i, |down|, d)
  }

  /** Installing, every id a sorted resource listed when the manifest was loaded is matched, but for case, by a
      strictly earlier sorted resource; uninstalling, by a strictly later one. */
  lemma GraphOrdersDependencies<W>(selected: seq<Resource<W>>, start: seq<Sort.Node<Resource<W>>>)
    requires Represents(start, Others(selected)) && Sort.Accepted(start, false)
    ensures var nodes := Sort.Sort(start, [], false).1;
            forall i, d :: 0 <= i < |nodes| && d in nodes[i].needs ==> MatchedBothWays(First(selected), nodes, i, d)
  {
    hide Sort.Sort, Represents, First, Others;
    var nodes := Sort.Sort(start, [], false).1;
    var first := First(selected);
    SortedIsLabelled(selected, start);
    forall i, d | 0 <= i < |nodes| && d in nodes[i].needs
      ensures MatchedBothWays(first, nodes, i, d)
    {
      DependencyMatched(first, nodes, i, d);
    }
  }

  lemma SortedIsLabelled<W>(selected: seq<Resource<W>>, start: seq<Sort.Node<Resource<W>>>)
    requires Represents(start, Others(selected)) && Sort.Accepted(start, false)
    ensures Sort.Ordered(Sort.Sort(start, [], false).1) && Labelled(Sort.Sort(start, [], false).1)
  {
    Sort.SortSound(start, false);
    SortLabelled(start, []);
  }

  lemma DependencyMatched<W>(first: seq<Resource<W>>, nodes: seq<Sort.Node<Resource<W>>>, i: nat, d: string)
    requires Sort.Ordered(nodes) && Labelled(nodes) && i < |nodes| && d in nodes[i].needs
    ensures MatchedBothWays(first, nodes, i, d)
  {
    var up, down := first + ItemsOf(nodes), first + Reverse(ItemsOf(nodes));
    var k :| 0 <= k < |nodes[..i]| && Text.EqualFold(nodes[..i][k].id, d);
    assert nodes[..i][k] == nodes[k];
    assert up[|first| + k].Id == nodes[k].id;
    assert down[|down| - 1 - k].Id == nodes[k].id;
  }

  // ---------------------------------------------------------------- disabled ids

  lemma {:induction false} WhereAgrees<T>(xs: seq<T>, p: T -> bool, q: T -> bool)
    requires forall x :: x in xs ==> p(x) == q(x)
    ensures Where(xs, p) == Where(xs, q)
  {
    if xs != [] {
      assert xs[0] in xs && forall x :: x in xs[1..] ==> x in xs;
      WhereAgrees(xs[1..], p, q);
    }
  }

  lemma SavedIdsExactly<W>(rs: seq<Resource<W>>, id: string)
    ensures id in SavedIds(rs) <==> exists i :: 0 <= i < |rs| && !rs[i].Enabled && rs[i].Id == id
  {
    var off := Where(rs, (r: Resource<W>) => !r.Enabled);
    if id in SavedIds(rs) {
      var k :| 0 <= k < |off| && IdsOf(off)[k] == id;
      assert off[k] in off;
      var i :| 0 <= i < |rs| && rs[i] == off[k];
    }
    if exists i :: 0 <= i < |rs| && !rs[i].Enabled && rs[i].Id == id {
      var i :| 0 <= i < |rs| && !rs[i].Enabled && rs[i].Id == id;
      assert rs[i] in rs;
      var k :| 0 <= k < |off| && off[k] == rs[i];
      assert IdsOf(off)[k] == id;
    }
  }

  /** A run that loads `ids` from the state file and is suspended saves only ids of resources its own manifest object has
      disabled.  So the next run of the same manifest selects the same resources exactly when
      none of the loaded ids names a resource that the manifest enables. */
  lemma SelectionSurvivesExactly<W>(rs: seq<Resource<W>>, ids: seq<string>)
    requires forall i, j :: 0 <= i < j < |rs| ==> rs[i].Id != rs[j].Id
    ensures Selected(rs, SavedIds(rs)) == Selected(rs, ids) <==> forall r :: r in rs && r.Enabled ==> r.Id !in ids
  {
    forall r | r in rs && r.Enabled ensures r.Id !in SavedIds(rs) {
      SavedIdsExactly(rs, r.Id);
    }
    if forall r :: r in rs && r.Enabled ==> r.Id !in ids {
      WhereAgrees(rs, (r: Resource<W>) => r.Enabled && r.Id !in SavedIds(rs), (r: Resource<W>) => r.Enabled && r.Id !in ids);
    } else {
      var r :| r in rs && r.Enabled && r.Id in ids;
      assert r in Selected(rs, SavedIds(rs)) && r !in Selected(rs, ids);
    }
  }
}
