/** The stall-detecting dependency sort on values: what its nested loops do to the lists `rest` and
    `resolvedGraph` and to the dependency lists, and when it accepts a manifest. */
module DependencySort {
  import Text

  /** A resource to be sorted: `needs` is its dependency list as loaded, `deps` what is left of it. */
  datatype Node<T> = Node(item: T, id: string, needs: seq<string>, deps: seq<string>)

  predicate Matches<T>(done: seq<Node<T>>, d: string) {
    exists i :: 0 <= i < |done| && Text.EqualFold(done[i].id, d)
  }

  /** One visit to a dependency list: matched entries are removed, but the index still moves on after a
      removal, so the entry behind a removed one is kept untested.  With `back` the index steps back
      after a removal, which is what the code evidently intends. */
  function Strip<T>(deps: seq<string>, done: seq<Node<T>>, back: bool): (r: seq<string>)
    ensures |r| <= |deps|
    ensures forall d :: d in r ==> d in deps
    ensures forall d :: d in deps && d !in r ==> Matches(done, d)
  {
    if deps == [] then []
    else if Matches(done, deps[0]) then
      if back || |deps| == 1 then Strip(deps[1..], done, back)
      else
        assert deps == deps[..2] + deps[2..];
        [deps[1]] + Strip(deps[2..], done, back)
    else [deps[0]] + Strip(deps[1..], done, back)
  }

  /** One pass of the outer loop: what stays in `rest`, and the resolved list. */
  function Pass<T>(rest: seq<Node<T>>, done: seq<Node<T>>, back: bool): (r: (seq<Node<T>>, seq<Node<T>>))
    ensures |r.0| + |r.1| == |rest| + |done|
    ensures done <= r.1
  {
    if rest == [] then ([], done)
    else
      var n := rest[0].(deps := Strip(rest[0].deps, done, back));
      if n.deps == [] then Pass(rest[1..], done + [n], back)
      else
        var (stay, done') := Pass(rest[1..], done, back);
        ([n] + stay, done')
  }

  /** The outer loop: passes until nothing is left or a pass resolves nothing. */
  function Sort<T>(rest: seq<Node<T>>, done: seq<Node<T>>, back: bool): (r: (seq<Node<T>>, seq<Node<T>>))
    decreases |rest|
  {
    if rest == [] then ([], done)
    else
      var (stay, done') := Pass(rest, done, back);
      if |done'| == |done| then (stay, done') else Sort(stay, done', back)
  }

  ghost predicate Unstripped<T>(rest: seq<Node<T>>) {
    forall n :: n in rest ==> n.deps == n.needs
  }

  ghost predicate Accepted<T>(rest: seq<Node<T>>, back: bool) {
    Sort(rest, [], back).0 == []
  }

  // ---------------------------------------------------------------- soundness

  /** Every dependency a resource was loaded with is still listed or already matched. */
  ghost predicate Honest<T>(n: Node<T>, done: seq<Node<T>>) {
    && (forall d :: d in n.needs ==> d in n.deps || Matches(done, d))
    && (forall d :: d in n.deps ==> d in n.needs)
    && |n.deps| <= |n.needs|
  }

  /** Every element of the list has all its dependencies matched strictly before it. */
  ghost predicate Ordered<T>(done: seq<Node<T>>) {
    forall i, d :: 0 <= i < |done| && d in done[i].needs ==> Matches(done[..i], d)
  }

  /** How often a resource occurs in a list. */
  ghost function Count<T>(ns: seq<Node<T>>, x: T): nat {
    if ns == [] then 0 else (if ns[0].item == x then 1 else 0) + Count(ns[1..], x)
  }

  lemma MatchesGrows<T>(a: seq<Node<T>>, b: seq<Node<T>>, d: string)
    requires a <= b && Matches(a, d)
    ensures Matches(b, d)
  {
    var i :| 0 <= i < |a| && Text.EqualFold(a[i].id, d);
    assert b[i] == a[i];
  }

  lemma {:induction false} CountAppend<T>(a: seq<Node<T>>, b: seq<Node<T>>, x: T)
    ensures Count(a + b, x) == Count(a, x) + Count(b, x)
  {
    if a == [] {
      assert a + b == b;
    } else {
      assert (a + b)[1..] == a[1..] + b;
      CountAppend(a[1..], b, x);
    }
  }

  lemma StripHonest<T>(n: Node<T>, done: seq<Node<T>>, back: bool)
    requires Honest(n, done)
    ensures Honest(n.(deps := Strip(n.deps, done, back)), done)
  {
  }

  lemma HonestGrows<T>(n: Node<T>, a: seq<Node<T>>, b: seq<Node<T>>)
    requires a <= b && Honest(n, a)
    ensures Honest(n, b)
  {
    forall d | d in n.needs && d !in n.deps ensures Matches(b, d) {
      MatchesGrows(a, b, d);
    }
  }

  lemma OrderedAppend<T>(done: seq<Node<T>>, n: Node<T>)
    requires Ordered(done) && Honest(n, done) && n.deps == []
    ensures Ordered(done + [n])
  {
    var all := done + [n];
    forall i, d | 0 <= i < |all| && d in all[i].needs ensures Matches(all[..i], d) {
      assert all[..i] == done[..i];
      if i == |done| {
        assert done[..i] == done;
      }
    }
  }

  ghost predicate Sound<T>(rest: seq<Node<T>>, done: seq<Node<T>>) {
    Ordered(done) && forall n :: n in rest ==> Honest(n, done)
  }

  /** The pair of lists a pass makes from a sound pair is sound. */
  lemma {:induction false} PassSound<T>(rest: seq<Node<T>>, done: seq<Node<T>>, back: bool)
    requires Sound(rest, done)
    ensures Sound(Pass(rest, done, back).0, Pass(rest, done, back).1)
  {
    if rest != [] {
      assert rest[0] in rest;
      assert forall x :: x in rest[1..] ==> x in rest;
      StripHonest(rest[0], done, back);
      var n := rest[0].(deps := Strip(rest[0].deps, done, back));
      if n.deps == [] {
        OrderedAppend(done, n);
        forall x | x in rest[1..] ensures Honest(x, done + [n]) {
          HonestGrows(x, done, done + [n]);
        }
        PassSound(rest[1..], done + [n], back);
      } else {
        PassSound(rest[1..], done, back);
        HonestGrows(n, done, Pass(rest[1..], done, back).1);
      }
    }
  }

  /** Removing and adding in place, a pass neither loses nor duplicates a resource. */
  lemma {:induction false} PassKeepsCount<T>(rest: seq<Node<T>>, done: seq<Node<T>>, back: bool, x: T)
    ensures var (stay, done') := Pass(rest, done, back);
            Count(stay, x) + Count(done', x) == Count(rest, x) + Count(done, x)
  {
    if rest != [] {
      var n := rest[0].(deps := Strip(rest[0].deps, done, back));
      if n.deps == [] {
        PassKeepsCount(rest[1..], done + [n], back, x);
        CountAppend(done, [n], x);
      } else {
        PassKeepsCount(rest[1..], done, back, x);
        CountAppend([n], Pass(rest[1..], done, back).0, x);
      }
    }
  }

  lemma {:induction false} SortKeepsCount<T>(rest: seq<Node<T>>, done: seq<Node<T>>, back: bool, x: T)
    ensures var (stay, done') := Sort(rest, done, back);
            Count(stay, x) + Count(done', x) == Count(rest, x) + Count(done, x)
    decreases |rest|
  {
    if rest != [] {
      PassKeepsCount(rest, done, back, x);
      var (stay, done') := Pass(rest, done, back);
      if |done'| != |done| { SortKeepsCount(stay, done', back, x); }
    }
  }

  lemma {:induction false} SortSoundFrom<T>(rest: seq<Node<T>>, done: seq<Node<T>>, back: bool)
    requires Sound(rest, done)
    ensures Sound(Sort(rest, done, back).0, Sort(rest, done, back).1)
    decreases |rest|
  {
    if rest != [] {
      PassSound(rest, done, back);
      var (stay, done') := Pass(rest, done, back);
      if |done'| != |done| {
        SortSoundFrom(stay, done', back);
      }
    }
  }

  /** Whatever the dependency lists: when the sort accepts, each resource is in the result as often as it was in
      the list, and every id it listed is matched, but for case, by a strictly earlier element. */
  lemma SortSound<T>(rest: seq<Node<T>>, back: bool)
    requires Unstripped(rest) && Accepted(rest, back)
    ensures Ordered(Sort(rest, [], back).1)
    ensures forall x :: Count(Sort(rest, [], back).1, x) == Count(rest, x)
  {
    SortSoundFrom(rest, [], back);
    forall x ensures Count(Sort(rest, [], back).1, x) == Count(rest, x) {
      SortKeepsCount(rest, [], back, x);
    }
  }

  // ---------------------------------------------------------------- exactness

  /** What ordering depends on: a resource's id and the ids it was loaded with. */
  datatype Key = Key(id: string, needs: seq<string>)

  function KeyOf<T>(n: Node<T>): Key { Key(n.id, n.needs) }

  /** A manifest is well founded when its resources have ranks such that each listed id is matched by a resource
      of lower rank: the dependencies are closed and have no cycle. */
  ghost predicate RankedBy<T>(rest: seq<Node<T>>, rank: Key -> nat) {
    forall i, d :: 0 <= i < |rest| && d in rest[i].needs ==> HasLower(rest, rank, KeyOf(rest[i]), d)
  }

  ghost predicate HasLower<T>(rest: seq<Node<T>>, rank: Key -> nat, k: Key, d: string) {
    exists j :: 0 <= j < |rest| && Text.EqualFold(rest[j].id, d) && rank(KeyOf(rest[j])) < rank(k)
  }

  ghost predicate WellFounded<T>(rest: seq<Node<T>>) {
    exists rank: Key -> nat :: RankedBy(rest, rank)
  }

  ghost predicate Waits<T>(k: Key, rest: seq<Node<T>>) {
    exists i :: 0 <= i < |rest| && KeyOf(rest[i]) == k
  }

  /** Each original resource is still waiting or already resolved, and nothing else is. */
  ghost predicate Covers<T>(orig: seq<Node<T>>, rest: seq<Node<T>>, done: seq<Node<T>>) {
    forall k :: Waits(k, orig) <==> Waits(k, rest) || Waits(k, done)
  }

  lemma WaitsAppend<T>(k: Key, a: seq<Node<T>>, b: seq<Node<T>>)
    ensures Waits(k, a + b) <==> Waits(k, a) || Waits(k, b)
  {
    if Waits(k, a) {
      var i :| 0 <= i < |a| && KeyOf(a[i]) == k;
      assert (a + b)[i] == a[i];
    }
    if Waits(k, b) {
      var i :| 0 <= i < |b| && KeyOf(b[i]) == k;
      assert (a + b)[|a| + i] == b[i];
    }
  }

  lemma {:induction false} PassCovers<T>(rest: seq<Node<T>>, done: seq<Node<T>>, back: bool, k: Key)
    ensures var (stay, done') := Pass(rest, done, back);
            Waits(k, rest) || Waits(k, done) <==> Waits(k, stay) || Waits(k, done')
  {
    if rest != [] {
      var n := rest[0].(deps := Strip(rest[0].deps, done, back));
      assert rest == [rest[0]] + rest[1..];
      WaitsAppend(k, [rest[0]], rest[1..]);
      assert KeyOf(n) == KeyOf(rest[0]);
      assert Waits(k, [rest[0]]) <==> KeyOf(n) == k by { if KeyOf(n) == k { assert KeyOf([rest[0]][0]) == k; } }
      assert Waits(k, [n]) <==> KeyOf(n) == k by { if KeyOf(n) == k { assert KeyOf([n][0]) == k; } }
      if n.deps == [] {
        WaitsAppend(k, done, [n]);
        PassCovers(rest[1..], done + [n], back, k);
      } else {
        PassCovers(rest[1..], done, back, k);
        WaitsAppend(k, [n], Pass(rest[1..], done, back).0);
      }
    }
  }

  /** Lists that one visit can empty: with `back` any list, as written only those with at most one entry. */
  ghost predicate Strippable<T>(n: Node<T>, back: bool) {
    back || |n.deps| <= 1
  }

  lemma {:induction false} StripsToNothing<T>(deps: seq<string>, done: seq<Node<T>>, back: bool)
    requires back || |deps| <= 1
    requires forall d :: d in deps ==> Matches(done, d)
    ensures Strip(deps, done, back) == []
  {
    if deps != [] {
      assert deps[0] in deps;
      assert forall d :: d in deps[1..] ==> d in deps;
      StripsToNothing(deps[1..], done, back);
    }
  }

  /** A pass resolves something as soon as one waiting resource has all its dependencies resolved. */
  lemma {:induction false} PassResolves<T>(rest: seq<Node<T>>, done: seq<Node<T>>, back: bool, r: Node<T>)
    requires r in rest && Strippable(r, back)
    requires forall d :: d in r.deps ==> Matches(done, d)
    ensures |Pass(rest, done, back).1| > |done|
  {
    if rest[0] == r {
      StripsToNothing(r.deps, done, back);
    } else {
      var n := rest[0].(deps := Strip(rest[0].deps, done, back));
      if n.deps != [] {
        PassResolves(rest[1..], done, back, r);
      }
    }
  }

  lemma {:induction false} PassKeepsStrippable<T>(rest: seq<Node<T>>, done: seq<Node<T>>, back: bool)
    requires forall n :: n in rest ==> Strippable(n, back)
    ensures forall n :: n in Pass(rest, done, back).0 ==> Strippable(n, back)
  {
    if rest != [] {
      assert rest[0] in rest;
      assert forall x :: x in rest[1..] ==> x in rest;
      var n := rest[0].(deps := Strip(rest[0].deps, done, back));
      PassKeepsStrippable(rest[1..], if n.deps == [] then done + [n] else done, back);
    }
  }

  lemma {:induction false} LowestWaiting<T>(rest: seq<Node<T>>, rank: Key -> nat) returns (r: Node<T>)
    requires rest != []
    ensures r in rest && forall i :: 0 <= i < |rest| ==> rank(KeyOf(r)) <= rank(KeyOf(rest[i]))
  {
    r := rest[0];
    if |rest| > 1 {
      var q := LowestWaiting(rest[1..], rank);
      assert forall i :: 0 < i < |rest| ==> rest[i] == rest[1..][i - 1];
      if rank(KeyOf(q)) < rank(KeyOf(r)) {
        r := q;
      }
    }
  }

  /** A well-founded manifest with strippable lists is never stalled. */
  lemma {:induction false} SortAccepts<T>(orig: seq<Node<T>>, rest: seq<Node<T>>, done: seq<Node<T>>, back: bool, rank: Key -> nat)
    requires RankedBy(orig, rank) && Covers(orig, rest, done) && Sound(rest, done)
    requires forall n :: n in rest ==> Strippable(n, back)
    ensures Sort(rest, done, back).0 == []
    decreases |rest|
  {
    if rest != [] {
      var r := LowestWaiting(rest, rank);
      forall d | d in r.deps ensures Matches(done, d) {
        LowestIsReady(orig, rest, done, rank, r, d);
      }
      PassResolves(rest, done, back, r);
      PassSound(rest, done, back);
      PassKeepsStrippable(rest, done, back);
      forall k ensures var (stay, done') := Pass(rest, done, back);
                       Waits(k, rest) || Waits(k, done) <==> Waits(k, stay) || Waits(k, done')
      {
        PassCovers(rest, done, back, k);
      }
      var (stay, done') := Pass(rest, done, back);
      SortAccepts(orig, stay, done', back, rank);
    }
  }

  lemma LowestIsReady<T>(orig: seq<Node<T>>, rest: seq<Node<T>>, done: seq<Node<T>>, rank: Key -> nat, r: Node<T>, d: string)
    requires RankedBy(orig, rank) && Covers(orig, rest, done) && Sound(rest, done)
    requires r in rest && d in r.deps
    requires forall i :: 0 <= i < |rest| ==> rank(KeyOf(r)) <= rank(KeyOf(rest[i]))
    ensures Matches(done, d)
  {
    var at :| 0 <= at < |rest| && rest[at] == r;
    assert Waits(KeyOf(r), rest);
    var i :| 0 <= i < |orig| && KeyOf(orig[i]) == KeyOf(r);
    assert d in orig[i].needs;
    assert HasLower(orig, rank, KeyOf(orig[i]), d);
    var j :| 0 <= j < |orig| && Text.EqualFold(orig[j].id, d) && rank(KeyOf(orig[j])) < rank(KeyOf(r));
    var k := KeyOf(orig[j]);
    assert Waits(k, orig) && !Waits(k, rest);
    var m :| 0 <= m < |done| && KeyOf(done[m]) == k;
    assert Text.EqualFold(done[m].id, d);
  }

  /** First position of a resource in a sorted list; it serves as the resource's rank. */
  function PlaceOf<T>(done: seq<Node<T>>, k: Key): (p: nat)
    ensures p <= |done|
    ensures forall i :: 0 <= i < |done| && KeyOf(done[i]) == k ==> p <= i && p < |done| && KeyOf(done[p]) == k
  {
    if done == [] || KeyOf(done[0]) == k then 0
    else
      assert forall i :: 0 < i < |done| ==> done[i] == done[1..][i - 1];
      1 + PlaceOf(done[1..], k)
  }

  lemma {:induction false} SortCovers<T>(rest: seq<Node<T>>, done: seq<Node<T>>, back: bool, k: Key)
    ensures var (stay, done') := Sort(rest, done, back);
            Waits(k, rest) || Waits(k, done) <==> Waits(k, stay) || Waits(k, done')
    decreases |rest|
  {
    if rest != [] {
      PassCovers(rest, done, back, k);
      var (stay, done') := Pass(rest, done, back);
      if |done'| != |done| { SortCovers(stay, done', back, k); }
    }
  }

  /** Only well-founded manifests are accepted: the sorted list itself ranks them. */
  lemma AcceptedIsWellFounded<T>(rest: seq<Node<T>>, back: bool)
    requires Unstripped(rest) && Accepted(rest, back)
    ensures WellFounded(rest)
  {
    var sorted := Sort(rest, [], back).1;
    SortSound(rest, back);
    var rank := k => PlaceOf(sorted, k);
    forall i, d | 0 <= i < |rest| && d in rest[i].needs ensures HasLower(rest, rank, KeyOf(rest[i]), d) {
      var k := KeyOf(rest[i]);
      SortCovers(rest, [], back, k);
      assert Waits(k, rest);
      var at :| 0 <= at < |sorted| && KeyOf(sorted[at]) == k;
      var p := rank(k);
      assert sorted[p].needs == k.needs;
      var j :| 0 <= j < |sorted[..p]| && Text.EqualFold(sorted[..p][j].id, d);
      var k' := KeyOf(sorted[j]);
      SortCovers(rest, [], back, k');
      assert Waits(k', sorted);
      var m :| 0 <= m < |rest| && KeyOf(rest[m]) == k';
      assert Text.EqualFold(rest[m].id, d) && rank(KeyOf(rest[m])) < rank(k);
    }
    assert RankedBy(rest, rank);
  }

  /** Exactness.  The sort accepts just the well-founded manifests: as intended, for all dependency lists;
      as written, when no resource lists more than one dependency. */
  lemma SortExact<T>(rest: seq<Node<T>>, back: bool)
    requires Unstripped(rest)
    requires back || forall n :: n in rest ==> |n.needs| <= 1
    ensures Accepted(rest, back) <==> WellFounded(rest)
  {
    if WellFounded(rest) {
      var rank: Key -> nat :| RankedBy(rest, rank);
      SortAccepts(rest, rest, [], back, rank);
    }
    if Accepted(rest, back) {
      AcceptedIsWellFounded(rest, back);
    }
  }

  ghost predicate ListsAtMost<T>(rest: seq<Node<T>>, k: nat) {
    forall n :: n in rest ==> |n.needs| <= k
  }

  /** X needs A and B, and comes first: well founded, yet the sort as written rejects it. */
  function Skipped(): seq<Node<int>> {
    [Node(0, "X", ["A", "B"], ["A", "B"]), Node(1, "A", [], []), Node(2, "B", [], [])]
  }

  lemma SkippedIsWellFounded()
    ensures Unstripped(Skipped()) && WellFounded(Skipped()) && ListsAtMost(Skipped(), 2)
  {
    var ns := Skipped();
    var rank := (k: Key) => |k.needs|;
    forall i, d | 0 <= i < |ns| && d in ns[i].needs ensures HasLower(ns, rank, KeyOf(ns[i]), d) {
      assert i == 0 && (d == "A" || d == "B");
      var m := if d == "A" then 1 else 2;
      assert Text.EqualFold(ns[m].id, d) && rank(KeyOf(ns[m])) < rank(KeyOf(ns[i]));
    }
    assert RankedBy(ns, rank);
  }

  lemma PassTakes<T>(n: Node<T>, rest: seq<Node<T>>, done: seq<Node<T>>)
    requires n.deps == []
    ensures Pass([n] + rest, done, false) == Pass(rest, done + [n], false)
  {
    assert ([n] + rest)[1..] == rest;
    assert n.(deps := []) == n;
  }

  lemma PassLeaves<T>(n: Node<T>, deps: seq<string>, rest: seq<Node<T>>, done: seq<Node<T>>)
    requires deps != [] && Strip(n.deps, done, false) == deps
    ensures Pass([n] + rest, done, false) == ([n.(deps := deps)] + Pass(rest, done, false).0, Pass(rest, done, false).1)
  {
    assert ([n] + rest)[1..] == rest;
  }

  lemma SkippedIsRejected()
    ensures !Accepted(Skipped(), false)
  {
    var ns := Skipped();
    var x, a, b := ns[0], ns[1], ns[2];
    var none: seq<Node<int>> := [];
    assert x.deps[1..] == ["B"] && ["B"][1..] == [] && x.deps[2..] == [];
    assert !Matches(none, "A") && !Matches(none, "B");
    assert Strip(["B"], none, false) == ["B"];
    assert Strip(x.deps, none, false) == x.deps;
    PassLeaves(x, x.deps, [a] + ([b] + none), none);
    PassTakes(a, [b] + none, none);
    PassTakes(b, none, none + [a]);
    assert ns == [x] + ([a] + ([b] + none));
    var done := none + [a] + [b];
    assert Pass(ns, none, false) == ([x] + none, done);
    assert Text.EqualFold(done[0].id, "A");
    assert Strip(x.deps, done, false) == ["B"];
    PassLeaves(x, ["B"], none, done);
    assert Sort([x] + none, done, false).0 != [];
  }

  /** Allowing `k` dependencies per resource, the sort as written accepts every well-founded manifest
      exactly when `k` is at most one. */
  lemma WrittenSortCompleteExactly(k: nat)
    ensures (forall rest: seq<Node<int>> :: Unstripped(rest) && ListsAtMost(rest, k) && WellFounded(rest) ==> Accepted(rest, false))
       <==> k <= 1
  {
    if k <= 1 {
      forall rest: seq<Node<int>> | Unstripped(rest) && ListsAtMost(rest, k) && WellFounded(rest)
        ensures Accepted(rest, false)
      {
        SortExact(rest, false);
      }
    } else {
      SkippedIsRejected();
      SkippedIsWellFounded();
      assert ListsAtMost(Skipped(), k);
    }
  }

  // ---------------------------------------------------------------- longer lists

  /** A visit to a list whose entries are all resolved removes every other one. */
  lemma {:induction false} StripHalves<T>(deps: seq<string>, done: seq<Node<T>>)
    requires forall d :: d in deps ==> Matches(done, d)
    ensures |Strip(deps, done, false)| == |deps| / 2
  {
    if |deps| == 1 {
      assert deps[0] in deps;
    } else if |deps| > 1 {
      assert deps[0] in deps;
      assert forall d :: d in deps[2..] ==> d in deps;
      StripHalves(deps[2..], done);
    }
  }

  lemma {:induction false} NothingToStrip<T>(deps: seq<string>)
    ensures Strip<T>(deps, [], false) == deps
  {
    if deps != [] {
      assert !Matches<T>([], deps[0]);
      NothingToStrip<T>(deps[1..]);
    }
  }

  lemma {:induction false} FreeAreResolved<T>(free: seq<Node<T>>, tail: seq<Node<T>>, done: seq<Node<T>>)
    requires forall n :: n in free ==> n.deps == []
    ensures Pass(free + tail, done, false) == Pass(tail, done + free, false)
  {
    if free == [] {
      assert free + tail == tail && done + free == done;
    } else {
      assert free[0] in free && forall n :: n in free[1..] ==> n in free;
      assert free + tail == [free[0]] + (free[1..] + tail);
      PassTakes(free[0], free[1..] + tail, done);
      FreeAreResolved(free[1..], tail, done + [free[0]]);
      assert done + [free[0]] + free[1..] == done + free;
    }
  }

  /** A pass over one resource all of whose dependencies are resolved leaves it half its list. */
  lemma OneLeft<T>(x: Node<T>, done: seq<Node<T>>)
    requires forall d :: d in x.deps ==> Matches(done, d)
    ensures var x' := x.(deps := Strip(x.deps, done, false));
            && |x'.deps| == |x.deps| / 2
            && Pass([x], done, false) == if x'.deps == [] then ([], done + [x']) else ([x'], done)
  {
    StripHalves(x.deps, done);
    var none: seq<Node<T>> := [];
    assert [x] + none == [x] && Pass(none, done, false) == (none, done);
    var x' := x.(deps := Strip(x.deps, done, false));
    if x'.deps != [] {
      PassLeaves(x, x'.deps, none, done);
      assert [x'] + none == [x'];
    } else {
      assert [x][1..] == none;
      assert Pass(none, done + [x'], false) == (none, done + [x']);
    }
  }

  /** Sorting one such resource on its own succeeds exactly when it lists at most one. */
  lemma OneAlone<T>(x: Node<T>, done: seq<Node<T>>)
    requires forall d :: d in x.deps ==> Matches(done, d)
    ensures Sort([x], done, false).0 == [] <==> |x.deps| <= 1
  {
    OneLeft(x, done);
  }

  /** A resource listed behind its dependencies, which need nothing, is resolved exactly when it lists at most three of them. */
  lemma LastResolvedExactly<T>(free: seq<Node<T>>, x: Node<T>)
    requires forall n :: n in free ==> n.deps == []
    requires forall d :: d in x.deps ==> Matches(free, d)
    ensures Accepted(free + [x], false) <==> |x.deps| <= 3
  {
    var none: seq<Node<T>> := [];
    FreeAreResolved(free, [x], none);
    assert none + free == free;
    OneLeft(x, free);
    var x' := x.(deps := Strip(x.deps, free, false));
    var all := free + [x];
    assert all != [] && Pass(all, none, false) == Pass([x], free, false);
    if x'.deps == [] {
      assert Sort(none, free + [x'], false).0 == [];
    } else {
      assert free != [] by { assert x.deps[0] in x.deps; }
      OneAlone(x', free);
    }
  }

  /** Listed in front of them it is resolved exactly when it lists at most one. */
  lemma FirstResolvedExactly<T>(free: seq<Node<T>>, x: Node<T>)
    requires forall n :: n in free ==> n.deps == []
    requires forall d :: d in x.deps ==> Matches(free, d)
    ensures Accepted([x] + free, false) <==> |x.deps| <= 1
  {
    var none: seq<Node<T>> := [];
    NothingToStrip<T>(x.deps);
    if x.deps == [] {
      PassTakes(x, free, none);
      FreeAreResolved(free, none, none + [x]);
      var done := none + [x] + free;
      assert free + none == free && Pass([x] + free, none, false) == Pass(none, done, false) == (none, done);
      assert Sort(none, done, false).0 == [];
    } else {
      PassLeaves(x, x.deps, free, none);
      FreeAreResolved(free, none, none);
      assert free + none == free && none + free == free && Pass(none, free, false) == (none, free);
      assert free != [] by { assert x.deps[0] in x.deps; }
      assert [x] + none == [x];
      OneAlone(x, free);
    }
  }
}
