/** What the publish search finds: a dependencies-first permutation exactly when there is no cycle. */
module PublishTheorems {
  import opened DependencyGraph
  import opened FiniteSets
  import opened PublishOrder
  import opened Sorting

  /** Every publishable dependency stands before its dependents. */
  ghost predicate DependenciesBefore(ws: seq<Package>, ordered: seq<Package>) {
    forall i, b :: 0 <= i < |ordered| && Edge(ws, ordered[i].id, b) ==> b in Ids(ordered[..i])
  }

  /** What the search keeps: finished packages are ordered, visiting ones form the trail. */
  ghost predicate Sound(ws: seq<Package>, trail: seq<string>, s: Search) {
    && (forall name :: name in s.state ==> name in Ids(ws))
    && (forall name :: name in s.state && s.state[name].Visiting? ==> name in trail)
    && (forall name :: name in trail ==> name in s.state && s.state[name].Visiting?)
    && (forall name :: name in s.state && s.state[name].Done? <==> name in Ids(s.ordered))
    && Walk(ws, trail)
    && Unique(s.ordered) && (forall p :: p in s.ordered ==> p in ws)
    && DependenciesBefore(ws, s.ordered)
  }

  /** `p` may be visited next: it is at the start, or the last package of the trail depends on it. */
  ghost predicate Follows(ws: seq<Package>, trail: seq<string>, p: Package) {
    p in ws && (trail != [] ==> Edge(ws, trail[|trail| - 1], p.id))
  }

  ghost predicate AllDone(ps: seq<Package>, s: Search) {
    forall p :: p in ps ==> p.id in s.state && s.state[p.id].Done?
  }

  /** Finished packages stay finished. */
  ghost predicate Grows(s: Search, t: Search) {
    s.state.Keys <= t.state.Keys && forall name :: name in s.state && s.state[name].Done? ==> t.state[name].Done?
  }

  /** Each package of `path` depends on the next, and the last one stood on it before. */
  ghost predicate ClosesCycle(ws: seq<Package>, path: seq<string>) {
    |path| >= 2 && Walk(ws, path) && path[|path| - 1] in path[..|path| - 1]
  }

  /** The outcome of a search that started sound: sound still, or the end of a real cycle. */
  ghost predicate Justified(ws: seq<Package>, trail: seq<string>, s: Search, r: Outcome) {
    match r
    case Going(t) => Sound(ws, trail, t) && Grows(s, t)
    case Cycle(path) => ClosesCycle(ws, path)
  }

  lemma InIds(ws: seq<Package>, p: Package)
    requires p in ws
    ensures p.id in Ids(ws)
  {
  }

  lemma EdgesAreTargets(ws: seq<Package>, p: Package)
    requires Unique(ws) && p in ws
    ensures Keyed(ByName(ws)) && p.id in ByName(ws)
    ensures forall q :: q in Dependencies(ByName(ws), p) ==> q in ws && Edge(ws, p.id, q.id)
    ensures forall b :: Edge(ws, p.id, b) ==> exists q :: q in Dependencies(ByName(ws), p) && q.id == b
  {
    var g := ByName(ws);
    ByNameFinds(ws);
    var sorted := Sort(p.dependsOn, CodeUnitBefore);
    SortKeeps(p.dependsOn, CodeUnitBefore);
    forall d ensures d in sorted <==> d in p.dependsOn {
      assert d in sorted <==> d in multiset(sorted);
      assert d in p.dependsOn <==> d in multiset(p.dependsOn);
    }
    forall q | q in Dependencies(g, p) ensures q in ws && Edge(ws, p.id, q.id) {
      var d :| d in sorted && d in g && q == g[d];
      InIds(ws, q);
    }
    forall b | Edge(ws, p.id, b) ensures exists q :: q in Dependencies(g, p) && q.id == b {
      var i :| 0 <= i < |ws| && ws[i].id == p.id && b in ws[i].dependsOn;
      var j :| 0 <= j < |ws| && ws[j].id == b;
      assert ws[j] in ws && g[b] == ws[j];
      assert g[b] in Dependencies(g, p);
    }
  }

  lemma TrailCloses(ws: seq<Package>, trail: seq<string>, p: Package)
    requires Walk(ws, trail) && p.id in trail && Follows(ws, trail, p)
    ensures ClosesCycle(ws, trail + [p.id])
  {
    var path := trail + [p.id];
    assert path[..|path| - 1] == trail;
  }

  lemma ClosingIsCyclic(ws: seq<Package>, path: seq<string>)
    requires ClosesCycle(ws, path)
    ensures OnCycle(ws, path[|path| - 1]) && path[|path| - 1] in Ids(ws)
  {
    var k :| 0 <= k < |path| - 1 && path[k] == path[|path| - 1];
    assert Walk(ws, path[k..]);
    assert Edge(ws, path[|path| - 2], path[|path| - 1]);
  }

  lemma EnterKeeps(ws: seq<Package>, trail: seq<string>, p: Package, s: Search)
    requires Sound(ws, trail, s) && Follows(ws, trail, p) && p.id !in s.state
    ensures Sound(ws, trail + [p.id], Search(s.state[p.id := Visiting], s.ordered))
  {
    InIds(ws, p);
  }

  lemma LeaveKeeps(ws: seq<Package>, trail: seq<string>, p: Package, t: Search)
    requires Unique(ws) && p in ws && Sound(ws, trail + [p.id], t) && p.id !in trail
    requires AllDone(Dependencies(ByName(ws), p), t)
    ensures Sound(ws, trail, Search(t.state[p.id := Done], t.ordered + [p]))
  {
    hide Edge, Dependencies, ByName;
    EdgesAreTargets(ws, p);
    var u := Search(t.state[p.id := Done], t.ordered + [p]);
    assert (trail + [p.id])[|trail|] == p.id;
    WalkPrefix(ws, trail, p.id);
    IdsGrow(t.ordered, p);
    forall i, b | 0 <= i < |u.ordered| && Edge(ws, u.ordered[i].id, b) ensures b in Ids(u.ordered[..i]) {
      assert u.ordered[..i] == t.ordered[..i];
      if i == |t.ordered| {
        assert u.ordered[..i] == t.ordered;
      }
    }
  }

  lemma IdsGrow(ordered: seq<Package>, p: Package)
    ensures Ids(ordered + [p]) == Ids(ordered) + {p.id}
    ensures p.id !in Ids(ordered) && Unique(ordered) ==> Unique(ordered + [p])
  {
    assert (ordered + [p])[|ordered|] == p;
    forall id | id in Ids(ordered) ensures id in Ids(ordered + [p]) {
      var i :| 0 <= i < |ordered| && ordered[i].id == id;
      assert (ordered + [p])[i].id == id;
    }
  }

  lemma WalkPrefix(ws: seq<Package>, trail: seq<string>, last: string)
    requires Walk(ws, trail + [last])
    ensures Walk(ws, trail)
  {
    forall k | 0 <= k < |trail| - 1 ensures Edge(ws, trail[k], trail[k + 1]) {
      var w := trail + [last];
      assert Edge(ws, w[k], w[k + 1]);
    }
  }

  lemma VisitingIsOnTrail(ws: seq<Package>, trail: seq<string>, s: Search, p: Package)
    requires Sound(ws, trail, s)
    ensures Walk(ws, trail) && (p.id in s.state && s.state[p.id].Visiting? <==> p.id in trail)
  {
  }

  lemma DependenciesFollow(ws: seq<Package>, trail: seq<string>, p: Package)
    requires Unique(ws) && Follows(ws, trail, p)
    ensures p in ws && Keyed(ByName(ws))
    ensures forall q :: q in Dependencies(ByName(ws), p) ==> Follows(ws, trail + [p.id], q) && q.id in ByName(ws)
  {
    EdgesAreTargets(ws, p);
    ByNameFinds(ws);
  }

  lemma SeenJustified(ws: seq<Package>, p: Package, trail: seq<string>, s: Search)
    requires Sound(ws, trail, s) && Follows(ws, trail, p) && p.id in s.state
    ensures if s.state[p.id].Done? then Grows(s, s) && AllDone([p], s) else ClosesCycle(ws, trail + [p.id])
  {
    if s.state[p.id].Visiting? {
      VisitingIsOnTrail(ws, trail, s, p);
      TrailCloses(ws, trail, p);
    }
  }

  lemma {:induction false} LeaveJustified(ws: seq<Package>, p: Package, trail: seq<string>, s: Search, t: Search)
    requires Unique(ws) && Sound(ws, trail, s) && Follows(ws, trail, p) && p.id !in s.state
    requires Sound(ws, trail + [p.id], t) && Grows(Search(s.state[p.id := Visiting], s.ordered), t)
    requires AllDone(Dependencies(ByName(ws), p), t)
    ensures var u := Search(t.state[p.id := Done], t.ordered + [p]);
            Sound(ws, trail, u) && Grows(s, u) && AllDone([p], u)
  {
    VisitingIsOnTrail(ws, trail, s, p);
    LeaveKeeps(ws, trail, p, t);
    hide Sound, Walk, Edge, Dependencies, ByName, ClosesCycle, Keyed;
  }

  lemma {:induction false} VisitJustified(ws: seq<Package>, p: Package, trail: seq<string>, s: Search)
    requires Unique(ws) && Sound(ws, trail, s) && Follows(ws, trail, p)
    requires Keyed(ByName(ws)) && p.id in ByName(ws)
    ensures var r := Visit(ByName(ws), p, trail, s);
            Justified(ws, trail, s, r) && (r.Going? ==> AllDone([p], r.search))
    decreases Unseen(ByName(ws), s), 0, 0
  {
    hide Sound, Walk, Edge, Follows, Dependencies, ByName, ClosesCycle, Keyed, Grows, AllDone;
    var g := ByName(ws);
    if p.id in s.state {
      SeenJustified(ws, p, trail, s);
    } else {
      var entered := Search(s.state[p.id := Visiting], s.ordered);
      assert p.id in g.Keys - s.state.Keys && p.id !in g.Keys - entered.state.Keys;
      ProperSubsetSize(g.Keys - entered.state.Keys, g.Keys - s.state.Keys);
      EnterKeeps(ws, trail, p, s);
      DependenciesFollow(ws, trail, p);
      VisitAllJustified(ws, Dependencies(g, p), trail + [p.id], entered);
      var r := VisitAll(g, Dependencies(g, p), trail + [p.id], entered);
      if r.Going? {
        LeaveJustified(ws, p, trail, s, r.search);
      }
    }
  }

  lemma {:induction false} VisitAllJustified(ws: seq<Package>, ps: seq<Package>, trail: seq<string>, s: Search)
    requires Unique(ws) && Sound(ws, trail, s) && forall p :: p in ps ==> Follows(ws, trail, p)
    requires Keyed(ByName(ws)) && forall p :: p in ps ==> p.id in ByName(ws)
    ensures var r := VisitAll(ByName(ws), ps, trail, s);
            Justified(ws, trail, s, r) && (r.Going? ==> AllDone(ps, r.search))
    decreases Unseen(ByName(ws), s), 1, |ps|
  {
    var g := ByName(ws);
    if ps != [] {
      VisitJustified(ws, ps[0], trail, s);
      var first := Visit(g, ps[0], trail, s);
      if first.Going? {
        SubsetSize(g.Keys - first.search.state.Keys, g.Keys - s.state.Keys);
        VisitAllJustified(ws, ps[1..], trail, first.search);
        assert ps[0] in [ps[0]];
      }
    }
  }

  // ---------------------------------------------------------------- the result

  lemma {:induction false} UniqueMultiplicity(a: seq<Package>, p: Package)
    requires Unique(a)
    ensures multiset(a)[p] == if p in a then 1 else 0
  {
    if a != [] {
      var front, last := a[..|a| - 1], a[|a| - 1];
      assert a == front + [last];
      UniqueMultiplicity(front, p);
    }
  }

  lemma SameElements(a: seq<Package>, b: seq<Package>)
    requires Unique(a) && Unique(b) && forall p :: p in a <==> p in b
    ensures multiset(a) == multiset(b)
  {
    forall p ensures multiset(a)[p] == multiset(b)[p] {
      UniqueMultiplicity(a, p);
      UniqueMultiplicity(b, p);
    }
  }

  /** Along a walk in the graph, positions in the published order fall. */
  lemma {:induction false} WalksFall(ws: seq<Package>, ordered: seq<Package>, w: seq<string>, k: nat)
    requires DependenciesBefore(ws, ordered) && Walk(ws, w) && |w| >= 2 && k < |ordered| && w[0] == ordered[k].id
    ensures w[|w| - 1] in Ids(ordered[..k])
    decreases |w|
  {
    assert Edge(ws, w[0], w[1]);
    var j :| 0 <= j < k && ordered[..k][j].id == w[1];
    if |w| > 2 {
      WalksFall(ws, ordered, w[1..], j);
      var i :| 0 <= i < j && ordered[..j][i].id == w[|w| - 1];
      assert ordered[..k][i].id == w[|w| - 1];
    }
  }

  lemma OrderedIsAcyclic(ws: seq<Package>, ordered: seq<Package>)
    requires DependenciesBefore(ws, ordered) && Unique(ordered) && Ids(ws) <= Ids(ordered)
    ensures Acyclic(ws)
  {
    forall id | id in Ids(ws) && OnCycle(ws, id) ensures false {
      var k :| 0 <= k < |ordered| && ordered[k].id == id;
      var w: seq<string> :| |w| >= 2 && w[0] == id && w[|w| - 1] == id && Walk(ws, w);
      WalksFall(ws, ordered, w, k);
    }
  }

  lemma EverythingOrdered(ws: seq<Package>, s: Search)
    requires Unique(ws) && Sound(ws, [], s) && AllDone(ws, s)
    ensures multiset(s.ordered) == multiset(ws) && Ids(ws) <= Ids(s.ordered)
  {
    forall p | p in ws ensures p in s.ordered && p.id in Ids(s.ordered) {
      var i :| 0 <= i < |s.ordered| && s.ordered[i].id == p.id;
      assert s.ordered[i] in ws;
    }
    SameElements(s.ordered, ws);
  }

  lemma NothingSearched(ws: seq<Package>)
    ensures Sound(ws, [], Search(map[], []))
  {
  }

  /**
   The search succeeds exactly when no package can reach itself through publishable packages, a package
   that names itself included. Its result is then a permutation with every dependency first; otherwise it
   reports a path whose last package closes a cycle.
   */
  lemma SucceedsExactlyWhenAcyclic(ws: seq<Package>, collate: Comparison<string>)
    requires Unique(ws)
    ensures var r := OrderForPublish(ws, collate);
            && (r.Going? <==> Acyclic(ws))
            && (r.Going? ==> multiset(r.search.ordered) == multiset(ws) && DependenciesBefore(ws, r.search.ordered))
            && (r.Cycle? ==> ClosesCycle(ws, r.path))
  {
    hide Edge, Walk, OnCycle, ClosesCycle;
    var sorted := Sort(ws, ByNames(collate));
    ByNameFinds(ws);
    SortHolds(ws, ByNames(collate));
    NothingSearched(ws);
    VisitAllJustified(ws, sorted, [], Search(map[], []));
    var r := OrderForPublish(ws, collate);
    if r.Going? {
      EverythingOrdered(ws, r.search);
      OrderedIsAcyclic(ws, r.search.ordered);
    } else {
      ClosingIsCyclic(ws, r.path);
    }
  }

  // ---------------------------------------------------------------- the checker

  /** Exactly the expected packages, each once, and no dependency published later. */
  ghost predicate ValidOrder(ws: seq<Package>, ordered: seq<Package>) {
    && Ids(ordered) == Ids(ws)
    && Unique(ordered)
    && NoDependencyLater(ordered)
  }

  /** No dependency of the `i`-th package is published after it. */
  ghost predicate NoneLater(ordered: seq<Package>, i: nat)
    requires i < |ordered|
  {
    forall j :: 0 <= j < |ordered| && ordered[j].id in ordered[i].dependsOn ==> j <= i
  }

  ghost predicate NoDependencyLater(ordered: seq<Package>) {
    forall i :: 0 <= i < |ordered| ==> NoneLater(ordered, i)
  }

  /** The derived order passes the check made before publishing. */
  lemma DerivedOrderIsValid(ws: seq<Package>, collate: Comparison<string>)
    requires Unique(ws) && OrderForPublish(ws, collate).Going?
    ensures ValidOrder(ws, OrderForPublish(ws, collate).search.ordered)
  {
    var sorted := Sort(ws, ByNames(collate));
    ByNameFinds(ws);
    SortHolds(ws, ByNames(collate));
    NothingSearched(ws);
    VisitAllJustified(ws, sorted, [], Search(map[], []));
    var s := OrderForPublish(ws, collate).search;
    EverythingOrdered(ws, s);
    hide Walk, Sort, VisitAll;
    OrderIsValid(ws, s.ordered);
  }

  lemma OrderIsValid(ws: seq<Package>, ordered: seq<Package>)
    requires Unique(ordered) && DependenciesBefore(ws, ordered) && Ids(ws) <= Ids(ordered)
    requires forall p :: p in ordered ==> p in ws
    ensures ValidOrder(ws, ordered)
  {
    forall i | 0 <= i < |ordered| ensures ordered[i].id in Ids(ws) { InIds(ws, ordered[i]); }
    forall i | 0 <= i < |ordered| ensures NoneLater(ordered, i) {
      assert ordered[i] in ordered;
      var k :| 0 <= k < |ws| && ws[k] == ordered[i];
      forall j | 0 <= j < |ordered| && ordered[j].id in ordered[i].dependsOn ensures j <= i {
        assert Edge(ws, ordered[i].id, ordered[j].id);
      }
    }
  }

  /** A list of names is as long as the set of its names exactly when none repeats. */
  lemma {:induction false} LengthCountsNames(ordered: seq<Package>)
    ensures |Ids(ordered)| <= |ordered| && (|Ids(ordered)| == |ordered| <==> Unique(ordered))
  {
    if ordered != [] {
      var front, last := ordered[..|ordered| - 1], ordered[|ordered| - 1];
      assert ordered == front + [last];
      LengthCountsNames(front);
      IdsGrow(front, last);
      if last.id in Ids(front) {
        assert Ids(ordered) == Ids(front);
        var i :| 0 <= i < |front| && front[i].id == last.id;
        assert ordered[i].id == ordered[|ordered| - 1].id;
      } else if !Unique(front) {
        var i, j :| 0 <= i < j < |front| && front[i].id == front[j].id;
        assert ordered[i].id == ordered[j].id;
      }
    }
  }
}
