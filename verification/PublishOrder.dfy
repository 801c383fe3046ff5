/**
 `release/publish-set/order.ts` on values: a depth-first search that publishes each package after the
 publishable packages it depends on. `PublishSearch` holds the program that carries it out in place.
 */
module PublishOrder {
  import opened DependencyGraph
  import opened FiniteSets
  import opened Sorting

  /** A publishable package: its name is `id`, its runtime dependencies `dependsOn`. */
  type Package = Node

  function NameOf(p: Package): string {
    p.id
  }

  function ByNames(collate: Comparison<string>): Comparison<Package> {
    By(NameOf, collate)
  }

  // ---------------------------------------------------------------- the search

  datatype Mark = Visiting | Done

  datatype Search = Search(state: map<string, Mark>, ordered: seq<Package>)

  datatype Outcome = Going(search: Search) | Cycle(path: seq<string>)

  function ByName(ws: seq<Package>): map<string, Package> {
    if ws == [] then map[] else ByName(ws[..|ws| - 1])[ws[|ws| - 1].id := ws[|ws| - 1]]
  }

  /** The publishable packages among `names`. */
  function Targets(g: map<string, Package>, names: seq<string>): (targets: seq<Package>)
    ensures forall p :: p in targets <==> exists d :: d in names && d in g && p == g[d]
  {
    if names == [] then []
    else (if names[0] in g then [g[names[0]]] else []) + Targets(g, names[1..])
  }

  function Dependencies(g: map<string, Package>, p: Package): seq<Package> {
    Targets(g, Sort(p.dependsOn, CodeUnitBefore))
  }

  ghost predicate Keyed(g: map<string, Package>) {
    forall name :: name in g ==> g[name].id == name
  }

  ghost function Unseen(g: map<string, Package>, s: Search): nat {
    |g.Keys - s.state.Keys|
  }

  function Visit(g: map<string, Package>, p: Package, trail: seq<string>, s: Search): (r: Outcome)
    requires Keyed(g) && p.id in g
    ensures r.Going? ==> s.state.Keys <= r.search.state.Keys
    decreases Unseen(g, s), 0, 0
  {
    if p.id in s.state then
      if s.state[p.id].Done? then Going(s) else Cycle(trail + [p.id])
    else
      var entered := Search(s.state[p.id := Visiting], s.ordered);
      assert p.id in g.Keys - s.state.Keys && p.id !in g.Keys - entered.state.Keys;
      ProperSubsetSize(g.Keys - entered.state.Keys, g.Keys - s.state.Keys);
      match VisitAll(g, Dependencies(g, p), trail + [p.id], entered)
      case Cycle(path) => Cycle(path)
      case Going(t) => Going(Search(t.state[p.id := Done], t.ordered + [p]))
  }

  function VisitAll(g: map<string, Package>, ps: seq<Package>, trail: seq<string>, s: Search): (r: Outcome)
    requires Keyed(g) && forall p :: p in ps ==> p.id in g
    ensures r.Going? ==> s.state.Keys <= r.search.state.Keys
    decreases Unseen(g, s), 1, |ps|
  {
    if ps == [] then Going(s)
    else
      match Visit(g, ps[0], trail, s)
      case Cycle(path) => Cycle(path)
      case Going(t) =>
        SubsetSize(g.Keys - t.state.Keys, g.Keys - s.state.Keys);
        VisitAll(g, ps[1..], trail, t)
  }

  lemma {:induction false} ByNameFinds(ws: seq<Package>)
    ensures Keyed(ByName(ws)) && forall p :: p in ws ==> p.id in ByName(ws)
    ensures forall name :: name in ByName(ws) ==> ByName(ws)[name] in ws
    ensures Unique(ws) ==> forall p :: p in ws ==> ByName(ws)[p.id] == p
  {
    if ws != [] {
      ByNameFinds(ws[..|ws| - 1]);
      assert ws == ws[..|ws| - 1] + [ws[|ws| - 1]];
    }
  }

  /** `orderForPublish`: the search from every package in collation order. */
  function OrderForPublish(ws: seq<Package>, collate: Comparison<string>): Outcome {
    var sorted := Sort(ws, ByNames(collate));
    ByNameFinds(ws);
    SortHolds(ws, ByNames(collate));
    VisitAll(ByName(ws), sorted, [], Search(map[], []))
  }

  // ---------------------------------------------------------------- one list for every input order

  lemma SameTable(ws: seq<Package>, vs: seq<Package>)
    requires Unique(ws) && Unique(vs) && multiset(ws) == multiset(vs)
    ensures ByName(ws) == ByName(vs)
  {
    ByNameFinds(ws);
    ByNameFinds(vs);
    forall p ensures p in ws <==> p in vs {
      assert p in ws <==> p in multiset(ws);
      assert p in vs <==> p in multiset(vs);
    }
    forall name ensures name in ByName(ws) <==> name in ByName(vs) { }
    forall name | name in ByName(ws) ensures ByName(ws)[name] == ByName(vs)[name] {
      assert ByName(ws)[name] in vs;
    }
  }

  /** The outcome depends on the set of packages only, not on the order they were found in. */
  lemma SameForEveryInputOrder(ws: seq<Package>, vs: seq<Package>, collate: Comparison<string>)
    requires Collates(collate) && Unique(ws) && Unique(vs) && multiset(ws) == multiset(vs)
    ensures OrderForPublish(ws, collate) == OrderForPublish(vs, collate)
  {
    SortAscends(ws, NameOf, collate);
    SortAscends(vs, NameOf, collate);
    SortKeeps(ws, ByNames(collate));
    SortKeeps(vs, ByNames(collate));
    AscendingIsUnique(Sort(ws, ByNames(collate)), Sort(vs, ByNames(collate)), NameOf, collate);
    SameTable(ws, vs);
  }
}
