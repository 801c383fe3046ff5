/**
 How the publish order breaks ties. Each package is published on behalf of the first package by name that
 needs it, and among those on behalf of the first dependency that needs it, and so on: the route by which
 the order comes to it. `OrderedByRoutes` says that routes decide the whole order.
 */
module PublishTies {
  import opened DependencyGraph
  import opened FiniteSets
  import opened PublishOrder
  import opened PublishTheorems
  import opened Sorting

  // ---------------------------------------------------------------- routes

  ghost predicate Needs(ws: seq<Package>, a: string, b: string) {
    a == b || Reaches(ws, a, b)
  }

  ghost function DependenciesOf(ws: seq<Package>, a: string): set<string> {
    set b | b in Ids(ws) && Edge(ws, a, b)
  }

  /** Among the names of this level that need `x`, `r` is the first. */
  ghost predicate FirstToNeed(ws: seq<Package>, level: set<string>, before: Comparison<string>, x: string, r: string) {
    r in level && Needs(ws, r, x) && forall q :: q in level && Needs(ws, q, x) ==> q == r || before(r, q)
  }

  /** From the level to `x`, each time to the first dependency that needs it. */
  ghost predicate Route(ws: seq<Package>, level: set<string>, before: Comparison<string>, route: seq<string>, x: string) {
    && route != [] && route[|route| - 1] == x
    && FirstToNeed(ws, level, before, x, route[0])
    && forall k :: 0 < k < |route| ==> FirstToNeed(ws, DependenciesOf(ws, route[k - 1]), CodeUnitBefore, x, route[k])
  }

  function OrderAt(before: Comparison<string>, k: nat): Comparison<string> {
    if k == 0 then before else CodeUnitBefore
  }

  /** Where the routes part, `a` takes the earlier name, or `b` ends. */
  ghost predicate Precedes(before: Comparison<string>, a: seq<string>, b: seq<string>) {
    exists k: nat :: PartAt(before, a, b, k)
  }

  ghost predicate PartAt(before: Comparison<string>, a: seq<string>, b: seq<string>, k: nat) {
    && k < |a| && k <= |b| && a[..k] == b[..k]
    && (k < |b| ==> OrderAt(before, k)(a[k], b[k]))
  }

  ghost predicate RoutesPrecede(ws: seq<Package>, level: set<string>, before: Comparison<string>, x: string, y: string) {
    exists a, b :: Route(ws, level, before, a, x) && Route(ws, level, before, b, y) && Precedes(before, a, b)
  }

  ghost predicate HasRoute(ws: seq<Package>, level: set<string>, before: Comparison<string>, x: string) {
    exists a :: Route(ws, level, before, a, x)
  }

  // ---------------------------------------------------------------- code unit order

  lemma {:induction false} CodeUnitOrders(a: string, b: string, c: string)
    ensures CodeUnitBefore(a, b) ==> !CodeUnitBefore(b, a)
    ensures CodeUnitBefore(a, b) && CodeUnitBefore(b, c) ==> CodeUnitBefore(a, c)
    ensures a != b ==> CodeUnitBefore(a, b) || CodeUnitBefore(b, a)
    decreases |a|
  {
    if a != [] && b != [] {
      CodeUnitOrders(a[1..], b[1..], if c != [] then c[1..] else []);
      assert a == [a[0]] + a[1..] && b == [b[0]] + b[1..];
    }
  }

  lemma CodeUnitCollates()
    ensures Collates(CodeUnitBefore)
  {
    hide CodeUnitBefore;
    forall a, b ensures (CodeUnitBefore(a, b) ==> !CodeUnitBefore(b, a)) && (a != b ==> CodeUnitBefore(a, b) || CodeUnitBefore(b, a)) {
      CodeUnitOrders(a, b, "");
    }
    forall a, b, c | CodeUnitBefore(a, b) && CodeUnitBefore(b, c) ensures CodeUnitBefore(a, c) {
      CodeUnitOrders(a, b, c);
    }
  }

  /** In order, where equal names may stand side by side. */
  ghost predicate InOrder(names: seq<string>, before: Comparison<string>) {
    forall i, j :: 0 <= i < j < |names| ==> names[i] == names[j] || before(names[i], names[j])
  }

  lemma {:induction false} InsertInOrder(s: seq<string>, x: string, before: Comparison<string>)
    requires Collates(before) && InOrder(s, before)
    ensures InOrder(Insert(s, x, before), before)
  {
    if s != [] && before(x, s[|s| - 1]) {
      var front, last := s[..|s| - 1], s[|s| - 1];
      InsertInOrder(front, x, before);
      InsertKeeps(front, x, before);
      var inserted := Insert(front, x, before);
      forall i | 0 <= i < |inserted| ensures inserted[i] == last || before(inserted[i], last) {
        assert inserted[i] in multiset(inserted);
        assert inserted[i] in front || inserted[i] == x;
      }
    } else if s != [] {
      forall i | 0 <= i < |s| ensures s[i] == x || before(s[i], x) {
        assert s[i] == s[|s| - 1] || before(s[i], s[|s| - 1]);
        assert s[|s| - 1] == x || before(s[|s| - 1], x);
      }
    }
  }

  lemma {:induction false} SortInOrder(s: seq<string>, before: Comparison<string>)
    requires Collates(before)
    ensures InOrder(Sort(s, before), before)
  {
    if s != [] {
      SortInOrder(s[..|s| - 1], before);
      InsertInOrder(Sort(s[..|s| - 1], before), s[|s| - 1], before);
    }
  }

  function NamesOf(ps: seq<Package>): seq<string> {
    seq(|ps|, i requires 0 <= i < |ps| => ps[i].id)
  }

  lemma {:induction false} TargetsInOrder(g: map<string, Package>, names: seq<string>, before: Comparison<string>)
    requires Keyed(g) && InOrder(names, before)
    ensures InOrder(NamesOf(Targets(g, names)), before)
    ensures forall i :: 0 <= i < |Targets(g, names)| ==> Targets(g, names)[i].id in names
    decreases |names|
  {
    if names != [] {
      var rest := names[1..];
      TargetsInOrder(g, rest, before);
      var all, tail := NamesOf(Targets(g, names)), NamesOf(Targets(g, rest));
      if names[0] in g {
        assert all == [names[0]] + tail;
        forall i | 0 <= i < |tail| ensures names[0] == tail[i] || before(names[0], tail[i]) {
          var j :| 0 <= j < |rest| && rest[j] == tail[i];
          assert names[j + 1] == tail[i];
        }
      } else {
        assert all == tail;
      }
      assert forall n :: n in rest ==> n in names;
    }
  }

  lemma DependenciesInOrder(ws: seq<Package>, p: Package)
    requires Unique(ws) && p in ws
    ensures InOrder(NamesOf(Dependencies(ByName(ws), p)), CodeUnitBefore)
    ensures Ids(Dependencies(ByName(ws), p)) == DependenciesOf(ws, p.id)
  {
    hide CodeUnitBefore, Edge, Sort, Collates;
    CodeUnitCollates();
    ByNameFinds(ws);
    SortInOrder(p.dependsOn, CodeUnitBefore);
    TargetsInOrder(ByName(ws), Sort(p.dependsOn, CodeUnitBefore), CodeUnitBefore);
    EdgesAreTargets(ws, p);
    var ds := Dependencies(ByName(ws), p);
    forall b ensures b in Ids(ds) <==> b in DependenciesOf(ws, p.id) {
      if b in Ids(ds) { var i :| 0 <= i < |ds| && ds[i].id == b; assert ds[i] in ds; InIds(ws, ds[i]); }
      if b in DependenciesOf(ws, p.id) { var q :| q in ds && q.id == b; }
    }
  }

  // ---------------------------------------------------------------- the search takes the routes

  /** What the search adds from `s` to `t` stands in the order of its routes from this level. */
  ghost predicate Placed(ws: seq<Package>, level: set<string>, before: Comparison<string>, s: Search, t: Search) {
    && s.ordered <= t.ordered
    && (forall i :: |s.ordered| <= i < |t.ordered| ==> HasRoute(ws, level, before, t.ordered[i].id))
    && (forall i, j :: |s.ordered| <= i < j < |t.ordered| ==> RoutesPrecede(ws, level, before, t.ordered[i].id, t.ordered[j].id))
  }

  lemma NothingPlaced(ws: seq<Package>, level: set<string>, before: Comparison<string>, s: Search)
    ensures Placed(ws, level, before, s, s)
  {
  }

  lemma EdgeNeeds(ws: seq<Package>, a: string, b: string, c: string)
    requires Edge(ws, a, b) && Needs(ws, b, c)
    ensures Needs(ws, a, c)
  {
    hide Edge;
    if b == c {
      EdgeReaches(ws, a, b);
    } else {
      var w: seq<string> :| |w| >= 2 && w[0] == b && w[|w| - 1] == c && Walk(ws, w);
      assert Walk(ws, [a] + w);
      assert ([a] + w)[|w|] == c;
    }
  }

  /** A package on the way starts its own route. */
  lemma OwnRoute(ws: seq<Package>, p: string)
    ensures Route(ws, {p}, CodeUnitBefore, [p], p)
  {
  }

  /** A route from the dependencies of `p` goes on from `p`. */
  lemma RouteThrough(ws: seq<Package>, p: string, a: seq<string>, x: string)
    requires Route(ws, DependenciesOf(ws, p), CodeUnitBefore, a, x)
    ensures Route(ws, {p}, CodeUnitBefore, [p] + a, x)
  {
    hide CodeUnitBefore;
    EdgeNeeds(ws, p, a[0], x);
    var route := [p] + a;
    forall k | 0 < k < |route| ensures FirstToNeed(ws, DependenciesOf(ws, route[k - 1]), CodeUnitBefore, x, route[k]) {
      assert route[k] == a[k - 1] && (k > 1 ==> route[k - 1] == a[k - 2]);
    }
  }

  lemma PrecedesThrough(p: string, a: seq<string>, b: seq<string>)
    requires Precedes(CodeUnitBefore, a, b)
    ensures Precedes(CodeUnitBefore, [p] + a, [p] + b)
  {
    hide CodeUnitBefore;
    var k: nat :| PartAt(CodeUnitBefore, a, b, k);
    assert ([p] + a)[..k + 1] == [p] + a[..k] && ([p] + b)[..k + 1] == [p] + b[..k];
    assert PartAt(CodeUnitBefore, [p] + a, [p] + b, k + 1);
  }

  /** The package itself comes after everything published on its behalf. */
  lemma PrecedesItself(p: string, a: seq<string>)
    requires a != []
    ensures Precedes(CodeUnitBefore, [p] + a, [p])
  {
    assert ([p] + a)[..1] == [p][..1];
    assert PartAt(CodeUnitBefore, [p] + a, [p], 1);
  }

  lemma LeavePlaces(ws: seq<Package>, p: Package, s: Search, t: Search, u: Search)
    requires Placed(ws, DependenciesOf(ws, p.id), CodeUnitBefore, s, t) && u.ordered == t.ordered + [p]
    ensures Placed(ws, {p.id}, CodeUnitBefore, s, u)
  {
    hide Route, Precedes, CodeUnitBefore;
    var level := DependenciesOf(ws, p.id);
    OwnRoute(ws, p.id);
    forall i | |s.ordered| <= i < |t.ordered| ensures HasRoute(ws, {p.id}, CodeUnitBefore, u.ordered[i].id) {
      var a :| Route(ws, level, CodeUnitBefore, a, t.ordered[i].id);
      RouteThrough(ws, p.id, a, t.ordered[i].id);
    }
    forall i, j | |s.ordered| <= i < j < |u.ordered| ensures RoutesPrecede(ws, {p.id}, CodeUnitBefore, u.ordered[i].id, u.ordered[j].id) {
      if j < |t.ordered| {
        var a, b :| Route(ws, level, CodeUnitBefore, a, t.ordered[i].id) && Route(ws, level, CodeUnitBefore, b, t.ordered[j].id) && Precedes(CodeUnitBefore, a, b);
        RouteThrough(ws, p.id, a, t.ordered[i].id);
        RouteThrough(ws, p.id, b, t.ordered[j].id);
        PrecedesThrough(p.id, a, b);
      } else {
        assert HasRoute(ws, level, CodeUnitBefore, t.ordered[i].id);
        var a :| Route(ws, level, CodeUnitBefore, a, t.ordered[i].id);
        RouteThrough(ws, p.id, a, t.ordered[i].id);
        RouteNotEmpty(ws, level, a, t.ordered[i].id);
        PrecedesItself(p.id, a);
      }
    }
  }

  lemma RouteNotEmpty(ws: seq<Package>, level: set<string>, a: seq<string>, x: string)
    requires Route(ws, level, CodeUnitBefore, a, x)
    ensures a != []
  {
  }

  /** Everything a finished package needs is finished. */
  lemma NeedsAreOrdered(ws: seq<Package>, trail: seq<string>, p: Package, s: Search, x: string)
    requires Sound(ws, trail, s) && AllDone([p], s) && Needs(ws, p.id, x)
    ensures x in Ids(s.ordered)
  {
    hide Edge;
    var closed := Ids(s.ordered);
    assert p in [p];
    forall y, b | y in closed && Edge(ws, y, b) ensures b in closed {
      var i :| 0 <= i < |s.ordered| && s.ordered[i].id == y;
      var k :| 0 <= k < |s.ordered[..i]| && s.ordered[..i][k].id == b;
      assert s.ordered[k].id == b;
    }
    if p.id != x {
      var w: seq<string> :| |w| >= 2 && w[0] == p.id && w[|w| - 1] == x && Walk(ws, w);
      ClosedUnderWalks(ws, w, closed);
    }
  }

  /** The first package of a level is the first to need what is published on its behalf. */
  lemma FirstOfLevel(ws: seq<Package>, ps: seq<Package>, before: Comparison<string>, a: seq<string>, x: string)
    requires ps != [] && InOrder(NamesOf(ps), before) && Route(ws, {ps[0].id}, CodeUnitBefore, a, x)
    ensures Route(ws, Ids(ps), before, a, x) && a[0] == ps[0].id
  {
    hide Needs, CodeUnitBefore;
    forall q | q in Ids(ps) ensures q == ps[0].id || before(ps[0].id, q) {
      var i :| 0 <= i < |ps| && ps[i].id == q;
      assert NamesOf(ps)[0] == ps[0].id && NamesOf(ps)[i] == q;
    }
  }

  /** What the first package of a level does not need is published on behalf of a later one. */
  lemma LaterOfLevel(ws: seq<Package>, ps: seq<Package>, before: Comparison<string>, a: seq<string>, x: string)
    requires ps != [] && Route(ws, Ids(ps[1..]), before, a, x) && !Needs(ws, ps[0].id, x)
    ensures Route(ws, Ids(ps), before, a, x)
  {
    hide Needs, CodeUnitBefore;
    forall q ensures q in Ids(ps) <==> q == ps[0].id || q in Ids(ps[1..]) {
      if q in Ids(ps) { var i :| 0 <= i < |ps| && ps[i].id == q; assert i > 0 ==> ps[1..][i - 1].id == q; }
      if q in Ids(ps[1..]) { var i :| 0 <= i < |ps[1..]| && ps[1..][i].id == q; assert ps[i + 1].id == q; }
      assert ps[0].id == q ==> q in Ids(ps);
    }
  }

  /** Routes from one package part behind it, so the order of its level does not matter. */
  lemma PrecedesBehind(before: Comparison<string>, a: seq<string>, b: seq<string>)
    requires a != [] && b != [] && a[0] == b[0] && Precedes(CodeUnitBefore, a, b)
    ensures Precedes(before, a, b)
  {
    var k: nat :| PartAt(CodeUnitBefore, a, b, k);
    CodeUnitOrders(a[0], a[0], "");
    hide CodeUnitBefore;
    assert PartAt(before, a, b, k);
  }

  lemma PrecedesAtOnce(before: Comparison<string>, a: seq<string>, b: seq<string>)
    requires a != [] && b != [] && before(a[0], b[0])
    ensures Precedes(before, a, b)
  {
    assert PartAt(before, a, b, 0);
  }

  /** What the search of one package has added, and that of the rest of its level, joins. */
  lemma JoinPlaces(ws: seq<Package>, ps: seq<Package>, before: Comparison<string>, s: Search, m: Search, t: Search)
    requires ps != [] && InOrder(NamesOf(ps), before)
    requires Placed(ws, {ps[0].id}, CodeUnitBefore, s, m) && Placed(ws, Ids(ps[1..]), before, m, t)
    requires forall i :: |m.ordered| <= i < |t.ordered| ==> !Needs(ws, ps[0].id, t.ordered[i].id)
    ensures Placed(ws, Ids(ps), before, s, t)
  {
    hide Route, Precedes, CodeUnitBefore, Needs, InOrder;
    forall i | |s.ordered| <= i < |t.ordered| ensures HasRoute(ws, Ids(ps), before, t.ordered[i].id) {
      if i < |m.ordered| { var a := EarlyRoute(ws, ps, before, s, m, i); } else { var a := LateRoute(ws, ps, before, m, t, i); }
    }
    forall i, j | |s.ordered| <= i < j < |t.ordered| ensures RoutesPrecede(ws, Ids(ps), before, t.ordered[i].id, t.ordered[j].id) {
      var x, y := t.ordered[i].id, t.ordered[j].id;
      if j < |m.ordered| {
        assert x == m.ordered[i].id && y == m.ordered[j].id;
        var a, b :| Route(ws, {ps[0].id}, CodeUnitBefore, a, x) && Route(ws, {ps[0].id}, CodeUnitBefore, b, y) && Precedes(CodeUnitBefore, a, b);
        FirstOfLevel(ws, ps, before, a, x);
        FirstOfLevel(ws, ps, before, b, y);
        StartsRoute(ws, Ids(ps), before, a, x);
        StartsRoute(ws, Ids(ps), before, b, y);
        PrecedesBehind(before, a, b);
      } else if i < |m.ordered| {
        var a := EarlyRoute(ws, ps, before, s, m, i);
        var b := LateRoute(ws, ps, before, m, t, j);
        FirstIsBefore(ps, before, b[0]);
        PrecedesAtOnce(before, a, b);
      } else {
        var a, b :| Route(ws, Ids(ps[1..]), before, a, x) && Route(ws, Ids(ps[1..]), before, b, y) && Precedes(before, a, b);
        LaterOfLevel(ws, ps, before, a, x);
        LaterOfLevel(ws, ps, before, b, y);
      }
    }
  }

  lemma StartsRoute(ws: seq<Package>, level: set<string>, before: Comparison<string>, a: seq<string>, x: string)
    requires Route(ws, level, before, a, x)
    ensures a != [] && a[0] in level && Needs(ws, a[0], x)
  {
  }

  lemma FirstIsBefore(ps: seq<Package>, before: Comparison<string>, q: string)
    requires ps != [] && InOrder(NamesOf(ps), before) && q in Ids(ps) && q != ps[0].id
    ensures before(ps[0].id, q)
  {
    var i :| 0 <= i < |ps| && ps[i].id == q;
    assert NamesOf(ps)[0] == ps[0].id && NamesOf(ps)[i] == q;
  }

  lemma EarlyRoute(ws: seq<Package>, ps: seq<Package>, before: Comparison<string>, s: Search, m: Search, i: nat) returns (a: seq<string>)
    requires ps != [] && InOrder(NamesOf(ps), before) && |s.ordered| <= i < |m.ordered|
    requires Placed(ws, {ps[0].id}, CodeUnitBefore, s, m)
    ensures Route(ws, Ids(ps), before, a, m.ordered[i].id) && a != [] && a[0] == ps[0].id
  {
    hide Route, Precedes, CodeUnitBefore, Needs, InOrder;
    assert HasRoute(ws, {ps[0].id}, CodeUnitBefore, m.ordered[i].id);
    a :| Route(ws, {ps[0].id}, CodeUnitBefore, a, m.ordered[i].id);
    StartsRoute(ws, {ps[0].id}, CodeUnitBefore, a, m.ordered[i].id);
    FirstOfLevel(ws, ps, before, a, m.ordered[i].id);
  }

  lemma LateRoute(ws: seq<Package>, ps: seq<Package>, before: Comparison<string>, m: Search, t: Search, i: nat) returns (b: seq<string>)
    requires ps != [] && |m.ordered| <= i < |t.ordered| && !Needs(ws, ps[0].id, t.ordered[i].id)
    requires Placed(ws, Ids(ps[1..]), before, m, t)
    ensures Route(ws, Ids(ps), before, b, t.ordered[i].id) && b != [] && b[0] in Ids(ps) && b[0] != ps[0].id
  {
    hide Route, Precedes, Needs;
    assert HasRoute(ws, Ids(ps[1..]), before, t.ordered[i].id);
    b :| Route(ws, Ids(ps[1..]), before, b, t.ordered[i].id);
    LaterOfLevel(ws, ps, before, b, t.ordered[i].id);
    StartsRoute(ws, Ids(ps), before, b, t.ordered[i].id);
  }

  lemma {:induction false} VisitPlaces(ws: seq<Package>, p: Package, trail: seq<string>, s: Search)
    requires Unique(ws) && Sound(ws, trail, s) && Follows(ws, trail, p)
    requires Keyed(ByName(ws)) && p.id in ByName(ws)
    requires Visit(ByName(ws), p, trail, s).Going?
    ensures Placed(ws, {p.id}, CodeUnitBefore, s, Visit(ByName(ws), p, trail, s).search)
    decreases Unseen(ByName(ws), s), 0, 0
  {
    hide Sound, Walk, Edge, Follows, Dependencies, ByName, Keyed, CodeUnitBefore, Placed, InOrder;
    var g := ByName(ws);
    if p.id in s.state {
      NothingPlaced(ws, {p.id}, CodeUnitBefore, s);
    } else {
      var entered := Search(s.state[p.id := Visiting], s.ordered);
      assert p.id in g.Keys - s.state.Keys && p.id !in g.Keys - entered.state.Keys;
      ProperSubsetSize(g.Keys - entered.state.Keys, g.Keys - s.state.Keys);
      EnterKeeps(ws, trail, p, s);
      DependenciesFollow(ws, trail, p);
      DependenciesInOrder(ws, p);
      CodeUnitCollates();
      VisitAllPlaces(ws, Dependencies(g, p), trail + [p.id], entered, CodeUnitBefore);
      var t := VisitAll(g, Dependencies(g, p), trail + [p.id], entered).search;
      SamePlaces(ws, DependenciesOf(ws, p.id), CodeUnitBefore, entered, s, t);
      LeavePlaces(ws, p, s, t, Search(t.state[p.id := Done], t.ordered + [p]));
    }
  }

  lemma SamePlaces(ws: seq<Package>, level: set<string>, before: Comparison<string>, entered: Search, s: Search, t: Search)
    requires Placed(ws, level, before, entered, t) && entered.ordered == s.ordered
    ensures Placed(ws, level, before, s, t)
  {
  }

  lemma {:induction false} VisitAllPlaces(ws: seq<Package>, ps: seq<Package>, trail: seq<string>, s: Search, before: Comparison<string>)
    requires Unique(ws) && Sound(ws, trail, s) && forall p :: p in ps ==> Follows(ws, trail, p)
    requires Keyed(ByName(ws)) && forall p :: p in ps ==> p.id in ByName(ws)
    requires InOrder(NamesOf(ps), before) && VisitAll(ByName(ws), ps, trail, s).Going?
    ensures Placed(ws, Ids(ps), before, s, VisitAll(ByName(ws), ps, trail, s).search)
    decreases Unseen(ByName(ws), s), 1, |ps|
  {
    hide Sound, Walk, Edge, Follows, Dependencies, ByName, Keyed, CodeUnitBefore, Placed, InOrder, Visit, Grows, AllDone, Needs;
    var g := ByName(ws);
    if ps == [] {
      NothingPlaced(ws, {}, before, s);
      assert Ids(ps) == {};
    } else {
      VisitJustified(ws, ps[0], trail, s);
      VisitPlaces(ws, ps[0], trail, s);
      var m := Visit(g, ps[0], trail, s).search;
      SubsetSize(g.Keys - m.state.Keys, g.Keys - s.state.Keys);
      InOrderRest(ps, before);
      VisitAllPlaces(ws, ps[1..], trail, m, before);
      VisitAllJustified(ws, ps[1..], trail, m);
      RestNotNeeded(ws, ps, trail, m, VisitAll(g, ps[1..], trail, m).search, before);
      JoinPlaces(ws, ps, before, s, m, VisitAll(g, ps[1..], trail, m).search);
    }
  }

  lemma InOrderRest(ps: seq<Package>, before: Comparison<string>)
    requires ps != [] && InOrder(NamesOf(ps), before)
    ensures InOrder(NamesOf(ps[1..]), before)
  {
    var all, rest := NamesOf(ps), NamesOf(ps[1..]);
    assert forall i :: 0 <= i < |rest| ==> rest[i] == all[i + 1];
  }

  /** What is added later is not needed by a package that is finished. */
  lemma RestNotNeeded(ws: seq<Package>, ps: seq<Package>, trail: seq<string>, m: Search, t: Search, before: Comparison<string>)
    requires ps != [] && Sound(ws, trail, m) && AllDone([ps[0]], m) && Sound(ws, trail, t) && Placed(ws, Ids(ps[1..]), before, m, t)
    ensures forall i :: |m.ordered| <= i < |t.ordered| ==> !Needs(ws, ps[0].id, t.ordered[i].id)
  {
    hide Needs, Edge, Walk, HasRoute, RoutesPrecede, AllDone;
    forall i | |m.ordered| <= i < |t.ordered| ensures !Needs(ws, ps[0].id, t.ordered[i].id) {
      IsNew(m.ordered, t.ordered, i);
      if Needs(ws, ps[0].id, t.ordered[i].id) {
        NeedsAreOrdered(ws, trail, ps[0], m, t.ordered[i].id);
        assert false;
      }
    }
  }

  lemma IsNew(front: seq<Package>, all: seq<Package>, i: nat)
    requires front <= all && Unique(all) && |front| <= i < |all|
    ensures all[i].id !in Ids(front)
  {
    assert forall k :: 0 <= k < |front| ==> front[k] == all[k];
  }

  // ---------------------------------------------------------------- the result

  /** Routes from all packages, ordered by name. */
  ghost predicate Sooner(ws: seq<Package>, collate: Comparison<string>, x: string, y: string) {
    RoutesPrecede(ws, Ids(ws), collate, x, y)
  }

  lemma FirstIsOne(ws: seq<Package>, level: set<string>, before: Comparison<string>, x: string, r: string, q: string)
    requires Collates(before) && FirstToNeed(ws, level, before, x, r) && FirstToNeed(ws, level, before, x, q)
    ensures r == q
  {
  }

  /** As long as two routes to `x` go on, they are the same. */
  lemma {:induction false} RoutesAgree(ws: seq<Package>, level: set<string>, before: Comparison<string>, a: seq<string>, b: seq<string>, x: string, k: nat)
    requires Collates(before) && Route(ws, level, before, a, x) && Route(ws, level, before, b, x) && k < |a| && k < |b|
    ensures a[..k + 1] == b[..k + 1]
  {
    hide Needs, CodeUnitBefore, Collates;
    if k == 0 {
      FirstIsOne(ws, level, before, x, a[0], b[0]);
    } else {
      CodeUnitCollates();
      RoutesAgree(ws, level, before, a, b, x, k - 1);
      assert a[k - 1] == a[..k][k - 1] == b[..k][k - 1] == b[k - 1];
      FirstIsOne(ws, DependenciesOf(ws, a[k - 1]), CodeUnitBefore, x, a[k], b[k]);
      assert a[..k + 1] == a[..k] + [a[k]] && b[..k + 1] == b[..k] + [b[k]];
    }
  }

  /** Without cycles there is one route to each package. */
  lemma RouteIsOne(ws: seq<Package>, level: set<string>, before: Comparison<string>, a: seq<string>, b: seq<string>, x: string)
    requires Acyclic(ws) && Collates(before) && Route(ws, level, before, a, x) && Route(ws, level, before, b, x)
    ensures a == b
  {
    NoLonger(ws, level, before, a, b, x);
    NoLonger(ws, level, before, b, a, x);
    RoutesAgree(ws, level, before, a, b, x, |a| - 1);
  }

  lemma NoLonger(ws: seq<Package>, level: set<string>, before: Comparison<string>, a: seq<string>, b: seq<string>, x: string)
    requires Acyclic(ws) && Collates(before) && Route(ws, level, before, a, x) && Route(ws, level, before, b, x)
    ensures |a| >= |b|
  {
    hide Needs, Edge, CodeUnitBefore, Collates;
    if |a| < |b| {
      var n := |a|;
      RoutesAgree(ws, level, before, a, b, x, n - 1);
      assert b[n - 1] == b[..n][n - 1] == a[..n][n - 1] == x;
      assert FirstToNeed(ws, DependenciesOf(ws, b[n - 1]), CodeUnitBefore, x, b[n]);
      EdgeCycles(ws, x, b[n]);
      assert false;
    }
  }

  /** A dependency does not need its dependent. */
  lemma EdgeCycles(ws: seq<Package>, x: string, b: string)
    requires Acyclic(ws)
    ensures !(Edge(ws, x, b) && Needs(ws, b, x))
  {
    EdgeSource(ws, x, b);
    if Edge(ws, x, b) && Needs(ws, b, x) {
      if b == x { EdgeReaches(ws, x, x); } else { EdgeExtends(ws, x, b); }
    }
  }

  lemma EdgeSource(ws: seq<Package>, a: string, b: string)
    ensures Edge(ws, a, b) ==> a in Ids(ws)
  {
  }

  lemma EdgeExtends(ws: seq<Package>, a: string, b: string)
    requires Edge(ws, a, b) && Reaches(ws, b, a)
    ensures Reaches(ws, a, a)
  {
    hide Edge;
    var w: seq<string> :| |w| >= 2 && w[0] == b && w[|w| - 1] == a && Walk(ws, w);
    assert Walk(ws, [a] + w);
    assert ([a] + w)[|w|] == a;
  }

  lemma PrecedesOneWay(before: Comparison<string>, a: seq<string>, b: seq<string>)
    requires Collates(before)
    ensures !(Precedes(before, a, b) && Precedes(before, b, a))
  {
    hide CodeUnitBefore;
    CodeUnitCollates();
    forall k: nat, l: nat ensures !(PartAt(before, a, b, k) && PartAt(before, b, a, l)) {
    }
  }

  lemma SoonerIsOneWay(ws: seq<Package>, collate: Comparison<string>, x: string, y: string)
    requires Acyclic(ws) && Collates(collate)
    ensures !(Sooner(ws, collate, x, y) && Sooner(ws, collate, y, x))
  {
    hide Route, Precedes, Acyclic, Collates;
    forall a, b, c, d | Route(ws, Ids(ws), collate, a, x) && Route(ws, Ids(ws), collate, b, y) && Precedes(collate, a, b)
                        && Route(ws, Ids(ws), collate, c, y) && Route(ws, Ids(ws), collate, d, x) && Precedes(collate, c, d)
      ensures false
    {
      RouteIsOne(ws, Ids(ws), collate, a, d, x);
      RouteIsOne(ws, Ids(ws), collate, b, c, y);
      PrecedesOneWay(collate, a, b);
    }
  }

  /**
   The whole order, ties included: a package stands before another if and only if its route precedes, that
   is, at the first level where they are published on behalf of different packages, its own comes first by
   name; and on one route, what is needed comes before what needs it.
   */
  lemma OrderedByRoutes(ws: seq<Package>, collate: Comparison<string>)
    requires Unique(ws) && Collates(collate) && OrderForPublish(ws, collate).Going?
    ensures var ordered := OrderForPublish(ws, collate).search.ordered;
            forall i, j :: 0 <= i < |ordered| && 0 <= j < |ordered| && i != j ==>
              (i < j <==> Sooner(ws, collate, ordered[i].id, ordered[j].id))
  {
    hide Edge, Walk, CodeUnitBefore, RoutesPrecede, HasRoute, Acyclic, OnCycle;
    var sorted := Sort(ws, ByNames(collate));
    ByNameFinds(ws);
    SortHolds(ws, ByNames(collate));
    SortAscends(ws, NameOf, collate);
    NothingSearched(ws);
    assert InOrder(NamesOf(sorted), collate);
    VisitAllPlaces(ws, sorted, [], Search(map[], []), collate);
    SameIds(sorted, ws);
    SucceedsExactlyWhenAcyclic(ws, collate);
    var ordered := OrderForPublish(ws, collate).search.ordered;
    forall i, j | 0 <= i < |ordered| && 0 <= j < |ordered| && i != j
      ensures i < j <==> Sooner(ws, collate, ordered[i].id, ordered[j].id)
    {
      SoonerIsOneWay(ws, collate, ordered[i].id, ordered[j].id);
      if i < j {
        assert RoutesPrecede(ws, Ids(ws), collate, ordered[i].id, ordered[j].id);
      } else {
        assert RoutesPrecede(ws, Ids(ws), collate, ordered[j].id, ordered[i].id);
      }
    }
  }

  lemma SameIds(a: seq<Package>, b: seq<Package>)
    requires forall p :: p in a <==> p in b
    ensures Ids(a) == Ids(b)
  {
    forall x ensures x in Ids(a) <==> x in Ids(b) {
      if x in Ids(a) { var i :| 0 <= i < |a| && a[i].id == x; assert a[i] in a; InIds(b, a[i]); }
      if x in Ids(b) { var i :| 0 <= i < |b| && b[i].id == x; assert b[i] in b; InIds(a, b[i]); }
    }
  }

  /** So the first packages by name that need them decide between two packages, if they differ. */
  lemma EarlierNeederGoesFirst(ws: seq<Package>, collate: Comparison<string>, i: nat, j: nat, r: string, q: string)
    requires Unique(ws) && Collates(collate) && OrderForPublish(ws, collate).Going?
    requires var ordered := OrderForPublish(ws, collate).search.ordered;
             && i < |ordered| && j < |ordered|
             && FirstToNeed(ws, Ids(ws), collate, ordered[i].id, r) && FirstToNeed(ws, Ids(ws), collate, ordered[j].id, q)
    requires collate(r, q)
    ensures i < j
  {
    hide Route, OrderForPublish, CodeUnitBefore, FirstToNeed;
    var ordered := OrderForPublish(ws, collate).search.ordered;
    OrderedByRoutes(ws, collate);
    if i == j {
      FirstsAreOne(ws, collate, ordered[i].id, r, q);
    } else if Sooner(ws, collate, ordered[j].id, ordered[i].id) {
      var b, a :| Route(ws, Ids(ws), collate, b, ordered[j].id) && Route(ws, Ids(ws), collate, a, ordered[i].id) && Precedes(collate, b, a);
      RouteStarts(ws, collate, b, ordered[j].id, q);
      RouteStarts(ws, collate, a, ordered[i].id, r);
      LaterStart(collate, b, a);
    }
  }

  lemma FirstsAreOne(ws: seq<Package>, collate: Comparison<string>, x: string, r: string, q: string)
    requires Collates(collate) && FirstToNeed(ws, Ids(ws), collate, x, r) && FirstToNeed(ws, Ids(ws), collate, x, q)
    ensures r == q && !collate(r, q)
  {
  }

  lemma RouteStarts(ws: seq<Package>, collate: Comparison<string>, a: seq<string>, x: string, r: string)
    requires Collates(collate) && Route(ws, Ids(ws), collate, a, x) && FirstToNeed(ws, Ids(ws), collate, x, r)
    ensures a != [] && a[0] == r
  {
    FirstIsOne(ws, Ids(ws), collate, x, a[0], r);
  }

  lemma LaterStart(before: Comparison<string>, a: seq<string>, b: seq<string>)
    requires Collates(before) && a != [] && b != [] && before(b[0], a[0])
    ensures !Precedes(before, a, b)
  {
    hide CodeUnitBefore;
    forall k: nat ensures !PartAt(before, a, b, k) {
      assert k > 0 && k <= |a| && k <= |b| ==> a[..k][0] == a[0] && b[..k][0] == b[0];
    }
  }

  /**
   The name of a free package does not decide: neither `b` nor `z` depends on anything, yet `z` goes before
   `b`, because `a` needs it.
   */
  lemma FreePackagesAreNotOrderedByName()
    ensures var b, z := Node("b", []), Node("z", []);
            var ws := [Node("a", ["z"]), b, z];
            var r := OrderForPublish(ws, CodeUnitBefore);
            && CodeUnitBefore("b", "z") && r.Going?
            && exists i, j :: 0 <= i < j < |r.search.ordered| && r.search.ordered[i] == z && r.search.ordered[j] == b
  {
    hide OrderForPublish;
    var a, b, z := Node("a", ["z"]), Node("b", []), Node("z", []);
    var ws := [a, b, z];
    CodeUnitCollates();
    OnlyEdge(ws);
    SucceedsExactlyWhenAcyclic(ws, CodeUnitBefore);
    var ordered := OrderForPublish(ws, CodeUnitBefore).search.ordered;
    assert z in ws && b in ws;
    assert z in multiset(ordered) && b in multiset(ordered);
    var i :| 0 <= i < |ordered| && ordered[i] == z;
    var j :| 0 <= j < |ordered| && ordered[j] == b;
    NeedersHere(ws);
    EarlierNeederGoesFirst(ws, CodeUnitBefore, i, j, "a", "b");
  }

  lemma OnlyEdge(ws: seq<Package>)
    requires ws == [Node("a", ["z"]), Node("b", []), Node("z", [])]
    ensures Unique(ws) && Ids(ws) == {"a", "b", "z"} && Acyclic(ws)
    ensures forall x, y :: Edge(ws, x, y) <==> x == "a" && y == "z"
    ensures forall x, y :: Reaches(ws, x, y) ==> x == "a" && y == "z"
  {
    assert ws[0].id == "a" && ws[1].id == "b" && ws[2].id == "z";
    forall x, y | Reaches(ws, x, y) ensures x == "a" && y == "z" {
      var w: seq<string> :| |w| >= 2 && w[0] == x && w[|w| - 1] == y && Walk(ws, w);
      assert Edge(ws, w[0], w[1]) && Edge(ws, w[|w| - 2], w[|w| - 1]);
    }
  }

  lemma NeedersHere(ws: seq<Package>)
    requires ws == [Node("a", ["z"]), Node("b", []), Node("z", [])]
    ensures FirstToNeed(ws, Ids(ws), CodeUnitBefore, "z", "a") && FirstToNeed(ws, Ids(ws), CodeUnitBefore, "b", "b")
    ensures CodeUnitBefore("a", "b") && CodeUnitBefore("b", "z")
  {
    hide Reaches, Edge;
    OnlyEdge(ws);
    EdgeReaches(ws, "a", "z");
  }
}
