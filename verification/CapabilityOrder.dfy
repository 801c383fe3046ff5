/**
 `app/kernel/ordering.ts`: a provider registry is mounted so that every dependency wraps its
 dependents. Orders are permutations of registration indices.
 */
module CapabilityOrder {
  import opened DependencyGraph
  import opened FiniteSets

  type Capability = Node

  datatype ConfigError =
    | DuplicateId(id: string)
    | UnknownDependency(id: string, dependency: string)
    | Cyclic(ids: seq<string>)

  // ---------------------------------------------------------------- registries and orders

  ghost predicate Known(cs: seq<Capability>) {
    forall i, d :: 0 <= i < |cs| && d in cs[i].dependsOn ==> d in Ids(cs)
  }

  ghost predicate Distinct(p: seq<nat>, n: nat) {
    (forall k :: 0 <= k < |p| ==> p[k] < n) && forall j, k :: 0 <= j < k < |p| ==> p[j] != p[k]
  }

  /** The ids mounted by a list of indices. */
  ghost function Met(cs: seq<Capability>, done: seq<nat>): set<string> {
    set k | 0 <= k < |done| && done[k] < |cs| :: cs[done[k]].id
  }

  ghost predicate Satisfied(cs: seq<Capability>, done: seq<nat>, i: nat)
    requires i < |cs|
  {
    forall d :: d in cs[i].dependsOn ==> d in Met(cs, done)
  }

  ghost predicate DependenciesFirst(cs: seq<Capability>, p: seq<nat>) {
    forall k :: 0 <= k < |p| && p[k] < |cs| ==> Satisfied(cs, p[..k], p[k])
  }

  /** `p` mounts every capability once and every dependency before its dependents. */
  ghost predicate Order(cs: seq<Capability>, p: seq<nat>) {
    |p| == |cs| && Distinct(p, |cs|) && DependenciesFirst(cs, p)
  }

  ghost predicate LexicographicallyAtMost(p: seq<nat>, q: seq<nat>) {
    p == q || exists k :: 0 <= k < |p| && k < |q| && p[..k] == q[..k] && p[k] < q[k]
  }

  ghost predicate LeastOrder(cs: seq<Capability>, p: seq<nat>) {
    Order(cs, p) && forall q :: Order(cs, q) ==> LexicographicallyAtMost(p, q)
  }

  ghost predicate Selects(cs: seq<Capability>, p: seq<nat>, ordered: seq<Capability>) {
    |ordered| == |p| && forall k :: 0 <= k < |p| ==> p[k] < |cs| && ordered[k] == cs[p[k]]
  }

  // ---------------------------------------------------------------- cycles

  /** The ids of `cs` on a cycle of `graph`, in registration order. */
  ghost function CycleIds(graph: seq<Capability>, cs: seq<Capability>): seq<string> {
    if cs == [] then []
    else CycleIds(graph, cs[..|cs| - 1]) + if OnCycle(graph, cs[|cs| - 1].id) then [cs[|cs| - 1].id] else []
  }

  lemma {:induction false} CycleIdsAreExact(graph: seq<Capability>, cs: seq<Capability>)
    ensures forall id :: id in CycleIds(graph, cs) <==> id in Ids(cs) && OnCycle(graph, id)
  {
    if cs != [] {
      var front := cs[..|cs| - 1];
      CycleIdsAreExact(graph, front);
      assert Ids(cs) == Ids(front) + {cs[|cs| - 1].id} by { assert cs == front + [cs[|cs| - 1]]; }
    }
  }

  /** Along a walk, the positions of mounted capabilities fall. */
  lemma {:induction false} PositionsFall(cs: seq<Capability>, done: seq<nat>, w: seq<string>, k: nat)
    requires Unique(cs) && Distinct(done, |cs|) && DependenciesFirst(cs, done)
    requires |w| >= 1 && Walk(cs, w) && k < |done| && w[0] == cs[done[k]].id
    ensures |w| > 1 ==> w[|w| - 1] in Met(cs, done[..k])
    decreases |w|
  {
    if |w| > 1 {
      assert Edge(cs, w[0], w[1]);
      assert Satisfied(cs, done[..k], done[k]);
      var j :| 0 <= j < k && cs[done[..k][j]].id == w[1];
      var rest := w[1..];
      PositionsFall(cs, done, rest, j);
      if |rest| > 1 {
        var i :| 0 <= i < j && cs[done[..j][i]].id == w[|w| - 1];
        assert done[..k][i] == done[..j][i];
      }
    }
  }

  /** Nothing on a cycle is ever mounted. */
  lemma CyclesStayBlocked(cs: seq<Capability>, done: seq<nat>, id: string)
    requires Unique(cs) && Distinct(done, |cs|) && DependenciesFirst(cs, done) && OnCycle(cs, id)
    ensures id !in Met(cs, done)
  {
    if id in Met(cs, done) {
      var k :| 0 <= k < |done| && cs[done[k]].id == id;
      var w: seq<string> :| |w| >= 2 && w[0] == id && w[|w| - 1] == id && Walk(cs, w);
      PositionsFall(cs, done, w, k);
    }
  }

  /** An order exists only when there is no cycle. */
  lemma OrdersAreAcyclic(cs: seq<Capability>, p: seq<nat>)
    requires Unique(cs) && Order(cs, p)
    ensures Acyclic(cs)
  {
    forall id | id in Ids(cs) && OnCycle(cs, id) ensures false {
      CyclesStayBlocked(cs, p, id);
      var i :| 0 <= i < |cs| && cs[i].id == id;
      FullIsSurjective(p, |cs|, i);
    }
  }

  lemma {:induction false} FullIsSurjective(p: seq<nat>, n: nat, i: nat)
    requires Distinct(p, n) && |p| == n && i < n
    ensures i in p
  {
    var elements := set k | 0 <= k < |p| :: p[k];
    var range := Below(n);
    DistinctCount(p, n);
    if i !in p {
      assert elements <= range - {i};
      SubsetSize(elements, range - {i});
    }
  }

  lemma DistinctFits(p: seq<nat>, n: nat)
    requires Distinct(p, n)
    ensures |p| <= n
  {
    var elements := set k | 0 <= k < |p| :: p[k];
    DistinctCount(p, n);
    SubsetSize(elements, Below(n));
  }

  lemma SomeMissing(p: seq<nat>, n: nat) returns (i: nat)
    requires Distinct(p, n) && |p| < n
    ensures i < n && i !in p
  {
    var elements := set k | 0 <= k < |p| :: p[k];
    DistinctCount(p, n);
    if Below(n) <= elements {
      SubsetSize(Below(n), elements);
    }
    i :| i in Below(n) && i !in elements;
    assert i !in p;
  }

  lemma {:induction false} DistinctCount(p: seq<nat>, n: nat)
    requires Distinct(p, n)
    ensures |set k | 0 <= k < |p| :: p[k]| == |p|
  {
    if p != [] {
      var front := p[..|p| - 1];
      DistinctCount(front, n);
      assert (set k | 0 <= k < |p| :: p[k]) == (set k | 0 <= k < |front| :: front[k]) + {p[|p| - 1]} by {
        assert p == front + [p[|p| - 1]];
      }
      assert p[|p| - 1] !in (set k | 0 <= k < |front| :: front[k]);
    }
  }

  // ---------------------------------------------------------------- greedy choice

  /** `i` could be mounted right after `done`. */
  ghost predicate Available(cs: seq<Capability>, done: seq<nat>, i: nat) {
    i < |cs| && i !in done && Satisfied(cs, done, i)
  }

  ghost predicate LeastAvailable(cs: seq<Capability>, done: seq<nat>, i: nat) {
    Available(cs, done, i) && forall j :: Available(cs, done, j) ==> i <= j
  }

  /** Every capability was the least available one when it was mounted. */
  ghost predicate Greedy(cs: seq<Capability>, done: seq<nat>) {
    forall k :: 0 <= k < |done| ==> LeastAvailable(cs, done[..k], done[k])
  }

  lemma GreedyOrders(cs: seq<Capability>, done: seq<nat>)
    requires Greedy(cs, done)
    ensures Distinct(done, |cs|) && DependenciesFirst(cs, done)
  {
    forall k | 0 <= k < |done| ensures done[k] < |cs| && done[k] !in done[..k] && Satisfied(cs, done[..k], done[k]) {
      assert LeastAvailable(cs, done[..k], done[k]);
    }
    forall j, k | 0 <= j < k < |done| ensures done[j] != done[k] {
      assert done[..k][j] == done[j];
    }
  }

  lemma GreedyExtends(cs: seq<Capability>, done: seq<nat>, i: nat)
    requires Greedy(cs, done) && LeastAvailable(cs, done, i)
    ensures Greedy(cs, done + [i])
  {
    var next := done + [i];
    forall k | 0 <= k < |next| ensures LeastAvailable(cs, next[..k], next[k]) {
      assert next[..k] == done[..k];
      if k == |done| {
        assert done[..k] == done;
      }
    }
  }

  ghost function FirstDifference(p: seq<nat>, q: seq<nat>): (k: nat)
    requires |p| == |q|
    ensures k <= |p| && p[..k] == q[..k] && (k < |p| ==> p[k] != q[k])
  {
    if p == [] || p[0] != q[0] then 0
    else
      var k := FirstDifference(p[1..], q[1..]);
      assert p[..k + 1] == [p[0]] + p[1..][..k] && q[..k + 1] == [q[0]] + q[1..][..k];
      k + 1
  }

  /** A complete greedy order is the least of all orders. */
  lemma {:induction false} GreedyIsLeast(cs: seq<Capability>, p: seq<nat>)
    requires Greedy(cs, p) && |p| == |cs|
    ensures LeastOrder(cs, p)
  {
    GreedyOrders(cs, p);
    forall q | Order(cs, q) ensures LexicographicallyAtMost(p, q) {
      var k := FirstDifference(p, q);
      if k < |p| {
        assert LeastAvailable(cs, p[..k], p[k]);
        assert Available(cs, q[..k], q[k]) by { assert Satisfied(cs, q[..k], q[k]); }
        assert p[k] < q[k];
      } else {
        assert p == p[..k] && q == q[..k];
      }
    }
  }

  // ---------------------------------------------------------------- counting unmet dependencies

  /** How many entries of `deps`, repeats included, are not in `met`. */
  ghost function Unmet(deps: seq<string>, met: set<string>): nat {
    if deps == [] then 0
    else Unmet(deps[..|deps| - 1], met) + if deps[|deps| - 1] in met then 0 else 1
  }

  lemma {:induction false} UnmetZero(deps: seq<string>, met: set<string>)
    ensures Unmet(deps, met) == 0 <==> forall d :: d in deps ==> d in met
  {
    if deps != [] {
      UnmetZero(deps[..|deps| - 1], met);
      assert deps == deps[..|deps| - 1] + [deps[|deps| - 1]];
    }
  }

  lemma {:induction false} UnmetDrops(deps: seq<string>, met: set<string>, d: string)
    requires d !in met
    ensures Unmet(deps, met) == Unmet(deps, met + {d}) + multiset(deps)[d]
  {
    if deps != [] {
      UnmetDrops(deps[..|deps| - 1], met, d);
      assert deps == deps[..|deps| - 1] + [deps[|deps| - 1]];
    }
  }

  lemma {:induction false} UnmetNone(deps: seq<string>)
    ensures Unmet(deps, {}) == |deps|
  {
    if deps != [] {
      UnmetNone(deps[..|deps| - 1]);
    }
  }

  /** Mounting `i` meets its id, and the counts drop by its entries. */
  lemma Mounting(cs: seq<Capability>, done: seq<nat>, i: nat)
    requires Unique(cs) && Distinct(done, |cs|) && i < |cs| && i !in done
    ensures Met(cs, done + [i]) == Met(cs, done) + {cs[i].id} && cs[i].id !in Met(cs, done)
    ensures forall k :: 0 <= k < |cs| ==>
              Unmet(cs[k].dependsOn, Met(cs, done)) == Unmet(cs[k].dependsOn, Met(cs, done + [i])) + multiset(cs[k].dependsOn)[cs[i].id]
  {
    var next := done + [i];
    var met := Met(cs, done) + {cs[i].id};
    forall id | id in met ensures id in Met(cs, next) {
      if id == cs[i].id {
        assert cs[next[|done|]].id == id;
      } else {
        var k :| 0 <= k < |done| && done[k] < |cs| && cs[done[k]].id == id;
        assert cs[next[k]].id == id;
      }
    }
    assert Met(cs, next) == met;
    forall k | 0 <= k < |cs|
      ensures Unmet(cs[k].dependsOn, Met(cs, done)) == Unmet(cs[k].dependsOn, met) + multiset(cs[k].dependsOn)[cs[i].id]
    {
      UnmetDrops(cs[k].dependsOn, Met(cs, done), cs[i].id);
    }
  }

  /** Mounted capabilities have nothing unmet; the others are available exactly at zero. */
  lemma MountedOrCounted(cs: seq<Capability>, done: seq<nat>, i: nat)
    requires Greedy(cs, done) && i < |cs|
    ensures i in done ==> Unmet(cs[i].dependsOn, Met(cs, done)) == 0
    ensures Available(cs, done, i) <==> i !in done && Unmet(cs[i].dependsOn, Met(cs, done)) == 0
  {
    UnmetZero(cs[i].dependsOn, Met(cs, done));
    if i in done {
      var k :| 0 <= k < |done| && done[k] == i;
      assert LeastAvailable(cs, done[..k], i);
      forall d | d in cs[i].dependsOn ensures d in Met(cs, done) {
        var j :| 0 <= j < k && done[..k][j] < |cs| && cs[done[..k][j]].id == d;
        assert done[j] < |cs| && cs[done[j]].id == d;
      }
    }
  }
}
