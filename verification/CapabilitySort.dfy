/** `orderCapabilities` itself: counters decremented in place, a sorted ready list and a cycle search. */
module CapabilitySort {
  import opened Outcomes
  import opened CapabilityCycles
  import opened CapabilityOrder
  import opened DependencyGraph

  // ---------------------------------------------------------------- guards

  /** The first id that repeats an earlier one. */
  ghost predicate FirstDuplicate(cs: seq<Capability>, id: string) {
    exists i :: 0 <= i < |cs| && cs[i].id == id && Unique(cs[..i]) && id in Ids(cs[..i])
  }

  method AssertUniqueIds(cs: seq<Capability>) returns (duplicate: Option<string>)
    ensures duplicate.None? <==> Unique(cs)
    ensures duplicate.Some? ==> FirstDuplicate(cs, duplicate.value)
  {
    var seen: set<string> := {};
    var i := 0;
    while i < |cs|
      invariant i <= |cs| && seen == Ids(cs[..i]) && Unique(cs[..i])
    {
      if cs[i].id in seen {
        assert exists j :: 0 <= j < i && cs[..i][j].id == cs[i].id;
        return Some(cs[i].id);
      }
      seen := seen + {cs[i].id};
      assert cs[..i + 1] == cs[..i] + [cs[i]];
      i := i + 1;
    }
    assert cs[..i] == cs;
    return None;
  }

  // ---------------------------------------------------------------- the ready list

  ghost predicate Sorted(ready: seq<nat>) {
    forall j, k :: 0 <= j < k < |ready| ==> ready[j] < ready[k]
  }

  /** Keeps `ready` sorted by registration index. */
  method InsertByIndex(ready: seq<nat>, node: nat) returns (extended: seq<nat>)
    requires Sorted(ready) && node !in ready
    ensures Sorted(extended) && forall i :: i in extended <==> i in ready || i == node
  {
    var at := 0;
    while at < |ready| && ready[at] < node
      invariant at <= |ready| && forall k :: 0 <= k < at ==> ready[k] < node
    {
      at := at + 1;
    }
    extended := ready[..at] + [node] + ready[at..];
    forall i ensures i in extended <==> i in ready || i == node {
      assert ready == ready[..at] + ready[at..];
    }
  }

  // ---------------------------------------------------------------- the search for cycles

  /** The dependencies of `id` among `blocked`, repeats included. */
  function BlockedDependencies(blocked: seq<Capability>, id: string): (deps: seq<string>)
    requires Unique(blocked)
    ensures forall d :: d in deps <==> Edge(blocked, id, d)
  {
    DependenciesFrom(blocked, id, 0)
  }

  function DependenciesFrom(blocked: seq<Capability>, id: string, i: nat): (deps: seq<string>)
    requires Unique(blocked) && i <= |blocked|
    ensures forall d :: d in deps <==>
              d in Ids(blocked) && exists j :: i <= j < |blocked| && blocked[j].id == id && d in blocked[j].dependsOn
    decreases |blocked| - i
  {
    if i == |blocked| then []
    else if blocked[i].id == id then Within(blocked[i].dependsOn, Ids(blocked))
    else DependenciesFrom(blocked, id, i + 1)
  }

  function Within(deps: seq<string>, ids: set<string>): (kept: seq<string>)
    ensures forall d :: d in kept <==> d in deps && d in ids
  {
    if deps == [] then [] else (if deps[0] in ids then [deps[0]] else []) + Within(deps[1..], ids)
  }

  /** Depth-first search for a way back to `start`. */
  method ReachesSelf(blocked: seq<Capability>, start: string) returns (cyclic: bool)
    requires Unique(blocked)
    ensures cyclic <==> OnCycle(blocked, start)
  {
    var stack := BlockedDependencies(blocked, start);
    var seen: set<string> := {};
    forall b | Edge(blocked, start, b) ensures Reaches(blocked, start, b) { EdgeReaches(blocked, start, b); }
    while stack != []
      invariant start !in seen
      invariant forall x :: x in stack ==> x in Ids(blocked) && Reaches(blocked, start, x)
      invariant forall b :: Edge(blocked, start, b) ==> b in seen || b in stack
      invariant forall x, b :: x in seen && Edge(blocked, x, b) ==> b in seen || b in stack
      decreases Ids(blocked) - seen, |stack|
    {
      var id := stack[|stack| - 1];
      ghost var popped := stack;
      stack := stack[..|stack| - 1];
      assert popped == stack + [id];
      if id == start { return true; }
      if id !in seen {
        seen := seen + {id};
        var more := BlockedDependencies(blocked, id);
        forall x | x in more ensures x in Ids(blocked) && Reaches(blocked, start, x) {
          ReachesOn(blocked, start, id, x);
        }
        stack := stack + more;
      }
    }
    if OnCycle(blocked, start) {
      var w: seq<string> :| |w| >= 2 && w[0] == start && w[|w| - 1] == start && Walk(blocked, w);
      ClosedUnderWalks(blocked, w, seen);
    }
    return false;
  }

  /** The blocked capabilities that sit on a cycle, in registration order. */
  method CycleParticipants(blocked: seq<Capability>) returns (ids: seq<string>)
    requires Unique(blocked)
    ensures ids == CycleIds(blocked, blocked)
  {
    ids := [];
    var i := 0;
    while i < |blocked|
      invariant i <= |blocked| && ids == CycleIds(blocked, blocked[..i])
    {
      assert blocked[..i + 1][..i] == blocked[..i];
      var cyclic := ReachesSelf(blocked, blocked[i].id);
      if cyclic { ids := ids + [blocked[i].id]; }
      i := i + 1;
    }
    assert blocked[..i] == blocked;
  }

  // ---------------------------------------------------------------- counting

  function ListOf(dependents: map<string, seq<nat>>, id: string): seq<nat> {
    if id in dependents then dependents[id] else []
  }

  /** The dependency entries recorded when the loops stand at entry `j` of capability `i`. */
  ghost function Recorded(cs: seq<Capability>, i: nat, j: nat, k: nat): seq<string>
    requires k < |cs| && (k == i ==> j <= |cs[i].dependsOn|)
  {
    if k < i then cs[k].dependsOn else if k == i then cs[k].dependsOn[..j] else []
  }

  ghost predicate Tallied(cs: seq<Capability>, i: nat, j: nat, dependents: map<string, seq<nat>>)
    requires i < |cs| ==> j <= |cs[i].dependsOn|
  {
    && (forall d, x :: x in ListOf(dependents, d) ==> x < |cs|)
    && (forall d, k :: 0 <= k < |cs| ==> multiset(ListOf(dependents, d))[k] == multiset(Recorded(cs, i, j, k))[d])
  }

  lemma TallyOne(cs: seq<Capability>, i: nat, j: nat, dependents: map<string, seq<nat>>)
    requires i < |cs| && j < |cs[i].dependsOn| && Tallied(cs, i, j, dependents)
    ensures var d := cs[i].dependsOn[j];
            Tallied(cs, i, j + 1, dependents[d := ListOf(dependents, d) + [i]])
  {
    var d := cs[i].dependsOn[j];
    var next := dependents[d := ListOf(dependents, d) + [i]];
    forall e, x | x in ListOf(next, e) ensures x < |cs| {
      assert x in ListOf(dependents, e) || x == i;
    }
    forall e, k | 0 <= k < |cs| ensures multiset(ListOf(next, e))[k] == multiset(Recorded(cs, i, j + 1, k))[e] {
      assert multiset(ListOf(dependents, e))[k] == multiset(Recorded(cs, i, j, k))[e];
      TallyAt(cs, i, j, dependents, e, k);
    }
  }

  lemma TallyAt(cs: seq<Capability>, i: nat, j: nat, dependents: map<string, seq<nat>>, e: string, k: nat)
    requires i < |cs| && j < |cs[i].dependsOn| && k < |cs|
    requires multiset(ListOf(dependents, e))[k] == multiset(Recorded(cs, i, j, k))[e]
    ensures var d := cs[i].dependsOn[j];
            multiset(ListOf(dependents[d := ListOf(dependents, d) + [i]], e))[k] == multiset(Recorded(cs, i, j + 1, k))[e]
  {
    hide ListOf, Recorded;
    var d := cs[i].dependsOn[j];
    TallyEntry(ListOf(dependents, e), Recorded(cs, i, j, k), i, d, k, e);
    ListGrows(dependents, d, i, e);
    RecordedGrows(cs, i, j, k);
  }

  lemma ListGrows(dependents: map<string, seq<nat>>, d: string, i: nat, e: string)
    ensures ListOf(dependents[d := ListOf(dependents, d) + [i]], e) == ListOf(dependents, e) + if e == d then [i] else []
  {
  }

  lemma RecordedGrows(cs: seq<Capability>, i: nat, j: nat, k: nat)
    requires i < |cs| && j < |cs[i].dependsOn| && k < |cs|
    ensures Recorded(cs, i, j + 1, k) == Recorded(cs, i, j, k) + if k == i then [cs[i].dependsOn[j]] else []
  {
  }

  lemma TallyEntry(list: seq<nat>, recorded: seq<string>, i: nat, d: string, k: nat, e: string)
    requires multiset(list)[k] == multiset(recorded)[e]
    ensures multiset(list + if e == d then [i] else [])[k] == multiset(recorded + if k == i then [d] else [])[e]
  {
  }

  lemma TallyNone(cs: seq<Capability>)
    ensures Tallied(cs, 0, 0, map[])
  {
  }

  lemma TallyRow(cs: seq<Capability>, i: nat, dependents: map<string, seq<nat>>)
    requires i < |cs| && Tallied(cs, i, |cs[i].dependsOn|, dependents)
    ensures Tallied(cs, i + 1, 0, dependents)
  {
    forall e, k | 0 <= k < |cs| ensures multiset(ListOf(dependents, e))[k] == multiset(Recorded(cs, i + 1, 0, k))[e] {
      assert Recorded(cs, i + 1, 0, k) == Recorded(cs, i, |cs[i].dependsOn|, k);
    }
  }

  /** The first dependency, in registration order, that names no capability. */
  ghost predicate FirstUnknown(cs: seq<Capability>, id: string, dependency: string) {
    exists i, j ::
      && 0 <= i < |cs| && 0 <= j < |cs[i].dependsOn|
      && cs[i].id == id && cs[i].dependsOn[j] == dependency && dependency !in Ids(cs)
      && Known'(cs, i, j)
  }

  ghost predicate Known'(cs: seq<Capability>, i: nat, j: nat)
    requires i <= |cs| && (i < |cs| ==> j <= |cs[i].dependsOn|)
  {
    && (forall k, d :: 0 <= k < i && d in cs[k].dependsOn ==> d in Ids(cs))
    && (i < |cs| ==> forall d :: d in cs[i].dependsOn[..j] ==> d in Ids(cs))
  }

  /** Counts every dependency entry and lists each id's dependents, or finds an unknown id. */
  method CountDependencies(cs: seq<Capability>)
    returns (unmet: array<nat>, dependents: map<string, seq<nat>>, failure: Option<ConfigError>)
    ensures fresh(unmet) && unmet.Length == |cs|
    ensures failure.None? <==> Known(cs)
    ensures failure.Some? ==> failure.value.UnknownDependency? && FirstUnknown(cs, failure.value.id, failure.value.dependency)
    ensures failure.None? ==> Tallied(cs, |cs|, 0, dependents) && forall k :: 0 <= k < |cs| ==> unmet[k] == |cs[k].dependsOn|
  {
    hide Tallied;
    unmet := new nat[|cs|](_ => 0);
    dependents := map[];
    TallyNone(cs);
    var i := 0;
    while i < |cs|
      invariant i <= |cs| && Known'(cs, i, 0) && Tallied(cs, i, 0, dependents)
      invariant forall k :: 0 <= k < |cs| ==> unmet[k] == |Recorded(cs, i, 0, k)|
    {
      var j := 0;
      while j < |cs[i].dependsOn|
        invariant j <= |cs[i].dependsOn| && Known'(cs, i, j) && Tallied(cs, i, j, dependents)
        invariant forall k :: 0 <= k < |cs| ==> unmet[k] == |Recorded(cs, i, j, k)|
      {
        var d := cs[i].dependsOn[j];
        if d !in Ids(cs) {
          return unmet, dependents, Some(UnknownDependency(cs[i].id, d));
        }
        TallyOne(cs, i, j, dependents);
        assert cs[i].dependsOn[..j + 1] == cs[i].dependsOn[..j] + [d];
        unmet[i] := unmet[i] + 1;
        dependents := dependents[d := ListOf(dependents, d) + [i]];
        j := j + 1;
      }
      assert cs[i].dependsOn[..j] == cs[i].dependsOn;
      TallyRow(cs, i, dependents);
      assert forall k :: 0 <= k < |cs| ==> Recorded(cs, i + 1, 0, k) == Recorded(cs, i, j, k);
      i := i + 1;
    }
    failure := None;
  }

  /** Counts down the dependents of a mounted capability; those that reach zero become ready. */
  method Release(list: seq<nat>, unmet: array<nat>, waiting: seq<nat>) returns (ready: seq<nat>)
    requires Sorted(waiting) && forall x :: x in waiting ==> x < unmet.Length && unmet[x] == 0
    requires forall x :: x in list ==> x < unmet.Length
    requires forall x :: 0 <= x < unmet.Length ==> unmet[x] >= multiset(list)[x]
    modifies unmet
    ensures forall x :: 0 <= x < unmet.Length ==> unmet[x] + multiset(list)[x] == old(unmet[x])
    ensures Sorted(ready)
    ensures forall x :: x in ready <==> x in waiting || (x in list && unmet[x] == 0)
  {
    ready := waiting;
    var k := 0;
    while k < |list|
      invariant k <= |list| && Sorted(ready)
      invariant forall x :: 0 <= x < unmet.Length ==> unmet[x] + multiset(list[..k])[x] == old(unmet[x])
      invariant forall x :: x in ready <==> x in waiting || (x < unmet.Length && x in list[..k] && unmet[x] == 0)
    {
      var x := list[k];
      assert list == list[..k] + [x] + list[k + 1..];
      assert list[..k + 1] == list[..k] + [x];
      assert x in list && x in multiset(list) && x !in ready;
      unmet[x] := unmet[x] - 1;
      if unmet[x] == 0 {
        ready := InsertByIndex(ready, x);
      }
      k := k + 1;
    }
    assert list[..k] == list;
  }

  /** The nodes the sort left with a positive count. */
  method BlockedNodes(cs: seq<Capability>, unmet: array<nat>, ghost done: seq<nat>) returns (blocked: seq<Capability>)
    requires unmet.Length == |cs| && forall k :: 0 <= k < |cs| ==> (unmet[k] > 0 <==> cs[k].id !in Met(cs, done))
    ensures blocked == Left(cs, Met(cs, done))
  {
    blocked := [];
    var i := 0;
    while i < |cs|
      invariant i <= |cs| && blocked == Left(cs[..i], Met(cs, done))
    {
      assert cs[..i + 1][..i] == cs[..i];
      if unmet[i] > 0 { blocked := blocked + [cs[i]]; }
      i := i + 1;
    }
    assert cs[..i] == cs;
  }

  // ---------------------------------------------------------------- the sort

  /** What the main loop keeps about the nodes mounted so far, the ready list and the counters. */
  ghost predicate Counted(cs: seq<Capability>, done: seq<nat>, unmet: seq<nat>) {
    |unmet| == |cs| && forall k :: 0 <= k < |cs| ==> unmet[k] == Unmet(cs[k].dependsOn, Met(cs, done))
  }

  ghost predicate ReadyIsAvailable(cs: seq<Capability>, done: seq<nat>, ready: seq<nat>) {
    Sorted(ready) && forall i :: i in ready <==> Available(cs, done, i)
  }

  lemma NothingMounted(cs: seq<Capability>, unmet: seq<nat>, ready: seq<nat>)
    requires |unmet| == |cs| && forall k :: 0 <= k < |cs| ==> unmet[k] == |cs[k].dependsOn|
    requires Sorted(ready) && forall i: nat :: i in ready <==> i < |cs| && unmet[i] == 0
    ensures Counted(cs, [], unmet) && ReadyIsAvailable(cs, [], ready)
  {
    assert Met(cs, []) == {};
    forall k | 0 <= k < |cs| ensures unmet[k] == Unmet(cs[k].dependsOn, {}) {
      UnmetNone(cs[k].dependsOn);
    }
    forall i: nat | i < |cs| ensures i in ready <==> Available(cs, [], i) {
      MountedOrCounted(cs, [], i);
    }
  }

  /** One round: the first ready node is mounted, its dependents counted down and released. */
  lemma Mounted(cs: seq<Capability>, done: seq<nat>, before: seq<nat>, ready: seq<nat>, list: seq<nat>, after: seq<nat>, released: seq<nat>)
    requires Unique(cs) && Greedy(cs, done) && Counted(cs, done, before) && ReadyIsAvailable(cs, done, ready) && ready != []
    requires forall x :: x in list ==> x < |cs|
    requires forall k :: 0 <= k < |cs| ==> multiset(list)[k] == multiset(cs[k].dependsOn)[cs[ready[0]].id]
    requires |after| == |cs| && forall k :: 0 <= k < |cs| ==> after[k] + multiset(list)[k] == before[k]
    requires Sorted(released)
    requires forall x :: x in released <==> x in ready[1..] || (x in list && after[x] == 0)
    ensures Greedy(cs, done + [ready[0]]) && Counted(cs, done + [ready[0]], after)
    ensures ReadyIsAvailable(cs, done + [ready[0]], released)
  {
    hide Greedy, Satisfied, Available, LeastAvailable, Unmet, Met;
    var node := ready[0];
    FirstReadyIsLeast(cs, done, ready);
    GreedyExtends(cs, done, node);
    GreedyOrders(cs, done);
    assert node in ready;
    AvailableIsNew(cs, done, node);
    Mounting(cs, done, node);
    var next := done + [node];
    forall x: nat | x < |cs| ensures x in released <==> Available(cs, next, x) {
      ReleasedAt(cs, done, node, x, multiset(list)[x]);
      TailOf(ready, x);
      assert x in list <==> multiset(list)[x] > 0;
      assert after[x] == Unmet(cs[x].dependsOn, Met(cs, next));
      assert x in ready <==> Available(cs, done, x);
      assert x in released <==> x in ready[1..] || (x in list && after[x] == 0);
    }
    forall x: nat ensures Available(cs, next, x) ==> x < |cs| { AvailableIsNew(cs, next, x); }
    forall x: nat | x in ready[1..] ensures x < |cs| {
      assert x in ready;
      AvailableIsNew(cs, done, x);
    }
  }

  lemma TailOf(ready: seq<nat>, x: nat)
    requires Sorted(ready) && ready != []
    ensures x in ready[1..] <==> x in ready && x != ready[0]
  {
    assert ready == [ready[0]] + ready[1..];
  }

  lemma AvailableIsNew(cs: seq<Capability>, done: seq<nat>, i: nat)
    ensures Available(cs, done, i) ==> i < |cs| && i !in done
  {
  }

  lemma FirstReadyIsLeast(cs: seq<Capability>, done: seq<nat>, ready: seq<nat>)
    requires ReadyIsAvailable(cs, done, ready) && ready != []
    ensures LeastAvailable(cs, done, ready[0])
  {
    hide Satisfied, Available;
    assert ready[0] in ready;
    forall j | Available(cs, done, j) ensures ready[0] <= j {
      assert j in ready;
    }
  }

  lemma ReleasedAt(cs: seq<Capability>, done: seq<nat>, node: nat, x: nat, entries: nat)
    requires Greedy(cs, done) && Greedy(cs, done + [node]) && x < |cs| && Available(cs, done, node)
    requires Unmet(cs[x].dependsOn, Met(cs, done)) == Unmet(cs[x].dependsOn, Met(cs, done + [node])) + entries
    ensures x == node ==> entries == 0
    ensures Available(cs, done + [node], x) <==>
              x != node && (Available(cs, done, x) || (entries > 0 && Unmet(cs[x].dependsOn, Met(cs, done + [node])) == 0))
  {
    hide Greedy, Satisfied, Available, LeastAvailable, Unmet, Met;
    AvailableIsNew(cs, done, node);
    MountedOrCounted(cs, done, node);
    MountedOrCounted(cs, done, x);
    MountedOrCounted(cs, done + [node], x);
  }

  /** Before the round the counters cover the list they are counted down by. */
  lemma CountsCover(cs: seq<Capability>, done: seq<nat>, unmet: seq<nat>, node: nat, list: seq<nat>)
    requires Unique(cs) && Greedy(cs, done) && Counted(cs, done, unmet) && Available(cs, done, node)
    requires forall k :: 0 <= k < |cs| ==> multiset(list)[k] == multiset(cs[k].dependsOn)[cs[node].id]
    ensures forall k :: 0 <= k < |cs| ==> unmet[k] >= multiset(list)[k]
  {
    GreedyOrders(cs, done);
    Mounting(cs, done, node);
  }

  /** When nothing is ready, the nodes with a positive count are exactly those not mounted. */
  lemma StalledCounts(cs: seq<Capability>, done: seq<nat>, unmet: seq<nat>)
    requires Unique(cs) && Greedy(cs, done) && Counted(cs, done, unmet) && forall i :: !Available(cs, done, i)
    ensures forall k :: 0 <= k < |cs| ==> (unmet[k] > 0 <==> cs[k].id !in Met(cs, done))
  {
    GreedyOrders(cs, done);
    forall k | 0 <= k < |cs| ensures unmet[k] > 0 <==> cs[k].id !in Met(cs, done) {
      MountedOrCounted(cs, done, k);
      NotMet(cs, done, k);
    }
  }

  lemma ListCounts(cs: seq<Capability>, dependents: map<string, seq<nat>>, id: string)
    requires Tallied(cs, |cs|, 0, dependents)
    ensures forall k :: 0 <= k < |cs| ==> multiset(ListOf(dependents, id))[k] == multiset(cs[k].dependsOn)[id]
    ensures forall x :: x in ListOf(dependents, id) ==> x < |cs|
  {
    assert forall k: nat :: k < |cs| ==> Recorded(cs, |cs|, 0, k) == cs[k].dependsOn;
  }

  /** The nodes that wait for nothing. */
  method ReadyNodes(unmet: array<nat>) returns (ready: seq<nat>)
    ensures Sorted(ready) && forall x: nat :: x in ready <==> x < unmet.Length && unmet[x] == 0
  {
    ready := [];
    var i: nat := 0;
    while i < unmet.Length
      invariant i <= unmet.Length && Sorted(ready)
      invariant forall x: nat :: x in ready <==> x < i && unmet[x] == 0
    {
      if unmet[i] == 0 {
        assert forall k :: 0 <= k < |ready| ==> ready[k] in ready;
        ready := ready + [i];
      }
      i := i + 1;
    }
  }

  lemma ReadyCountsZero(cs: seq<Capability>, done: seq<nat>, unmet: seq<nat>, ready: seq<nat>)
    requires Greedy(cs, done) && Counted(cs, done, unmet) && ReadyIsAvailable(cs, done, ready)
    ensures forall x :: x in ready ==> x < |unmet| && unmet[x] == 0
  {
    hide Greedy, Satisfied, Available, Unmet, Met;
    forall x | x in ready ensures x < |unmet| && unmet[x] == 0 {
      AvailableIsNew(cs, done, x);
      MountedOrCounted(cs, done, x);
    }
  }

  /** Mounts ready nodes until none is left. */
  method MountReady(cs: seq<Capability>, unmet: array<nat>, dependents: map<string, seq<nat>>)
    returns (ordered: seq<Capability>, ghost done: seq<nat>)
    requires Unique(cs) && Tallied(cs, |cs|, 0, dependents)
    requires unmet.Length == |cs| && forall k :: 0 <= k < |cs| ==> unmet[k] == |cs[k].dependsOn|
    modifies unmet
    ensures Greedy(cs, done) && Counted(cs, done, unmet[..]) && Selects(cs, done, ordered)
    ensures forall x :: !Available(cs, done, x)
  {
    hide Greedy, Satisfied, Available, Unmet, Met, Unique, Tallied, Counted, LeastAvailable;
    var ready := ReadyNodes(unmet);
    NothingMounted(cs, unmet[..], ready);
    ordered, done := [], [];
    assert Greedy(cs, done) by { NothingIsGreedy(cs); }
    while ready != []
      invariant Greedy(cs, done) && Counted(cs, done, unmet[..]) && ReadyIsAvailable(cs, done, ready)
      invariant Selects(cs, done, ordered)
      decreases |cs| - |done|
    {
      var node := ready[0];
      ghost var before := unmet[..];
      assert node in ready;
      AvailableIsNew(cs, done, node);
      ordered := ordered + [cs[node]];
      var list := ListOf(dependents, cs[node].id);
      ListCounts(cs, dependents, cs[node].id);
      CountsCover(cs, done, before, node, list);
      ReadyCountsZero(cs, done, before, ready);
      assert forall x :: x in ready[1..] ==> x in ready;
      var released := Release(list, unmet, ready[1..]);
      Mounted(cs, done, before, ready, list, unmet[..], released);
      done := done + [node];
      ready := released;
      GreedyOrders(cs, done);
      DistinctFits(done, |cs|);
    }
  }

  lemma NothingIsGreedy(cs: seq<Capability>)
    ensures Greedy(cs, [])
  {
  }

  /** The error names the first fault found: a repeated id, an unknown dependency, or all ids on cycles. */
  ghost predicate Diagnoses(cs: seq<Capability>, error: ConfigError) {
    match error
    case DuplicateId(id) => FirstDuplicate(cs, id)
    case UnknownDependency(id, dependency) => Unique(cs) && FirstUnknown(cs, id, dependency)
    case Cyclic(ids) => Unique(cs) && Known(cs) && ids == CycleIds(cs, cs) && ids != []
  }

  /**
   The sort succeeds exactly on a registry with unique and known ids and no cycle, and returns the
   lexicographically least order. A cycle is reported with exactly the ids that lie on one, in
   registration order, and there is always one to name.
   */
  method OrderCapabilities(cs: seq<Capability>) returns (result: Result<seq<Capability>, ConfigError>)
    ensures result.Ok? <==> Unique(cs) && Known(cs) && Acyclic(cs)
    ensures result.Ok? ==> exists p :: LeastOrder(cs, p) && Selects(cs, p, result.value)
    ensures result.Err? ==> Diagnoses(cs, result.error)
  {
    hide Greedy, Available, Acyclic, Known, Unique, Met, Left, Order, DependenciesFirst, Distinct, FirstDuplicate, FirstUnknown, CycleIds;
    var duplicate := AssertUniqueIds(cs);
    if duplicate.Some? { return Err(DuplicateId(duplicate.value)); }
    var unmet, dependents, failure := CountDependencies(cs);
    if failure.Some? { return Err(failure.value); }
    ghost var done;
    var ordered;
    ordered, done := MountReady(cs, unmet, dependents);
    GreedyOrders(cs, done);
    DistinctFits(done, |cs|);
    if |ordered| != |cs| {
      StalledCounts(cs, done, unmet[..]);
      var blocked := BlockedNodes(cs, unmet, done);
      LeftIs(cs, Met(cs, done));
      var cyclic := CycleParticipants(blocked);
      CycleIdsOfLeft(cs, cs, done);
      StalledOnCycle(cs, done);
      return Err(Cyclic(cyclic));
    }
    GreedyIsLeast(cs, done);
    OrdersAreAcyclic(cs, done);
    return Ok(ordered);
  }
}
