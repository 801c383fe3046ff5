/** The publish search as the program runs it, over a state map and a list that grow in place. */
module PublishSearch {
  import opened DependencyGraph
  import opened FiniteSets
  import opened Outcomes
  import opened PublishOrder
  import opened PublishTheorems
  import opened Sorting

  class PublishSearch {
    const byName: map<string, Package>
    var state: map<string, Mark>
    var ordered: seq<Package>

    ghost function Model(): Search
      reads this
    {
      Search(state, ordered)
    }

    constructor (workspaces: seq<Package>)
      ensures byName == ByName(workspaces) && Model() == Search(map[], [])
    {
      byName := ByName(workspaces);
      state := map[];
      ordered := [];
    }

    /** Visits `workspace` after its dependencies, or returns the path that closes a cycle. */
    method Visit(workspace: Package, trail: seq<string>) returns (cycle: Option<seq<string>>)
      requires Keyed(byName) && workspace.id in byName
      modifies this
      ensures old(Model()).state.Keys <= Model().state.Keys
      ensures PublishOrder.Visit(byName, workspace, trail, old(Model()))
           == if cycle.Some? then Cycle(cycle.value) else Going(Model())
      decreases Unseen(byName, Model())
    {
      if workspace.id in state {
        return if state[workspace.id].Done? then None else Some(trail + [workspace.id]);
      }
      assert workspace.id in byName.Keys - state.Keys;
      state := state[workspace.id := Visiting];
      ProperSubsetSize(byName.Keys - state.Keys, byName.Keys - old(state).Keys);
      ghost var entered := Model();
      var targets := Dependencies(byName, workspace);
      var i := 0;
      while i < |targets|
        invariant i <= |targets| && entered.state.Keys <= state.Keys
        invariant forall p :: p in targets[i..] ==> p.id in byName
        invariant VisitAll(byName, targets, trail + [workspace.id], entered)
               == VisitAll(byName, targets[i..], trail + [workspace.id], Model())
      {
        assert targets[i..][1..] == targets[i + 1..] && targets[i] in targets[i..];
        SubsetSize(byName.Keys - state.Keys, byName.Keys - entered.state.Keys);
        cycle := Visit(targets[i], trail + [workspace.id]);
        if cycle.Some? { return; }
        i := i + 1;
      }
      state := state[workspace.id := Done];
      ordered := ordered + [workspace];
      return None;
    }
  }

  /** `orderForPublish`: visits every package in name order. */
  method Publish(workspaces: seq<Package>, collate: Comparison<string>) returns (result: Outcome)
    ensures match (OrderForPublish(workspaces, collate), result)
            case (Going(expected), Going(found)) => found.ordered == expected.ordered
            case (Cycle(expected), Cycle(path)) => path == expected
            case _ => false
  {
    var sorted := Sort(workspaces, ByNames(collate));
    ByNameFinds(workspaces);
    SortHolds(workspaces, ByNames(collate));
    var search := new PublishSearch(workspaces);
    var i := 0;
    while i < |sorted|
      invariant i <= |sorted| && search.byName == ByName(workspaces)
      invariant OrderForPublish(workspaces, collate) == VisitAll(search.byName, sorted[i..], [], search.Model())
    {
      assert sorted[i..][1..] == sorted[i + 1..];
      var cycle := search.Visit(sorted[i], []);
      if cycle.Some? { return Cycle(cycle.value); }
      i := i + 1;
    }
    return Going(Search(search.state, search.ordered));
  }

  // ---------------------------------------------------------------- the checker

  /** The names of packages that are not to be published, in order, as often as they occur. */
  function Extra(ordered: seq<Package>, expected: set<string>): seq<string> {
    if ordered == [] then []
    else
      var last := ordered[|ordered| - 1].id;
      Extra(ordered[..|ordered| - 1], expected) + if last in expected then [] else [last]
  }

  /** The names that are not published, each once, in the order in which the packages name them. */
  function Missing(workspaces: seq<Package>, seen: set<string>): seq<string> {
    if workspaces == [] then []
    else
      var front, last := workspaces[..|workspaces| - 1], workspaces[|workspaces| - 1].id;
      Missing(front, seen) + if last in seen || last in Ids(front) then [] else [last]
  }

  lemma {:induction false} ExtraIs(ordered: seq<Package>, expected: set<string>)
    ensures forall name :: name in Extra(ordered, expected) <==> name in Ids(ordered) && name !in expected
  {
    if ordered != [] {
      ExtraIs(ordered[..|ordered| - 1], expected);
      IdsGrow(ordered);
    }
  }

  lemma {:induction false} MissingIs(workspaces: seq<Package>, seen: set<string>)
    ensures forall name :: name in Missing(workspaces, seen) <==> name in Ids(workspaces) && name !in seen
    ensures forall i, j :: 0 <= i < j < |Missing(workspaces, seen)| ==> Missing(workspaces, seen)[i] != Missing(workspaces, seen)[j]
  {
    if workspaces != [] {
      MissingIs(workspaces[..|workspaces| - 1], seen);
      IdsGrow(workspaces);
    }
  }

  lemma IdsGrow(packages: seq<Package>)
    requires packages != []
    ensures Ids(packages) == Ids(packages[..|packages| - 1]) + {packages[|packages| - 1].id}
  {
    var front := packages[..|packages| - 1];
    assert packages == front + [packages[|packages| - 1]];
    forall id | id in Ids(packages) ensures id in Ids(front) + {packages[|packages| - 1].id} {
      var i :| 0 <= i < |packages| && packages[i].id == id;
      assert i < |front| ==> front[i].id == id;
    }
    forall id | id in Ids(front) ensures id in Ids(packages) {
      var i :| 0 <= i < |front| && front[i].id == id;
      assert packages[i].id == id;
    }
  }

  /** The names agree exactly when none is missing and none too many. */
  lemma SameNames(workspaces: seq<Package>, ordered: seq<Package>)
    ensures Ids(ordered) == Ids(workspaces) <==>
              Missing(workspaces, Ids(ordered)) == [] && Extra(ordered, Ids(workspaces)) == []
  {
    var missing, extra := Missing(workspaces, Ids(ordered)), Extra(ordered, Ids(workspaces));
    MissingIs(workspaces, Ids(ordered));
    ExtraIs(ordered, Ids(workspaces));
    hide Ids, Missing, Extra;
    if missing == [] && extra == [] {
      forall id | id in Ids(workspaces) ensures id in Ids(ordered) { assert id !in missing; }
      forall id | id in Ids(ordered) ensures id in Ids(workspaces) { assert id !in extra; }
    }
    if missing != [] { assert missing[0] in missing; }
    if extra != [] { assert extra[0] in extra; }
  }

  datatype PublishError = SetDrift(missing: seq<string>, extra: seq<string>) | Misordered(name: string, dependency: string)

  /** The packages and the publishable ones are not the same, or one occurs twice. */
  predicate Drifts(workspaces: seq<Package>, ordered: seq<Package>) {
    Ids(ordered) != Ids(workspaces) || |ordered| != |Ids(workspaces)|
  }

  /** The package at `i` is the first that is published before one of its dependencies, `dependency`. */
  ghost predicate FirstMisordered(ordered: seq<Package>, i: nat, dependency: string) {
    && i < |ordered|
    && (forall a :: 0 <= a < i ==> NoneLater(ordered, a))
    && exists j :: i < j < |ordered| && ordered[j].id == dependency && dependency in ordered[i].dependsOn
  }

  /**
   `assertPublishOrder`: accepts exactly the valid orders. A drift of the set is reported first, with the
   names that are missing and those that are too many; otherwise the first package out of order is.
   */
  method AssertPublishOrder(workspaces: seq<Package>, ordered: seq<Package>) returns (failure: Option<PublishError>)
    ensures failure.None? <==> ValidOrder(workspaces, ordered)
    ensures Drifts(workspaces, ordered) ==>
              failure == Some(SetDrift(Missing(workspaces, Ids(ordered)), Extra(ordered, Ids(workspaces))))
    ensures !Drifts(workspaces, ordered) && failure.Some? ==>
              && failure.value.Misordered?
              && exists i: nat :: FirstMisordered(ordered, i, failure.value.dependency) && ordered[i].id == failure.value.name
  {
    hide Missing, Extra;
    var expected, seen := Ids(workspaces), Ids(ordered);
    var missing := MissingNames(workspaces, seen);
    var extra := ExtraNames(ordered, expected);
    LengthCountsNames(ordered);
    SameNames(workspaces, ordered);
    if missing != [] || extra != [] || |ordered| != |expected| {
      return Some(SetDrift(missing, extra));
    }
    var position := Positions(ordered);
    var i := 0;
    while i < |ordered|
      invariant i <= |ordered|
      invariant forall a :: 0 <= a < i ==> NoneLater(ordered, a)
    {
      var late := LaterDependency(ordered, position, i);
      if late.Some? {
        assert FirstMisordered(ordered, i, late.value);
        return Some(Misordered(ordered[i].id, late.value));
      }
      i := i + 1;
    }
    return None;
  }

  /** The names that are expected and not seen. */
  method MissingNames(workspaces: seq<Package>, seen: set<string>) returns (missing: seq<string>)
    ensures missing == Missing(workspaces, seen)
  {
    missing := [];
    var k := 0;
    while k < |workspaces|
      invariant k <= |workspaces| && missing == Missing(workspaces[..k], seen)
    {
      assert workspaces[..k + 1][..k] == workspaces[..k];
      if workspaces[k].id !in seen && workspaces[k].id !in Ids(workspaces[..k]) { missing := missing + [workspaces[k].id]; }
      k := k + 1;
    }
    assert workspaces[..k] == workspaces;
  }

  /** The names that are ordered and not expected. */
  method ExtraNames(ordered: seq<Package>, expected: set<string>) returns (extra: seq<string>)
    ensures extra == Extra(ordered, expected)
  {
    extra := [];
    var k := 0;
    while k < |ordered|
      invariant k <= |ordered| && extra == Extra(ordered[..k], expected)
    {
      assert ordered[..k + 1][..k] == ordered[..k];
      if ordered[k].id !in expected { extra := extra + [ordered[k].id]; }
      k := k + 1;
    }
    assert ordered[..k] == ordered;
  }

  /** A dependency of the `i`-th package that is published after it, if there is one. */
  method LaterDependency(ordered: seq<Package>, position: map<string, nat>, i: nat) returns (late: Option<string>)
    requires i < |ordered| && Unique(ordered)
    requires forall k :: 0 <= k < |ordered| ==> ordered[k].id in position && position[ordered[k].id] == k
    requires forall name :: name in position ==> position[name] < |ordered| && ordered[position[name]].id == name
    ensures late.None? <==> NoneLater(ordered, i)
    ensures late.Some? ==>
              exists j :: i < j < |ordered| && ordered[j].id == late.value && ordered[j].id in ordered[i].dependsOn
  {
    var own := position[ordered[i].id];
    var deps := ordered[i].dependsOn;
    var j := 0;
    while j < |deps|
      invariant j <= |deps|
      invariant forall b :: 0 <= b < |ordered| && ordered[b].id in deps[..j] ==> b <= i
    {
      if deps[j] in position && position[deps[j]] > own {
        assert ordered[position[deps[j]]].id in deps;
        return Some(deps[j]);
      }
      assert deps[..j + 1] == deps[..j] + [deps[j]];
      j := j + 1;
    }
    assert deps[..j] == deps;
    return None;
  }

  /** Where each name stands. */
  method Positions(ordered: seq<Package>) returns (position: map<string, nat>)
    requires Unique(ordered)
    ensures forall i :: 0 <= i < |ordered| ==> ordered[i].id in position && position[ordered[i].id] == i
    ensures forall name :: name in position ==> position[name] < |ordered| && ordered[position[name]].id == name
  {
    position := map[];
    var i := 0;
    while i < |ordered|
      invariant i <= |ordered|
      invariant forall k :: 0 <= k < i ==> ordered[k].id in position && position[ordered[k].id] == k
      invariant forall name :: name in position ==> position[name] < i && ordered[position[name]].id == name
    {
      position := position[ordered[i].id := i];
      i := i + 1;
    }
  }
}
