/** Which capabilities a stalled sort leaves, and why some cycle is always among them. */
module CapabilityCycles {
  import opened CapabilityOrder
  import opened DependencyGraph

  // ---------------------------------------------------------------- what stays blocked

  /** The capabilities whose id is not among `met`, in registration order. */
  ghost function Left(cs: seq<Capability>, met: set<string>): seq<Capability> {
    if cs == [] then []
    else Left(cs[..|cs| - 1], met) + if cs[|cs| - 1].id in met then [] else [cs[|cs| - 1]]
  }

  lemma {:induction false} LeftIs(cs: seq<Capability>, met: set<string>)
    ensures forall c :: c in Left(cs, met) <==> c in cs && c.id !in met
    ensures Unique(cs) ==> Unique(Left(cs, met))
  {
    if cs != [] {
      var front := cs[..|cs| - 1];
      LeftIs(front, met);
      assert cs == front + [cs[|cs| - 1]];
      if Unique(cs) {
        var left := Left(front, met);
        forall i | 0 <= i < |left| ensures left[i].id != cs[|cs| - 1].id {
          assert left[i] in front;
        }
      }
    }
  }

  lemma LeftEdges(cs: seq<Capability>, met: set<string>, a: string, b: string)
    requires Unique(cs)
    ensures Edge(Left(cs, met), a, b) <==> Edge(cs, a, b) && a !in met && b !in met
  {
    var left := Left(cs, met);
    LeftIs(cs, met);
    if Edge(left, a, b) {
      var i, j :| 0 <= i < |left| && left[i].id == a && b in left[i].dependsOn && 0 <= j < |left| && left[j].id == b;
      assert left[i] in cs && left[j] in cs;
    }
    if Edge(cs, a, b) && a !in met && b !in met {
      var i, j :| 0 <= i < |cs| && cs[i].id == a && b in cs[i].dependsOn && 0 <= j < |cs| && cs[j].id == b;
      assert cs[i] in left && cs[j] in left;
    }
  }

  lemma LeftCycles(cs: seq<Capability>, met: set<string>, id: string)
    requires Unique(cs) && OnCycle(Left(cs, met), id)
    ensures OnCycle(cs, id)
  {
    hide Edge, Unique;
    var left := Left(cs, met);
    var w: seq<string> :| |w| >= 2 && w[0] == id && w[|w| - 1] == id && Walk(left, w);
    forall k | 0 <= k < |w| - 1 ensures Edge(cs, w[k], w[k + 1]) { LeftEdges(cs, met, w[k], w[k + 1]); }
    assert Walk(cs, w);
  }

  lemma WalkStaysBlocked(cs: seq<Capability>, done: seq<nat>, w: seq<string>, k: nat)
    requires Unique(cs) && Distinct(done, |cs|) && DependenciesFirst(cs, done)
    requires Walk(cs, w) && k < |w| && w[|w| - 1] !in Met(cs, done)
    ensures w[k] !in Met(cs, done)
  {
    hide Edge, Unique, DependenciesFirst;
    if w[k] in Met(cs, done) {
      var j :| 0 <= j < |done| && cs[done[j]].id == w[k];
      PositionsFall(cs, done, w[k..], j);
    }
  }

  lemma {:induction false} CyclesLeft(cs: seq<Capability>, done: seq<nat>, id: string)
    requires Unique(cs) && Distinct(done, |cs|) && DependenciesFirst(cs, done) && OnCycle(cs, id)
    ensures OnCycle(Left(cs, Met(cs, done)), id)
  {
    hide Edge, Unique, Distinct, DependenciesFirst, Met;
    var met := Met(cs, done);
    var w: seq<string> :| |w| >= 2 && w[0] == id && w[|w| - 1] == id && Walk(cs, w);
    CyclesStayBlocked(cs, done, id);
    forall k | 0 <= k < |w| - 1 ensures Edge(Left(cs, met), w[k], w[k + 1]) {
      WalkStaysBlocked(cs, done, w, k);
      WalkStaysBlocked(cs, done, w, k + 1);
      LeftEdges(cs, met, w[k], w[k + 1]);
    }
    assert Walk(Left(cs, met), w);
  }

  /** Cycles of the full graph are exactly the cycles of what stays blocked. */
  lemma {:induction false} CyclesAreLeft(cs: seq<Capability>, done: seq<nat>, id: string)
    requires Unique(cs) && Distinct(done, |cs|) && DependenciesFirst(cs, done)
    ensures OnCycle(Left(cs, Met(cs, done)), id) <==> OnCycle(cs, id)
  {
    hide OnCycle, Unique, Distinct, DependenciesFirst, Met, Left;
    if OnCycle(cs, id) {
      CyclesLeft(cs, done, id);
    }
    if OnCycle(Left(cs, Met(cs, done)), id) {
      LeftCycles(cs, Met(cs, done), id);
    }
  }

  lemma {:induction false} CycleIdsOfLeft(cs: seq<Capability>, all: seq<Capability>, done: seq<nat>)
    requires Unique(all) && Distinct(done, |all|) && DependenciesFirst(all, done)
    ensures CycleIds(Left(all, Met(all, done)), Left(cs, Met(all, done))) == CycleIds(all, cs)
  {
    hide OnCycle, Unique, Distinct, DependenciesFirst, Met;
    var met := Met(all, done);
    if cs != [] {
      var front := cs[..|cs| - 1];
      var id := cs[|cs| - 1].id;
      CycleIdsOfLeft(front, all, done);
      CyclesAreLeft(all, done, id);
      if OnCycle(all, id) { CyclesStayBlocked(all, done, id); }
      if id !in met {
        var left := Left(cs, met);
        assert left[..|left| - 1] == Left(front, met) && left[|left| - 1].id == id;
        assert CycleIds(Left(all, met), left)
            == CycleIds(Left(all, met), Left(front, met)) + if OnCycle(Left(all, met), id) then [id] else [];
      } else {
        assert Left(cs, met) == Left(front, met);
      }
    }
  }

  // ---------------------------------------------------------------- some cycle is left

  ghost predicate EveryoneWaits(cs: seq<Capability>) {
    forall a :: a in Ids(cs) ==> exists b :: Edge(cs, a, b)
  }

  lemma {:induction false} LongWalk(cs: seq<Capability>, n: nat) returns (w: seq<string>)
    requires cs != [] && EveryoneWaits(cs)
    ensures |w| == n + 1 && Walk(cs, w) && forall k :: 0 <= k < |w| ==> w[k] in Ids(cs)
  {
    if n == 0 {
      w := [cs[0].id];
    } else {
      var front := LongWalk(cs, n - 1);
      var next := Waits(cs, front[n - 1]);
      hide Edge, Ids;
      w := front + [next];
    }
  }

  lemma EdgeTarget(cs: seq<Capability>, a: string, b: string)
    requires Edge(cs, a, b)
    ensures b in Ids(cs)
  {
  }

  lemma Waits(cs: seq<Capability>, a: string) returns (b: string)
    requires EveryoneWaits(cs) && a in Ids(cs)
    ensures Edge(cs, a, b) && b in Ids(cs)
  {
    hide Edge;
    b :| Edge(cs, a, b);
    EdgeTarget(cs, a, b);
  }

  lemma {:induction false} Pigeonhole(w: seq<string>, s: set<string>)
    requires |w| > |s| && forall k :: 0 <= k < |w| ==> w[k] in s
    ensures exists i, j :: 0 <= i < j < |w| && w[i] == w[j]
  {
    var last := w[|w| - 1];
    var front := w[..|w| - 1];
    if i :| 0 <= i < |front| && front[i] == last {
      assert w[i] == w[|w| - 1];
    } else {
      assert |s - {last}| == |s| - 1;
      Pigeonhole(front, s - {last});
      var i, j :| 0 <= i < j < |front| && front[i] == front[j];
      assert w[i] == w[j];
    }
  }

  /** A nonempty registry in which everything waits for something in it holds a cycle. */
  lemma SomeCycle(cs: seq<Capability>)
    requires cs != [] && EveryoneWaits(cs)
    ensures exists id :: id in Ids(cs) && OnCycle(cs, id)
  {
    hide Edge, EveryoneWaits, Ids;
    var w := LongWalk(cs, |Ids(cs)|);
    Pigeonhole(w, Ids(cs));
    var i, j :| 0 <= i < j < |w| && w[i] == w[j];
    var cycle := w[i..j + 1];
    assert Walk(cs, cycle);
    assert OnCycle(cs, w[i]);
  }

  /** A stalled sort of a registry whose dependencies are all known has left some cycle. */
  lemma {:induction false} StalledOnCycle(cs: seq<Capability>, done: seq<nat>)
    requires Unique(cs) && Known(cs) && Greedy(cs, done) && |done| < |cs|
    requires forall i :: !Available(cs, done, i)
    ensures CycleIds(cs, cs) != [] && !Acyclic(cs)
  {
    hide Walk, Reaches, Edge, Known, Available, EveryoneWaits, Greedy, DependenciesFirst, Left, Met, Acyclic, Unique;
    GreedyOrders(cs, done);
    SomeoneLeft(cs, done);
    AllWait(cs, done);
    var left := Left(cs, Met(cs, done));
    SomeCycle(left);
    var id :| id in Ids(left) && OnCycle(left, id);
    LeftIds(cs, Met(cs, done), id);
    CyclesAreLeft(cs, done, id);
    CycleIdsAreExact(cs, cs);
    assert id in CycleIds(cs, cs);
    CyclicIsNotAcyclic(cs, id);
  }

  lemma CyclicIsNotAcyclic(cs: seq<Capability>, id: string)
    requires id in Ids(cs) && OnCycle(cs, id)
    ensures !Acyclic(cs)
  {
  }

  lemma LeftIds(cs: seq<Capability>, met: set<string>, id: string)
    requires id in Ids(Left(cs, met))
    ensures id in Ids(cs)
  {
    LeftIs(cs, met);
    var left := Left(cs, met);
    var c :| 0 <= c < |left| && left[c].id == id;
    assert left[c] in cs;
  }

  lemma {:induction false} SomeoneLeft(cs: seq<Capability>, done: seq<nat>)
    requires Unique(cs) && Distinct(done, |cs|) && |done| < |cs|
    ensures Left(cs, Met(cs, done)) != []
  {
    var i := SomeMissing(done, |cs|);
    NotMet(cs, done, i);
    LeftIs(cs, Met(cs, done));
    assert cs[i] in Left(cs, Met(cs, done));
  }

  lemma NotMet(cs: seq<Capability>, done: seq<nat>, i: nat)
    requires Unique(cs) && Distinct(done, |cs|) && i < |cs|
    ensures cs[i].id in Met(cs, done) <==> i in done
  {
  }

  lemma {:induction false} AllWait(cs: seq<Capability>, done: seq<nat>)
    requires Unique(cs) && Known(cs) && Distinct(done, |cs|)
    requires forall i :: !Available(cs, done, i)
    ensures EveryoneWaits(Left(cs, Met(cs, done)))
  {
    hide Edge, Available, Left, Met, Ids, Unique, Known, Distinct;
    var left := Left(cs, Met(cs, done));
    forall a | a in Ids(left) ensures exists b :: Edge(left, a, b) {
      LeftWaits(cs, done, a);
    }
  }

  lemma {:induction false} LeftWaits(cs: seq<Capability>, done: seq<nat>, a: string)
    requires Unique(cs) && Known(cs) && Distinct(done, |cs|)
    requires forall i :: !Available(cs, done, i)
    requires a in Ids(Left(cs, Met(cs, done)))
    ensures exists b :: Edge(Left(cs, Met(cs, done)), a, b)
  {
    var met := Met(cs, done);
    var left := Left(cs, met);
    LeftIs(cs, met);
    var c :| 0 <= c < |left| && left[c].id == a;
    assert left[c] in cs;
    var i :| 0 <= i < |cs| && cs[i] == left[c];
    NotMet(cs, done, i);
    assert !Available(cs, done, i);
    var d :| d in cs[i].dependsOn && d !in met;
    assert Edge(cs, a, d);
    LeftEdges(cs, met, a, d);
  }
}
