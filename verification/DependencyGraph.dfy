/** Named nodes with the names they depend on: edges, walks and cycles among the names present. */
module DependencyGraph {
  datatype Node = Node(id: string, dependsOn: seq<string>)

  function Ids(cs: seq<Node>): set<string> {
    set i | 0 <= i < |cs| :: cs[i].id
  }

  ghost predicate Unique(cs: seq<Node>) {
    forall i, j :: 0 <= i < j < |cs| ==> cs[i].id != cs[j].id
  }

  /** `a` depends on `b`, both present. */
  ghost predicate Edge(cs: seq<Node>, a: string, b: string) {
    b in Ids(cs) && exists i :: 0 <= i < |cs| && cs[i].id == a && b in cs[i].dependsOn
  }

  ghost predicate Walk(cs: seq<Node>, w: seq<string>) {
    forall k :: 0 <= k < |w| - 1 ==> Edge(cs, w[k], w[k + 1])
  }

  ghost predicate Reaches(cs: seq<Node>, a: string, b: string) {
    exists w: seq<string> :: |w| >= 2 && w[0] == a && w[|w| - 1] == b && Walk(cs, w)
  }

  ghost predicate OnCycle(cs: seq<Node>, id: string) {
    Reaches(cs, id, id)
  }

  ghost predicate Acyclic(cs: seq<Node>) {
    forall id :: id in Ids(cs) ==> !OnCycle(cs, id)
  }

  lemma EdgeReaches(cs: seq<Node>, a: string, b: string)
    requires Edge(cs, a, b)
    ensures Reaches(cs, a, b)
  {
    assert Walk(cs, [a, b]);
  }

  lemma ReachesOn(cs: seq<Node>, a: string, b: string, c: string)
    requires Reaches(cs, a, b) && Edge(cs, b, c)
    ensures Reaches(cs, a, c)
  {
    var w: seq<string> :| |w| >= 2 && w[0] == a && w[|w| - 1] == b && Walk(cs, w);
    assert Walk(cs, w + [c]);
  }

  /** What `a` reaches stays inside any set that holds its dependencies and is closed under them. */
  lemma {:induction false} ClosedUnderWalks(cs: seq<Node>, w: seq<string>, closed: set<string>)
    requires |w| >= 2 && Walk(cs, w)
    requires forall b :: Edge(cs, w[0], b) ==> b in closed
    requires forall x, b :: x in closed && Edge(cs, x, b) ==> b in closed
    ensures w[|w| - 1] in closed
  {
    var front := w[..|w| - 1];
    assert Edge(cs, w[|w| - 2], w[|w| - 1]);
    if |w| > 2 {
      ClosedUnderWalks(cs, front, closed);
    }
  }
}
