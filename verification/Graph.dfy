/** Directed graphs on 0..n-1 as adjacency lists: reachability and strongly
    connected components. */
module Graph {

  type Adj = seq<seq<nat>>

  ghost predicate WellFormed(adj: Adj) {
    forall u, k :: 0 <= u < |adj| && 0 <= k < |adj[u]| ==> adj[u][k] < |adj|
  }

  predicate Edge(adj: Adj, u: nat, v: nat) {
    u < |adj| && v in adj[u]
  }

  ghost predicate IsPath(adj: Adj, p: seq<nat>, x: nat, y: nat) {
    && |p| > 0 && p[0] == x && p[|p| - 1] == y
    && (forall i :: 0 <= i < |p| ==> p[i] < |adj|)
    && (forall i {:trigger Hop(adj, p, i)} :: 0 <= i < |p| - 1 ==> Hop(adj, p, i))
  }

  ghost predicate Hop(adj: Adj, p: seq<nat>, i: int)
    requires 0 <= i < |p| - 1
  {
    Edge(adj, p[i], p[i + 1])
  }

  ghost predicate Reach(adj: Adj, x: nat, y: nat) {
    exists p :: IsPath(adj, p, x, y)
  }

  lemma ReachSelf(adj: Adj, x: nat)
    requires x < |adj|
    ensures Reach(adj, x, x)
  {
    assert IsPath(adj, [x], x, x);
  }

  lemma ReachEdge(adj: Adj, x: nat, y: nat)
    requires WellFormed(adj) && Edge(adj, x, y)
    ensures y < |adj| && Reach(adj, x, y)
  {
    var k :| 0 <= k < |adj[x]| && adj[x][k] == y;
    assert IsPath(adj, [x, y], x, y);
  }

  lemma ReachTrans(adj: Adj, x: nat, y: nat, z: nat)
    requires Reach(adj, x, y) && Reach(adj, y, z)
    ensures Reach(adj, x, z)
  {
    var p :| IsPath(adj, p, x, y);
    var q :| IsPath(adj, q, y, z);
    var r := p + q[1..];
    forall i | 0 <= i < |r| - 1 ensures Hop(adj, r, i) {
      if i < |p| - 1 {
        assert Hop(adj, p, i);
      } else {
        assert Hop(adj, q, i - (|p| - 1));
      }
    }
    assert IsPath(adj, r, x, z);
  }

  ghost predicate Closed(adj: Adj, s: set<nat>) {
    forall u, v :: u in s && Edge(adj, u, v) ==> v in s
  }

  /** Nothing reachable from a closed set is outside it. */
  lemma {:induction false} ClosedPath(adj: Adj, s: set<nat>, p: seq<nat>, x: nat, y: nat)
    requires Closed(adj, s) && x in s && IsPath(adj, p, x, y)
    ensures y in s
    decreases |p|
  {
    if |p| > 1 {
      assert Hop(adj, p, 0);
      assert IsPath(adj, p[1..], p[1], y) by {
        forall i | 0 <= i < |p[1..]| - 1 ensures Hop(adj, p[1..], i) {
          assert Hop(adj, p, i + 1);
        }
      }
      ClosedPath(adj, s, p[1..], p[1], y);
    }
  }

  lemma ClosedReach(adj: Adj, s: set<nat>, x: nat, y: nat)
    requires Closed(adj, s) && x in s && Reach(adj, x, y)
    ensures y in s
  {
    var p :| IsPath(adj, p, x, y);
    ClosedPath(adj, s, p, x, y);
  }
}
