/** Tarjan's depth-first search as a value: what one visited node, one edge and
    one finished node do to the search state, and why the state stays true.

    A node is unvisited, on the stack, or done. Stack nodes are numbered in
    stack order and reach every later one; each leads back to an open call no
    later than itself; a low number is attained on the stack and bounds what
    the subtree's edges lead to. So a node whose low number is its own heads
    exactly one component, which nothing below it on the stack belongs to. */
module Tarjan {
  import opened Graph

  /** Reachability held as a set of pairs, so that the search argues from its
      closure laws alone. */
  type Rel = set<(nat, nat)>

  ghost predicate Join(x: nat, y: nat, z: nat) {
    true
  }

  ghost predicate Closure(adj: Adj, r: Rel) {
    && (forall x: nat {:trigger (x, x) in r} :: x < |adj| ==> (x, x) in r)
    && (forall x: nat, y: nat {:trigger Edge(adj, x, y)} :: Edge(adj, x, y) ==> y < |adj| && (x, y) in r)
    && (forall x: nat, y: nat, z: nat {:trigger Join(x, y, z)} ::
          Join(x, y, z) && (x, y) in r && (y, z) in r ==> (x, z) in r)
  }

  ghost predicate Seal(d: set<nat>, x: nat, y: nat) {
    true
  }

  /** The relation holds nothing beyond reachability: it never leaves a closed set. */
  ghost predicate Tight(adj: Adj, r: Rel) {
    forall d: set<nat>, x: nat, y: nat {:trigger Seal(d, x, y)} ::
      Seal(d, x, y) && Closed(adj, d) && x in d && (x, y) in r ==> y in d
  }

  ghost function ReachSet(adj: Adj): Rel {
    set x: nat, y: nat | x < |adj| && y < |adj| && Reach(adj, x, y) :: (x, y)
  }

  lemma ReachSetCloses(adj: Adj)
    requires WellFormed(adj)
    ensures Closure(adj, ReachSet(adj))
  {
    var r := ReachSet(adj);
    forall x: nat | x < |adj| ensures (x, x) in r {
      ReachSelf(adj, x);
    }
    forall x: nat, y: nat | Edge(adj, x, y) ensures y < |adj| && (x, y) in r {
      ReachEdge(adj, x, y);
    }
    forall x: nat, y: nat, z: nat | Join(x, y, z) && (x, y) in r && (y, z) in r ensures (x, z) in r {
      ReachTrans(adj, x, y, z);
    }
  }

  lemma ReachSetTight(adj: Adj)
    ensures Tight(adj, ReachSet(adj))
  {
    forall d: set<nat>, x: nat, y: nat | Seal(d, x, y) && Closed(adj, d) && x in d && (x, y) in ReachSet(adj)
      ensures y in d
    {
      ClosedReach(adj, d, x, y);
    }
  }

  /** A maximal set of mutually related nodes. */
  ghost predicate SccIn(r: Rel, n: nat, c: set<nat>) {
    && c != {}
    && (forall x :: x in c ==> x < n)
    && (forall x, y :: x in c && y in c ==> (x, y) in r)
    && (forall x, y :: x in c && (x, y) in r && (y, x) in r ==> y in c)
  }

  /** `sccs` is every component closed so far, single nodes included, in the
      order they were closed. */
  datatype Search = Search(
    num: seq<int>,
    low: seq<int>,
    onStack: seq<bool>,
    stack: seq<nat>,
    counter: nat,
    sccs: seq<set<nat>>)

  ghost predicate Sized(s: Search, n: nat) {
    |s.num| == n && |s.low| == n && |s.onStack| == n
  }

  ghost predicate On(s: Search, v: nat) {
    v < |s.onStack| && s.onStack[v]
  }

  ghost predicate Done(s: Search, v: nat)
    requires |s.num| == |s.onStack|
  {
    v < |s.num| && s.num[v] != -1 && !s.onStack[v]
  }

  // ---- The invariant, clause by clause ----

  /** Numbers are fresh, and stack nodes are the ones they order. */
  ghost predicate Numbered(s: Search, n: nat) {
    && Sized(s, n)
    && (forall v {:trigger s.num[v]} :: 0 <= v < n ==> -1 <= s.num[v] < s.counter)
    && (forall v: nat {:trigger On(s, v)} :: On(s, v) ==> s.num[v] != -1)
  }

  ghost predicate Stacked(s: Search) {
    && |s.num| == |s.onStack|
    && (forall i {:trigger s.stack[i]} :: 0 <= i < |s.stack| ==> On(s, s.stack[i]))
    && (forall v: nat {:trigger On(s, v)} :: On(s, v) ==> v in s.stack)
    && (forall i, j {:trigger s.stack[i], s.stack[j]} :: 0 <= i < j < |s.stack| ==>
          s.num[s.stack[i]] < s.num[s.stack[j]])
  }

  ghost predicate GrayTrue(s: Search, gray: set<nat>) {
    forall g :: g in gray ==> On(s, g)
  }

  /** Edges out of closed components stay among them, edges out of finished
      stack nodes never meet an unvisited node. */
  ghost predicate EdgesTrue(adj: Adj, s: Search, gray: set<nat>)
    requires Sized(s, |adj|)
  {
    && (forall u: nat, v: nat {:trigger Edge(adj, u, v)} :: Done(s, u) && Edge(adj, u, v) ==> Done(s, v))
    && (forall u: nat, v: nat {:trigger Edge(adj, u, v)} ::
          On(s, u) && u !in gray && Edge(adj, u, v) ==> v < |adj| && s.num[v] != -1)
  }

  /** The stack is one chain of reachability. */
  ghost predicate ChainTrue(r: Rel, s: Search)
    requires |s.num| == |s.onStack|
  {
    forall u: nat, v: nat {:trigger (u, v) in r} :: On(s, u) && On(s, v) && s.num[u] <= s.num[v] ==> (u, v) in r
  }

  ghost predicate Returns(r: Rel, s: Search, gray: set<nat>, v: nat, g: nat)
    requires v < |s.num|
  {
    g in gray && g < |s.num| && s.num[g] <= s.num[v] && (v, g) in r
  }

  ghost predicate HasReturn(r: Rel, s: Search, gray: set<nat>, v: nat)
    requires v < |s.num|
  {
    exists g :: Returns(r, s, gray, v, g)
  }

  /** Every stack node leads back to an open call no younger than it. */
  ghost predicate ReturnTrue(r: Rel, s: Search, gray: set<nat>) {
    |s.num| == |s.onStack| &&
    forall v: nat {:trigger HasReturn(r, s, gray, v)} :: On(s, v) ==> HasReturn(r, s, gray, v)
  }

  ghost predicate SccsTrue(r: Rel, s: Search)
    requires |s.num| == |s.onStack|
  {
    && (forall i :: 0 <= i < |s.sccs| ==> SccIn(r, |s.num|, s.sccs[i]))
    && (forall i, v :: 0 <= i < |s.sccs| && v in s.sccs[i] ==> Done(s, v))
    && (forall v: nat {:trigger Done(s, v)} :: Done(s, v) ==> exists i :: 0 <= i < |s.sccs| && v in s.sccs[i])
    && (forall i, j :: 0 <= i < j < |s.sccs| ==> s.sccs[i] !! s.sccs[j])
  }

  /** Components are closed in reverse topological order. */
  ghost predicate OrderTrue(adj: Adj, s: Search) {
    forall i, u: nat, v: nat {:trigger u in s.sccs[i], Edge(adj, u, v)} ::
      0 <= i < |s.sccs| && u in s.sccs[i] && Edge(adj, u, v) ==> exists j :: 0 <= j <= i && v in s.sccs[j]
  }

  ghost predicate Inv(adj: Adj, r: Rel, s: Search, gray: set<nat>) {
    && Numbered(s, |adj|)
    && Stacked(s)
    && GrayTrue(s, gray)
    && EdgesTrue(adj, s, gray)
    && ChainTrue(r, s)
    && ReturnTrue(r, s, gray)
    && SccsTrue(r, s)
    && OrderTrue(adj, s)
  }

  // ---- Steps ----

  function Visit(s: Search, at: nat): Search
    requires at < |s.num| == |s.low| == |s.onStack|
  {
    s.(num := s.num[at := s.counter], low := s.low[at := s.counter], onStack := s.onStack[at := true],
       stack := s.stack + [at], counter := s.counter + 1)
  }

  function Lower(s: Search, at: nat, to: int): Search
    requires at < |s.low|
  {
    if to < s.low[at] then s.(low := s.low[at := to]) else s
  }

  /** The stack nodes numbered `from` or later. */
  ghost function Top(s: Search, from: int): set<nat>
    requires |s.num| == |s.onStack|
  {
    set v: nat | v < |s.num| && On(s, v) && s.num[v] >= from
  }

  /** They leave the stack, which keeps its first `base` nodes, as one component. */
  ghost function Close(s: Search, base: nat, from: int): Search
    requires base <= |s.stack| && |s.num| == |s.low| == |s.onStack|
  {
    s.(onStack := seq(|s.onStack|, v requires 0 <= v < |s.onStack| => s.onStack[v] && s.num[v] < from),
       stack := s.stack[..base],
       sccs := s.sccs + [Top(s, from)])
  }

  // ---- Between two states of one call ----

  /** The search only adds: visited nodes keep their numbers, the old stack is
      still the bottom of the new one. */
  ghost predicate Later(s: Search, s': Search, n: nat) {
    && Sized(s, n) && Sized(s', n)
    && s.stack <= s'.stack
    && s.counter <= s'.counter
    && (forall v {:trigger s'.num[v]} {:trigger s.num[v]} :: 0 <= v < n ==>
          if s.num[v] != -1 then s'.num[v] == s.num[v] && s'.low[v] == s.low[v] && s'.onStack[v] == s.onStack[v]
          else s'.num[v] == -1 || s'.num[v] >= s.counter)
  }

  /** No edge from a stack node numbered `from` or later to another stack node
      undercuts `bound`. */
  ghost predicate Bounded(adj: Adj, s: Search, from: int, bound: int)
    requires Sized(s, |adj|)
  {
    forall u: nat, v: nat {:trigger Edge(adj, u, v)} ::
      On(s, u) && s.num[u] >= from && Edge(adj, u, v) && On(s, v) ==> bound <= s.num[v]
  }

  ghost predicate Attains(r: Rel, s: Search, at: nat, bound: int, y: nat) {
    On(s, y) && y < |s.num| && s.num[y] == bound && (at, y) in r
  }

  ghost predicate AttainsSome(r: Rel, s: Search, at: nat, bound: int) {
    exists y :: Attains(r, s, at, bound, y)
  }

  /** What the visit of a node leaves behind for whoever made it. */
  ghost predicate Handed(adj: Adj, r: Rel, s: Search, s': Search, at: nat)
    requires at < |adj|
  {
    && Later(s, s', |adj|)
    && s'.num[at] == s.counter
    && s'.low[at] <= s'.num[at]
    && Bounded(adj, s', s.counter, s'.low[at])
    && (if On(s', at) then AttainsSome(r, s', at, s'.low[at]) else s'.low[at] == s'.num[at])
  }

  /** What `connect(at)` leaves behind. */
  ghost predicate Connected(adj: Adj, r: Rel, s: Search, s': Search, gray: set<nat>, at: nat)
    requires at < |adj|
  {
    Inv(adj, r, s', gray) && Handed(adj, r, s, s', at)
  }

  /** The first `k` edges of `at` lead to visited nodes, none on the stack
      numbered under `bound`. */
  ghost predicate Followed(adj: Adj, s: Search, at: nat, k: nat, bound: int)
    requires Sized(s, |adj|) && at < |adj|
  {
    && k <= |adj[at]|
    && (forall e {:trigger adj[at][e]} :: 0 <= e < k ==>
          adj[at][e] < |adj| && s.num[adj[at][e]] != -1 && (On(s, adj[at][e]) ==> bound <= s.num[adj[at][e]]))
  }

  /** Inside `connect(at)`, entered from `s0`, with the first `k` edges
      followed: the low number of `at` is attained and bounds every edge seen. */
  ghost predicate Progress(adj: Adj, r: Rel, s0: Search, s: Search, at: nat, k: nat)
    requires at < |adj|
  {
    && Later(s0, s, |adj|)
    && |s0.stack| < |s.stack| && s.stack[|s0.stack|] == at
    && s0.num[at] == -1 && s.num[at] == s0.counter && On(s, at)
    && s.low[at] <= s.num[at]
    && AttainsSome(r, s, at, s.low[at])
    && Bounded(adj, s, s0.counter + 1, s.low[at])
    && Followed(adj, s, at, k, s.low[at])
  }

  ghost predicate Working(adj: Adj, r: Rel, s0: Search, s: Search, gray: set<nat>, at: nat, k: nat)
    requires at < |adj|
  {
    at !in gray && Inv(adj, r, s, gray + {at}) && Progress(adj, r, s0, s, at, k)
  }

  ghost predicate CanConnect(adj: Adj, r: Rel, s: Search, gray: set<nat>, at: nat) {
    && Inv(adj, r, s, gray)
    && at < |adj| && s.num[at] == -1
    && (forall g :: g in gray ==> (g, at) in r)
  }

  // ---- Visiting a node ----

  lemma VisitStack(s: Search, n: nat, at: nat)
    requires Numbered(s, n) && Stacked(s) && at < n && s.num[at] == -1
    ensures Numbered(Visit(s, at), n) && Stacked(Visit(s, at)) && Later(s, Visit(s, at), n)
    ensures forall v: nat :: On(Visit(s, at), v) <==> On(s, v) || v == at
    ensures forall v: nat :: Done(Visit(s, at), v) <==> Done(s, v)
    ensures !On(s, at)
  {
    var s' := Visit(s, at);
    forall v | On(s', v) ensures v in s'.stack {
      if v == at { assert s'.stack[|s.stack|] == at; } else { assert On(s, v); }
    }
    forall i, j | 0 <= i < j < |s'.stack| ensures s'.num[s'.stack[i]] < s'.num[s'.stack[j]] {
      assert On(s, s.stack[i]);
      if j < |s.stack| { assert On(s, s.stack[j]); }
    }
  }

  lemma VisitChain(adj: Adj, r: Rel, s: Search, gray: set<nat>, at: nat)
    requires Closure(adj, r) && Numbered(s, |adj|) && ChainTrue(r, s) && ReturnTrue(r, s, gray)
    requires at < |adj| && s.num[at] == -1 && forall g :: g in gray ==> (g, at) in r
    ensures ChainTrue(r, Visit(s, at))
  {
    var s' := Visit(s, at);
    forall u: nat, v: nat | On(s', u) && On(s', v) && s'.num[u] <= s'.num[v] ensures (u, v) in r {
      if u != at {
        assert On(s, u);
        if v == at {
          assert HasReturn(r, s, gray, u);
          var g :| Returns(r, s, gray, u, g);
          assert Join(u, g, at);
        } else {
          assert On(s, v);
        }
      }
    }
  }

  lemma VisitReturn(r: Rel, s: Search, n: nat, gray: set<nat>, at: nat)
    requires Sized(s, n) && ReturnTrue(r, s, gray)
    requires at < n && !On(s, at) && at !in gray && (at, at) in r
    ensures ReturnTrue(r, Visit(s, at), gray + {at})
  {
    var s' := Visit(s, at);
    forall v: nat | On(s', v) ensures HasReturn(r, s', gray + {at}, v) {
      if v != at {
        assert On(s, v) && HasReturn(r, s, gray, v);
        var g :| Returns(r, s, gray, v, g);
        assert Returns(r, s', gray + {at}, v, g);
      } else {
        assert Returns(r, s', gray + {at}, at, at);
      }
    }
  }

  lemma SameDone(adj: Adj, r: Rel, s: Search, s': Search, n: nat)
    requires Sized(s, n) && Sized(s', n) && SccsTrue(r, s) && OrderTrue(adj, s) && s'.sccs == s.sccs
    requires forall v: nat :: Done(s', v) <==> Done(s, v)
    ensures SccsTrue(r, s') && OrderTrue(adj, s')
  {
  }

  lemma VisitEdges(adj: Adj, s: Search, gray: set<nat>, at: nat)
    requires Numbered(s, |adj|) && Stacked(s) && EdgesTrue(adj, s, gray) && at < |adj| && s.num[at] == -1
    ensures EdgesTrue(adj, Visit(s, at), gray + {at})
  {
    VisitStack(s, |adj|, at);
  }

  lemma VisitInv(adj: Adj, r: Rel, s: Search, gray: set<nat>, at: nat)
    requires Closure(adj, r) && CanConnect(adj, r, s, gray, at)
    ensures Inv(adj, r, Visit(s, at), gray + {at}) && at !in gray
  {
    VisitStack(s, |adj|, at);
    VisitChain(adj, r, s, gray, at);
    assert (at, at) in r;
    VisitReturn(r, s, |adj|, gray, at);
    VisitEdges(adj, s, gray, at);
    SameDone(adj, r, s, Visit(s, at), |adj|);
  }

  lemma VisitStarts(adj: Adj, r: Rel, s: Search, gray: set<nat>, at: nat)
    requires Closure(adj, r) && CanConnect(adj, r, s, gray, at)
    ensures Working(adj, r, s, Visit(s, at), gray, at, 0)
  {
    VisitInv(adj, r, s, gray, at);
    VisitProgress(adj, r, s, at);
  }

  lemma VisitProgress(adj: Adj, r: Rel, s: Search, at: nat)
    requires Closure(adj, r) && Numbered(s, |adj|) && Stacked(s) && at < |adj| && s.num[at] == -1
    ensures Progress(adj, r, s, Visit(s, at), at, 0)
  {
    var s' := Visit(s, at);
    VisitStack(s, |adj|, at);
    assert (at, at) in r;
    assert Attains(r, s', at, s'.low[at], at);
  }

  // ---- Following an edge ----

  lemma LowerKeepsInv(adj: Adj, r: Rel, s: Search, gray: set<nat>, at: nat, to: int)
    requires Inv(adj, r, s, gray) && at < |adj|
    ensures Inv(adj, r, Lower(s, at, to), gray)
  {
    var s' := Lower(s, at, to);
    assert forall v: nat :: On(s', v) <==> On(s, v);
    SameDone(adj, r, s, s', |adj|);
    assert ReturnTrue(r, s', gray) by {
      forall v: nat | On(s', v) ensures HasReturn(r, s', gray, v) {
        assert On(s, v) && HasReturn(r, s, gray, v);
        var g :| Returns(r, s, gray, v, g);
        assert Returns(r, s', gray, v, g);
      }
    }
  }

  lemma LowerLater(s0: Search, s: Search, n: nat, at: nat, to: int)
    requires Later(s0, s, n) && at < n && s0.num[at] == -1
    ensures Later(s0, Lower(s, at, to), n)
  {
  }

  /** Only low numbers move, and a lower bound is a weaker one. */
  lemma LowerParts(adj: Adj, s: Search, from: int, at: nat, k: nat, to: int, bound: int)
    requires Sized(s, |adj|) && at < |adj|
    requires Bounded(adj, s, from, bound) && Followed(adj, s, at, k, bound)
    ensures var s' := Lower(s, at, to);
            forall b :: b <= bound ==> Bounded(adj, s', from, b) && Followed(adj, s', at, k, b)
  {
    var s' := Lower(s, at, to);
    assert forall v: nat :: On(s', v) <==> On(s, v);
  }

  lemma FollowOne(adj: Adj, s: Search, at: nat, k: nat, bound: int)
    requires Sized(s, |adj|) && at < |adj| && Followed(adj, s, at, k, bound)
    requires k < |adj[at]| && adj[at][k] < |adj| && s.num[adj[at][k]] != -1
    requires On(s, adj[at][k]) ==> bound <= s.num[adj[at][k]]
    ensures Followed(adj, s, at, k + 1, bound)
  {
  }

  lemma OldEdgeProgress(adj: Adj, r: Rel, s0: Search, s: Search, at: nat, k: nat)
    requires Closure(adj, r) && at < |adj| && k < |adj[at]| && adj[at][k] < |adj|
    requires Progress(adj, r, s0, s, at, k)
    requires s.num[adj[at][k]] != -1 && On(s, adj[at][k])
    ensures Progress(adj, r, s0, Lower(s, at, s.num[adj[at][k]]), at, k + 1)
  {
    var next := adj[at][k];
    var s' := Lower(s, at, s.num[next]);
    LowerLater(s0, s, |adj|, at, s.num[next]);
    LowerParts(adj, s, s0.counter + 1, at, k, s.num[next], s.low[at]);
    FollowOne(adj, s', at, k, s'.low[at]);
    assert Edge(adj, at, next);
    if s.num[next] < s.low[at] {
      assert Attains(r, s', at, s'.low[at], next);
    }
  }

  /** An edge to a closed node, or to a stack node, whose number it takes. */
  lemma OldEdge(adj: Adj, r: Rel, s0: Search, s: Search, gray: set<nat>, at: nat, k: nat)
    requires Closure(adj, r) && at < |adj| && k < |adj[at]| && adj[at][k] < |adj|
    requires Working(adj, r, s0, s, gray, at, k)
    requires s.num[adj[at][k]] != -1
    ensures var next := adj[at][k];
            Working(adj, r, s0, if s.onStack[next] then Lower(s, at, s.num[next]) else s, gray, at, k + 1)
  {
    var next := adj[at][k];
    if s.onStack[next] {
      LowerKeepsInv(adj, r, s, gray + {at}, at, s.num[next]);
      OldEdgeProgress(adj, r, s0, s, at, k);
    } else {
      FollowOne(adj, s, at, k, s.low[at]);
    }
  }

  /** Open calls reach the node an open call is about to visit. */
  lemma CanDescend(adj: Adj, r: Rel, s: Search, gray: set<nat>, at: nat, next: nat)
    requires Closure(adj, r) && Edge(adj, at, next) && at < |adj|
    requires Inv(adj, r, s, gray + {at}) && next < |adj| && s.num[next] == -1
    requires forall g :: g in gray ==> (g, at) in r
    ensures CanConnect(adj, r, s, gray + {at}, next)
  {
    forall g | g in gray + {at} ensures (g, next) in r {
      if g != at { assert Join(g, at, next); }
    }
  }

  lemma LaterTrans(s0: Search, s1: Search, s2: Search, n: nat)
    requires Later(s0, s1, n) && Later(s1, s2, n)
    ensures Later(s0, s2, n)
  {
  }

  lemma NewEdgeAttains(adj: Adj, r: Rel, s: Search, s1: Search, at: nat, next: nat)
    requires Closure(adj, r) && Edge(adj, at, next) && at < |adj| && next < |adj|
    requires Numbered(s, |adj|) && On(s, at) && s.low[at] <= s.num[at]
    requires AttainsSome(r, s, at, s.low[at]) && Handed(adj, r, s, s1, next)
    ensures var s' := Lower(s1, at, s1.low[next]); AttainsSome(r, s', at, s'.low[at])
  {
    var s' := Lower(s1, at, s1.low[next]);
    if s1.low[next] < s1.low[at] {
      var y :| Attains(r, s1, next, s1.low[next], y);
      assert Join(at, next, y);
      assert Attains(r, s', at, s'.low[at], y);
    } else {
      var y :| Attains(r, s, at, s.low[at], y);
      assert Attains(r, s', at, s'.low[at], y);
    }
  }

  lemma NewEdgeBounded(adj: Adj, s: Search, s1: Search, from: int, low: int, to: int, bound: int)
    requires Numbered(s, |adj|) && Numbered(s1, |adj|) && Later(s, s1, |adj|)
    requires Bounded(adj, s, from, low) && Bounded(adj, s1, s.counter, to)
    requires bound <= low && bound <= to && low < s.counter
    ensures Bounded(adj, s1, from, bound)
  {
    forall u: nat, v: nat | On(s1, u) && s1.num[u] >= from && Edge(adj, u, v) && On(s1, v)
      ensures bound <= s1.num[v]
    {
      if s.num[u] != -1 {
        assert On(s, u);
        if s.num[v] != -1 { assert On(s, v); }
      }
    }
  }

  lemma NewEdgeFollowed(adj: Adj, s: Search, s1: Search, at: nat, k: nat, low: int)
    requires Later(s, s1, |adj|) && at < |adj| && Followed(adj, s, at, k, low) && low < s.counter
    requires k < |adj[at]| && adj[at][k] < |adj| && s1.num[adj[at][k]] == s.counter
    ensures Followed(adj, s1, at, k + 1, low)
  {
  }

  lemma NewEdgeProgress(adj: Adj, r: Rel, s0: Search, s: Search, s1: Search, at: nat, k: nat)
    requires Closure(adj, r) && at < |adj| && k < |adj[at]| && adj[at][k] < |adj|
    requires Numbered(s, |adj|) && Numbered(s1, |adj|) && Progress(adj, r, s0, s, at, k)
    requires s.num[adj[at][k]] == -1 && Handed(adj, r, s, s1, adj[at][k])
    ensures Progress(adj, r, s0, Lower(s1, at, s1.low[adj[at][k]]), at, k + 1)
  {
    var next := adj[at][k];
    var to := s1.low[next];
    var s' := Lower(s1, at, to);
    var bound := if to < s.low[at] then to else s.low[at];
    assert Edge(adj, at, next);
    LaterTrans(s0, s, s1, |adj|);
    LowerLater(s0, s1, |adj|, at, to);
    NewEdgeAttains(adj, r, s, s1, at, next);
    NewEdgeBounded(adj, s, s1, s0.counter + 1, s.low[at], to, bound);
    NewEdgeFollowed(adj, s, s1, at, k, s.low[at]);
    Weaker(adj, s1, at, k + 1, s.low[at], bound);
    LowerParts(adj, s1, s0.counter + 1, at, k + 1, to, bound);
    assert s'.stack[|s0.stack|] == s.stack[|s0.stack|];
  }

  lemma Weaker(adj: Adj, s: Search, at: nat, k: nat, bound: int, bound': int)
    requires Sized(s, |adj|) && at < |adj| && Followed(adj, s, at, k, bound) && bound' <= bound
    ensures Followed(adj, s, at, k, bound')
  {
  }

  /** A freshly visited neighbour hands its low number up. */
  lemma NewEdge(adj: Adj, r: Rel, s0: Search, s: Search, s1: Search, gray: set<nat>, at: nat, k: nat)
    requires Closure(adj, r) && at < |adj| && k < |adj[at]| && adj[at][k] < |adj|
    requires Working(adj, r, s0, s, gray, at, k) && s.num[adj[at][k]] == -1
    requires Connected(adj, r, s, s1, gray + {at}, adj[at][k])
    ensures Working(adj, r, s0, Lower(s1, at, s1.low[adj[at][k]]), gray, at, k + 1)
  {
    LowerKeepsInv(adj, r, s1, gray + {at}, at, s1.low[adj[at][k]]);
    NewEdgeProgress(adj, r, s0, s, s1, at, k);
  }

  // ---- Finishing a node ----

  lemma AllBounded(adj: Adj, s: Search, n: nat, at: nat, bound: int)
    requires Numbered(s, |adj|) && Stacked(s) && at < |adj| && On(s, at)
    requires Bounded(adj, s, s.num[at] + 1, bound) && Followed(adj, s, at, |adj[at]|, bound)
    ensures Bounded(adj, s, s.num[at], bound)
  {
    forall u: nat, v: nat | On(s, u) && s.num[u] >= s.num[at] && Edge(adj, u, v) && On(s, v)
      ensures bound <= s.num[v]
    {
      if s.num[u] == s.num[at] {
        SameNumber(s, u, at);
        var e :| 0 <= e < |adj[at]| && adj[at][e] == v;
      }
    }
  }

  lemma SameNumber(s: Search, u: nat, v: nat)
    requires Stacked(s) && On(s, u) && On(s, v) && s.num[u] == s.num[v]
    ensures u == v
  {
    var i :| 0 <= i < |s.stack| && s.stack[i] == u;
    var j :| 0 <= j < |s.stack| && s.stack[j] == v;
  }

  lemma StaysReturn(adj: Adj, r: Rel, s: Search, gray: set<nat>, at: nat)
    requires Closure(adj, r) && Numbered(s, |adj|) && ReturnTrue(r, s, gray + {at})
    requires at < |adj| && s.low[at] < s.num[at] && AttainsSome(r, s, at, s.low[at])
    ensures ReturnTrue(r, s, gray)
  {
    var y :| Attains(r, s, at, s.low[at], y);
    assert HasReturn(r, s, gray + {at}, y);
    var up :| Returns(r, s, gray + {at}, y, up);
    assert Join(at, y, up);
    forall v: nat | On(s, v) ensures HasReturn(r, s, gray, v) {
      assert HasReturn(r, s, gray + {at}, v);
      var g :| Returns(r, s, gray + {at}, v, g);
      if g == at {
        assert Join(v, at, up);
        assert Returns(r, s, gray, v, up);
      } else {
        assert Returns(r, s, gray, v, g);
      }
    }
  }

  lemma StaysEdges(adj: Adj, s: Search, gray: set<nat>, at: nat, bound: int)
    requires Sized(s, |adj|) && at < |adj|
    requires Followed(adj, s, at, |adj[at]|, bound) && EdgesTrue(adj, s, gray + {at})
    ensures EdgesTrue(adj, s, gray)
  {
    forall u: nat, v: nat | On(s, u) && u !in gray && Edge(adj, u, v) ensures v < |adj| && s.num[v] != -1 {
      if u == at {
        var e :| 0 <= e < |adj[at]| && adj[at][e] == v;
      }
    }
  }

  /** A node that reaches below itself stays on the stack, finished. */
  lemma Stays(adj: Adj, r: Rel, s0: Search, s: Search, gray: set<nat>, at: nat)
    requires Closure(adj, r) && at < |adj|
    requires Working(adj, r, s0, s, gray, at, |adj[at]|) && s.low[at] < s.num[at]
    ensures Connected(adj, r, s0, s, gray, at)
  {
    StaysReturn(adj, r, s, gray, at);
    StaysEdges(adj, s, gray, at, s.low[at]);
    AllBounded(adj, s, |adj|, at, s.low[at]);
    assert GrayTrue(s, gray) by {
      forall g | g in gray ensures On(s, g) { assert g in gray + {at}; }
    }
  }

  // ---- Closing a component ----

  ghost function DoneSet(s: Search): set<nat>
    requires |s.num| == |s.onStack|
  {
    set v: nat | v < |s.num| && Done(s, v)
  }

  lemma CloseOn(s: Search, n: nat, base: nat, from: int)
    requires Numbered(s, n) && base <= |s.stack|
    ensures Numbered(Close(s, base, from), n)
    ensures forall v: nat :: On(Close(s, base, from), v) <==> On(s, v) && s.num[v] < from
    ensures forall v: nat :: Done(Close(s, base, from), v) <==> v in DoneSet(s) + Top(s, from)
  {
    var s' := Close(s, base, from);
    forall v: nat ensures On(s', v) <==> On(s, v) && s.num[v] < from {
    }
    forall v: nat ensures Done(s', v) <==> v in DoneSet(s) + Top(s, from) {
      if v < n { assert On(s, v) <==> s.onStack[v]; }
    }
  }

  lemma CloseStacked(s: Search, n: nat, base: nat)
    requires Numbered(s, n) && Stacked(s) && base < |s.stack|
    ensures On(s, s.stack[base])
    ensures Stacked(Close(s, base, s.num[s.stack[base]]))
  {
    assert On(s, s.stack[base]);
    var from := s.num[s.stack[base]];
    var s' := Close(s, base, from);
    CloseOn(s, n, base, from);
    forall i | 0 <= i < |s'.stack| ensures On(s', s'.stack[i]) {
      assert s'.stack[i] == s.stack[i] && On(s, s.stack[i]);
    }
    forall v: nat | On(s', v) ensures v in s'.stack {
      var i :| 0 <= i < |s.stack| && s.stack[i] == v;
      assert i < base ==> s'.stack[i] == v;
    }
    assert forall i :: 0 <= i < |s'.stack| ==> s'.stack[i] == s.stack[i];
  }

  /** Every stack node reaches the one that closes the component. */
  lemma ComponentReturns(adj: Adj, r: Rel, s: Search, gray: set<nat>, at: nat, v: nat)
    requires Closure(adj, r) && ReturnTrue(r, s, gray + {at}) && On(s, v)
    requires at < |adj| && forall g :: g in gray ==> (g, at) in r
    ensures (v, at) in r
  {
    assert HasReturn(r, s, gray + {at}, v);
    var g :| Returns(r, s, gray + {at}, v, g);
    if g != at { assert Join(v, g, at); }
  }

  lemma ComponentMutual(adj: Adj, r: Rel, s: Search, gray: set<nat>, at: nat)
    requires Closure(adj, r) && Sized(s, |adj|) && ReturnTrue(r, s, gray + {at}) && ChainTrue(r, s)
    requires at < |adj| && On(s, at) && forall g :: g in gray ==> (g, at) in r
    ensures forall x, y :: x in Top(s, s.num[at]) && y in Top(s, s.num[at]) ==> (x, y) in r
  {
    forall x, y | x in Top(s, s.num[at]) && y in Top(s, s.num[at]) ensures (x, y) in r {
      ComponentReturns(adj, r, s, gray, at, x);
      assert (at, y) in r;
      assert Join(x, at, y);
    }
  }

  /** Above `at` no call is open. */
  ghost predicate TopIsFinished(s: Search, gray: set<nat>, from: int)
    requires |s.num| == |s.onStack|
  {
    forall g :: g in gray ==> On(s, g) && s.num[g] < from
  }

  /** Edges out of the component stay in it or lead to a closed one. */
  lemma ComponentClosed(adj: Adj, s: Search, gray: set<nat>, at: nat)
    requires Numbered(s, |adj|) && Stacked(s) && EdgesTrue(adj, s, gray + {at})
    requires at < |adj| && On(s, at) && TopIsFinished(s, gray, s.num[at])
    requires Followed(adj, s, at, |adj[at]|, s.num[at]) && Bounded(adj, s, s.num[at], s.num[at])
    ensures Closed(adj, DoneSet(s) + Top(s, s.num[at]))
  {
    var d := DoneSet(s) + Top(s, s.num[at]);
    forall u: nat, v: nat | u in d && Edge(adj, u, v) ensures v in d {
      if u in Top(s, s.num[at]) {
        if u == at {
          var e :| 0 <= e < |adj[at]| && adj[at][e] == v;
        }
        assert v < |adj| && s.num[v] != -1;
        assert On(s, v) || Done(s, v);
      } else {
        assert Done(s, u) && Done(s, v);
      }
    }
  }

  lemma DoneClosed(adj: Adj, s: Search, gray: set<nat>)
    requires Sized(s, |adj|) && EdgesTrue(adj, s, gray)
    ensures Closed(adj, DoneSet(s))
  {
  }

  /** Mutually related, and closed but for finished components: maximal. */
  lemma ComponentMaximal(adj: Adj, r: Rel, s: Search, at: nat)
    requires Tight(adj, r) && Sized(s, |adj|) && at < |adj| && On(s, at)
    requires Closed(adj, DoneSet(s)) && Closed(adj, DoneSet(s) + Top(s, s.num[at]))
    requires forall x, y :: x in Top(s, s.num[at]) && y in Top(s, s.num[at]) ==> (x, y) in r
    ensures SccIn(r, |adj|, Top(s, s.num[at]))
  {
    var c := Top(s, s.num[at]);
    assert at in c;
    assert forall x :: x in c ==> x !in DoneSet(s);
    forall x, y | x in c && (x, y) in r && (y, x) in r ensures y in c {
      assert Seal(DoneSet(s) + c, x, y);
      assert Seal(DoneSet(s), y, x);
    }
  }

  /** A finished node whose low number is its own, entered from `s0`. */
  ghost predicate CanClose(adj: Adj, r: Rel, s0: Search, s: Search, gray: set<nat>, at: nat)
    requires at < |adj|
  {
    && Working(adj, r, s0, s, gray, at, |adj[at]|)
    && s.low[at] == s.num[at]
    && (forall g :: g in gray ==> (g, at) in r)
    && Sized(s0, |adj|)
    && (forall g :: g in gray ==> g < |adj| && -1 < s0.num[g] < s0.counter)
  }

  lemma GrayBelow(adj: Adj, s0: Search, s: Search, gray: set<nat>, at: nat)
    requires Later(s0, s, |adj|) && at < |adj| && s.num[at] == s0.counter && GrayTrue(s, gray + {at})
    requires forall g :: g in gray ==> g < |adj| && -1 < s0.num[g] < s0.counter
    ensures TopIsFinished(s, gray, s.num[at])
  {
    forall g | g in gray ensures On(s, g) && s.num[g] < s.num[at] {
      assert g in gray + {at};
    }
  }

  lemma ClosedAfter(adj: Adj, r: Rel, s0: Search, s: Search, gray: set<nat>, at: nat)
    requires at < |adj| && CanClose(adj, r, s0, s, gray, at)
    ensures Closed(adj, DoneSet(s) + Top(s, s.num[at]))
  {
    GrayBelow(adj, s0, s, gray, at);
    AllBounded(adj, s, |adj|, at, s.low[at]);
    ComponentClosed(adj, s, gray, at);
  }

  lemma ComponentIsScc(adj: Adj, r: Rel, s0: Search, s: Search, gray: set<nat>, at: nat)
    requires Closure(adj, r) && Tight(adj, r) && at < |adj| && CanClose(adj, r, s0, s, gray, at)
    ensures SccIn(r, |adj|, Top(s, s.num[at]))
  {
    ComponentMutual(adj, r, s, gray, at);
    ClosedAfter(adj, r, s0, s, gray, at);
    DoneClosed(adj, s, gray + {at});
    ComponentMaximal(adj, r, s, at);
  }

  lemma CloseReturn(r: Rel, s: Search, n: nat, gray: set<nat>, at: nat, base: nat)
    requires Numbered(s, n) && base <= |s.stack| && at < n && ReturnTrue(r, s, gray + {at})
    ensures ReturnTrue(r, Close(s, base, s.num[at]), gray)
  {
    var s' := Close(s, base, s.num[at]);
    CloseOn(s, n, base, s.num[at]);
    forall v: nat | On(s', v) ensures HasReturn(r, s', gray, v) {
      assert On(s, v) && HasReturn(r, s, gray + {at}, v);
      var g :| Returns(r, s, gray + {at}, v, g);
      assert Returns(r, s', gray, v, g);
    }
  }

  lemma CloseSccs(r: Rel, s: Search, n: nat, base: nat, from: int)
    requires Numbered(s, n) && base <= |s.stack| && SccsTrue(r, s) && SccIn(r, n, Top(s, from))
    ensures SccsTrue(r, Close(s, base, from))
  {
    var s' := Close(s, base, from);
    CloseOn(s, n, base, from);
    forall v: nat | Done(s', v) ensures exists i :: 0 <= i < |s'.sccs| && v in s'.sccs[i] {
      if Done(s, v) {
        var i :| 0 <= i < |s.sccs| && v in s.sccs[i];
        assert v in s'.sccs[i];
      } else {
        assert v in s'.sccs[|s.sccs|];
      }
    }
    forall i | 0 <= i < |s.sccs| ensures s.sccs[i] !! Top(s, from) {
      assert forall v :: v in s.sccs[i] ==> Done(s, v);
    }
  }

  lemma CloseOrder(adj: Adj, r: Rel, s: Search, base: nat, from: int)
    requires Sized(s, |adj|) && base <= |s.stack| && OrderTrue(adj, s) && SccsTrue(r, s)
    requires Closed(adj, DoneSet(s) + Top(s, from))
    ensures OrderTrue(adj, Close(s, base, from))
  {
    var s' := Close(s, base, from);
    forall i, u: nat, v: nat | 0 <= i < |s'.sccs| && u in s'.sccs[i] && Edge(adj, u, v)
      ensures exists j :: 0 <= j <= i && v in s'.sccs[j]
    {
      if i < |s.sccs| {
        var j :| 0 <= j <= i && v in s.sccs[j];
        assert v in s'.sccs[j];
      } else {
        assert u in DoneSet(s) + Top(s, from);
        assert v in DoneSet(s) + Top(s, from);
        if v in Top(s, from) {
          assert v in s'.sccs[i];
        } else {
          assert Done(s, v);
          var j :| 0 <= j < |s.sccs| && v in s.sccs[j];
          assert v in s'.sccs[j];
        }
      }
    }
  }

  lemma CloseEdges(adj: Adj, s: Search, gray: set<nat>, at: nat, base: nat)
    requires Numbered(s, |adj|) && base <= |s.stack| && at < |adj| && EdgesTrue(adj, s, gray + {at})
    requires Closed(adj, DoneSet(s) + Top(s, s.num[at]))
    ensures EdgesTrue(adj, Close(s, base, s.num[at]), gray)
  {
    var s' := Close(s, base, s.num[at]);
    CloseOn(s, |adj|, base, s.num[at]);
    var d := DoneSet(s) + Top(s, s.num[at]);
    forall u: nat, v: nat | Done(s', u) && Edge(adj, u, v) ensures Done(s', v) {
      assert u in d;
      assert v in d;
    }
  }

  lemma CloseLater(s0: Search, s: Search, n: nat, from: int)
    requires Numbered(s, n) && Later(s0, s, n) && from == s0.counter && Numbered(s0, n)
    ensures Later(s0, Close(s, |s0.stack|, from), n)
  {
    CloseOn(s, n, |s0.stack|, from);
    assert s0.stack == s.stack[..|s0.stack|];
  }

  lemma ClosesInv(adj: Adj, r: Rel, s0: Search, s: Search, gray: set<nat>, at: nat)
    requires Closure(adj, r) && Tight(adj, r) && at < |adj| && CanClose(adj, r, s0, s, gray, at)
    ensures Inv(adj, r, Close(s, |s0.stack|, s.num[at]), gray)
  {
    ComponentIsScc(adj, r, s0, s, gray, at);
    ClosedAfter(adj, r, s0, s, gray, at);
    GrayBelow(adj, s0, s, gray, at);
    CloseParts(adj, r, s, gray, at, |s0.stack|);
  }

  lemma CloseParts(adj: Adj, r: Rel, s: Search, gray: set<nat>, at: nat, base: nat)
    requires at < |adj| && base < |s.stack| && s.stack[base] == at && Inv(adj, r, s, gray + {at})
    requires SccIn(r, |adj|, Top(s, s.num[at])) && Closed(adj, DoneSet(s) + Top(s, s.num[at]))
    requires TopIsFinished(s, gray, s.num[at])
    ensures Inv(adj, r, Close(s, base, s.num[at]), gray)
  {
    CloseOn(s, |adj|, base, s.num[at]);
    CloseStacked(s, |adj|, base);
    CloseReturn(r, s, |adj|, gray, at, base);
    CloseSccs(r, s, |adj|, base, s.num[at]);
    CloseOrder(adj, r, s, base, s.num[at]);
    CloseEdges(adj, s, gray, at, base);
  }

  /** A node whose low number is its own closes a component: itself and all
      above it on the stack. */
  lemma Closes(adj: Adj, r: Rel, s0: Search, s: Search, gray: set<nat>, at: nat)
    requires Closure(adj, r) && Tight(adj, r) && at < |adj| && CanClose(adj, r, s0, s, gray, at)
    requires Numbered(s0, |adj|)
    ensures Connected(adj, r, s0, Close(s, |s0.stack|, s.num[at]), gray, at)
  {
    ClosesInv(adj, r, s0, s, gray, at);
    CloseLater(s0, s, |adj|, s.num[at]);
    CloseHanded(adj, r, s0, s, at);
  }

  lemma CloseHanded(adj: Adj, r: Rel, s0: Search, s: Search, at: nat)
    requires Numbered(s, |adj|) && at < |adj| && |s0.stack| <= |s.stack|
    requires Later(s0, Close(s, |s0.stack|, s.num[at]), |adj|)
    requires s.low[at] == s.num[at] == s0.counter
    ensures Handed(adj, r, s0, Close(s, |s0.stack|, s.num[at]), at)
  {
    CloseOn(s, |adj|, |s0.stack|, s.num[at]);
  }
}
