/** The import-cycle check of the frontend: `cyclesOf` over the edge list.

    Modules are numbered in order of first mention. The class keeps the state of
    the search in fields, each call tied to the step of `Tarjan` it takes; what
    it closes is translated back to names and is the report. */
module Boundaries {
  import opened Sequences
  import opened Graph
  import opened Tarjan

  datatype Kind = Static | Dynamic | TypeOnly

  datatype ImportEdge = ImportEdge(from: string, to: string, kind: Kind)

  // ---- The module graph by name ----

  ghost predicate Imports(edges: seq<ImportEdge>, a: string, b: string) {
    exists i :: 0 <= i < |edges| && edges[i].from == a && edges[i].to == b && !edges[i].kind.TypeOnly?
  }

  ghost predicate ImportPath(edges: seq<ImportEdge>, p: seq<string>, a: string, b: string) {
    && |p| > 0 && p[0] == a && p[|p| - 1] == b
    && forall i {:trigger ImportHop(edges, p, i)} :: 0 <= i < |p| - 1 ==> ImportHop(edges, p, i)
  }

  ghost predicate ImportHop(edges: seq<ImportEdge>, p: seq<string>, i: int)
    requires 0 <= i < |p| - 1
  {
    Imports(edges, p[i], p[i + 1])
  }

  /** `a` loads `b`, through any number of imports that are not type-only. */
  ghost predicate Loads(edges: seq<ImportEdge>, a: string, b: string) {
    exists p :: ImportPath(edges, p, a, b)
  }

  ghost predicate IsModule(edges: seq<ImportEdge>, a: string) {
    exists i :: 0 <= i < |edges| && (edges[i].from == a || edges[i].to == a)
  }

  // ---- The same graph by index ----

  function AddName(names: seq<string>, name: string): seq<string> {
    if name in names then names else names + [name]
  }

  /** Every module an edge names, each once, in order of appearance. */
  function NodesOf(edges: seq<ImportEdge>): (names: seq<string>) {
    if edges == [] then []
    else
      var last := edges[|edges| - 1];
      AddName(AddName(NodesOf(edges[..|edges| - 1]), last.from), last.to)
  }

  lemma AddNameKeeps(names: seq<string>, name: string)
    requires Distinct(names)
    ensures Distinct(AddName(names, name))
    ensures forall a :: a in AddName(names, name) <==> a in names || a == name
  {
  }

  lemma LastEdgeModules(edges: seq<ImportEdge>, a: string)
    requires edges != []
    ensures var init, last := edges[..|edges| - 1], edges[|edges| - 1];
            IsModule(edges, a) <==> IsModule(init, a) || a == last.from || a == last.to
  {
    var init := edges[..|edges| - 1];
    if IsModule(init, a) {
      var i :| 0 <= i < |init| && (init[i].from == a || init[i].to == a);
      assert edges[i] == init[i];
    }
    if IsModule(edges, a) {
      var i :| 0 <= i < |edges| && (edges[i].from == a || edges[i].to == a);
      if i < |edges| - 1 { assert init[i] == edges[i]; }
    }
  }

  lemma {:induction false} NodesAreModules(edges: seq<ImportEdge>)
    ensures Distinct(NodesOf(edges))
    ensures forall a :: a in NodesOf(edges) <==> IsModule(edges, a)
    decreases |edges|
  {
    if edges != [] {
      var init, last := edges[..|edges| - 1], edges[|edges| - 1];
      NodesAreModules(init);
      AddNameKeeps(NodesOf(init), last.from);
      AddNameKeeps(AddName(NodesOf(init), last.from), last.to);
      forall a ensures a in NodesOf(edges) <==> IsModule(edges, a) {
        LastEdgeModules(edges, a);
      }
    }
  }

  function IndexOf(names: seq<string>, name: string): (i: nat)
    requires name in names
    ensures i < |names| && names[i] == name
  {
    if names[0] == name then 0 else 1 + IndexOf(names[1..], name)
  }

  /** The targets of `name`'s imports, type-only ones left out. */
  function Outgoing(edges: seq<ImportEdge>, name: string): (to: seq<string>) {
    if edges == [] then []
    else
      (if edges[0].from == name && !edges[0].kind.TypeOnly? then [edges[0].to] else []) +
      Outgoing(edges[1..], name)
  }

  lemma {:induction false} OutgoingIsImports(edges: seq<ImportEdge>, a: string, b: string)
    ensures b in Outgoing(edges, a) <==> Imports(edges, a, b)
    decreases |edges|
  {
    if edges != [] {
      OutgoingIsImports(edges[1..], a, b);
      if Imports(edges[1..], a, b) {
        var i :| 0 <= i < |edges[1..]| && edges[1..][i].from == a && edges[1..][i].to == b && !edges[1..][i].kind.TypeOnly?;
        assert edges[i + 1] == edges[1..][i];
      }
      if Imports(edges, a, b) && !(edges[0].from == a && edges[0].to == b && !edges[0].kind.TypeOnly?) {
        var i :| 0 <= i < |edges| && edges[i].from == a && edges[i].to == b && !edges[i].kind.TypeOnly?;
        assert edges[1..][i - 1] == edges[i];
      }
    }
  }

  /** Positions in `names` of those of `to` that are listed there. */
  function Indices(names: seq<string>, to: seq<string>): (ids: seq<nat>)
    ensures forall k :: 0 <= k < |ids| ==> ids[k] < |names|
  {
    if to == [] then []
    else (if to[0] in names then [IndexOf(names, to[0])] else []) + Indices(names, to[1..])
  }

  lemma {:induction false} IndicesMember(names: seq<string>, to: seq<string>, v: nat)
    requires Distinct(names) && v < |names|
    ensures v in Indices(names, to) <==> names[v] in to
    decreases |to|
  {
    if to != [] {
      IndicesMember(names, to[1..], v);
    }
  }

  function AdjOf(edges: seq<ImportEdge>, names: seq<string>): (adj: Adj) {
    seq(|names|, i requires 0 <= i < |names| => Indices(names, Outgoing(edges, names[i])))
  }

  lemma AdjIsImports(edges: seq<ImportEdge>, names: seq<string>, u: nat, v: nat)
    requires Distinct(names) && u < |names| && v < |names|
    ensures Edge(AdjOf(edges, names), u, v) <==> Imports(edges, names[u], names[v])
  {
    IndicesMember(names, Outgoing(edges, names[u]), v);
    OutgoingIsImports(edges, names[u], names[v]);
  }

  lemma AdjWellFormed(edges: seq<ImportEdge>, names: seq<string>)
    ensures WellFormed(AdjOf(edges, names))
  {
  }

  lemma ReachLoads(edges: seq<ImportEdge>, names: seq<string>, u: nat, v: nat)
    requires Distinct(names) && u < |names| && v < |names| && Reach(AdjOf(edges, names), u, v)
    ensures Loads(edges, names[u], names[v])
  {
    var adj := AdjOf(edges, names);
    var p :| IsPath(adj, p, u, v);
    var q := seq(|p|, i requires 0 <= i < |p| => names[p[i]]);
    forall i | 0 <= i < |q| - 1 ensures ImportHop(edges, q, i) {
      assert Hop(adj, p, i);
      AdjIsImports(edges, names, p[i], p[i + 1]);
    }
    assert ImportPath(edges, q, names[u], names[v]);
  }

  lemma PathStaysNamed(edges: seq<ImportEdge>, q: seq<string>, a: string, b: string)
    requires ImportPath(edges, q, a, b) && a in NodesOf(edges)
    ensures forall i :: 0 <= i < |q| ==> q[i] in NodesOf(edges)
  {
    forall i | 0 <= i < |q| ensures q[i] in NodesOf(edges) {
      if i > 0 {
        assert ImportHop(edges, q, i - 1);
        ImportsModules(edges, q[i - 1], q[i]);
      }
    }
  }

  function Positions(names: seq<string>, q: seq<string>): (p: seq<nat>)
    requires forall i :: 0 <= i < |q| ==> q[i] in names
    ensures |p| == |q| && forall i :: 0 <= i < |q| ==> p[i] < |names| && names[p[i]] == q[i]
  {
    seq(|q|, i requires 0 <= i < |q| => IndexOf(names, q[i]))
  }

  lemma NamedPathReaches(edges: seq<ImportEdge>, names: seq<string>, q: seq<string>, u: nat, v: nat)
    requires Distinct(names) && u < |names| && v < |names| && ImportPath(edges, q, names[u], names[v])
    requires forall i :: 0 <= i < |q| ==> q[i] in names
    ensures Reach(AdjOf(edges, names), u, v)
  {
    var p := Positions(names, q);
    forall i | 0 <= i < |p| - 1 ensures Hop(AdjOf(edges, names), p, i) {
      assert ImportHop(edges, q, i);
      AdjIsImports(edges, names, p[i], p[i + 1]);
    }
    assert IsPath(AdjOf(edges, names), p, u, v);
  }

  lemma LoadsReach(edges: seq<ImportEdge>, u: nat, v: nat)
    requires var names := NodesOf(edges);
             Distinct(names) && u < |names| && v < |names| && Loads(edges, names[u], names[v])
    ensures Reach(AdjOf(edges, NodesOf(edges)), u, v)
  {
    var names := NodesOf(edges);
    var q :| ImportPath(edges, q, names[u], names[v]);
    PathStaysNamed(edges, q, names[u], names[v]);
    NamedPathReaches(edges, names, q, u, v);
  }

  /** Reaching by index is loading by name. */
  lemma ReachIsLoads(edges: seq<ImportEdge>, u: nat, v: nat)
    requires u < |NodesOf(edges)| && v < |NodesOf(edges)|
    ensures Reach(AdjOf(edges, NodesOf(edges)), u, v) <==> Loads(edges, NodesOf(edges)[u], NodesOf(edges)[v])
  {
    NodesAreModules(edges);
    if Reach(AdjOf(edges, NodesOf(edges)), u, v) {
      ReachLoads(edges, NodesOf(edges), u, v);
    }
    if Loads(edges, NodesOf(edges)[u], NodesOf(edges)[v]) {
      LoadsReach(edges, u, v);
    }
  }

  lemma ImportsModules(edges: seq<ImportEdge>, a: string, b: string)
    requires Imports(edges, a, b)
    ensures a in NodesOf(edges) && b in NodesOf(edges)
  {
    NodesAreModules(edges);
    var i :| 0 <= i < |edges| && edges[i].from == a && edges[i].to == b && !edges[i].kind.TypeOnly?;
    assert IsModule(edges, a) && IsModule(edges, b);
  }

  // ---- The search, in place ----

  /** The components of more than one node, in the order they were closed. */
  ghost function Big(sccs: seq<set<nat>>): seq<set<nat>> {
    if sccs == [] then []
    else Big(sccs[..|sccs| - 1]) + (if |sccs[|sccs| - 1]| > 1 then [sccs[|sccs| - 1]] else [])
  }

  ghost function NamesOf(names: seq<string>, c: set<nat>): set<string>
    requires forall v :: v in c ==> v < |names|
  {
    set v | v in c :: names[v]
  }

  ghost predicate Lists(names: seq<string>, component: seq<string>, c: set<nat>) {
    && (forall v :: v in c ==> v < |names|)
    && Elems(component) == NamesOf(names, c)
    && Distinct(component)
  }

  ghost predicate Reported(names: seq<string>, components: seq<seq<string>>, sccs: seq<set<nat>>) {
    && |components| == |Big(sccs)|
    && forall i :: 0 <= i < |components| ==> Lists(names, components[i], Big(sccs)[i])
  }

  ghost function Unvisited(num: seq<int>): set<nat> {
    set v: nat | v < |num| && num[v] == -1
  }

  lemma FewerUnvisited(s: Search, s': Search, n: nat, at: nat)
    requires Later(s, s', n) && at < n && s.num[at] == -1 && s'.num[at] != -1
    ensures |Unvisited(s'.num)| < |Unvisited(s.num)|
  {
    assert Unvisited(s'.num) < Unvisited(s.num) by {
      assert at in Unvisited(s.num) && at !in Unvisited(s'.num);
    }
    SubsetSmaller(Unvisited(s'.num), Unvisited(s.num));
  }

  lemma SubsetSmaller(a: set<nat>, b: set<nat>)
    requires a < b
    ensures |a| < |b|
  {
    assert |b - a| > 0 by {
      var x :| x in b && x !in a;
      assert x in b - a;
    }
    assert b == a + (b - a);
  }

  /** The top of the stack from `base` on is the component that closes. */
  lemma TopIsSuffix(s: Search, base: nat)
    requires Stacked(s) && base < |s.stack| && On(s, s.stack[base])
    ensures forall v: nat :: v in Top(s, s.num[s.stack[base]]) <==> v in s.stack[base..]
  {
    forall v: nat ensures v in Top(s, s.num[s.stack[base]]) <==> v in s.stack[base..] {
      if v in Top(s, s.num[s.stack[base]]) {
        var i :| 0 <= i < |s.stack| && s.stack[i] == v;
        assert i >= base;
        assert s.stack[base..][i - base] == v;
      }
      if v in s.stack[base..] {
        var i :| 0 <= i < |s.stack[base..]| && s.stack[base..][i] == v;
        assert s.stack[base + i] == v && On(s, v);
      }
    }
  }

  lemma StackInRange(s: Search)
    requires Stacked(s)
    ensures forall i :: 0 <= i < |s.stack| ==> s.stack[i] < |s.num|
  {
    forall i | 0 <= i < |s.stack| ensures s.stack[i] < |s.num| {
      assert On(s, s.stack[i]);
    }
  }

  lemma StackDistinct(s: Search)
    requires Stacked(s)
    ensures Distinct(s.stack)
  {
  }

  /** Closing what was popped, as the search describes it. */
  lemma ClosedBy(s: Search, base: nat, onStack: seq<bool>)
    requires Stacked(s) && |s.low| == |s.num| && base < |s.stack| && On(s, s.stack[base])
    requires Cleared(s.onStack, onStack, s.stack[base..])
    ensures Close(s, base, s.num[s.stack[base]]).onStack == onStack
  {
    TopIsSuffix(s, base);
    var from := s.num[s.stack[base]];
    forall v: nat | v < |onStack| ensures Close(s, base, from).onStack[v] == onStack[v] {
      assert On(s, v) <==> s.onStack[v];
      assert v in Top(s, from) <==> v in s.stack[base..];
    }
  }

  /** The popped names list the closed component, each once. */
  ghost predicate Popped(names: seq<string>, suffix: seq<nat>, component: seq<string>)
  {
    && |component| == |suffix|
    && (forall i :: 0 <= i < |suffix| ==> suffix[i] < |names|)
    && (forall i :: 0 <= i < |suffix| ==> component[i] == names[suffix[|suffix| - 1 - i]])
  }

  lemma PoppedLists(names: seq<string>, s: Search, base: nat, component: seq<string>)
    requires Distinct(names) && Stacked(s) && base < |s.stack| && On(s, s.stack[base]) && |s.num| == |names|
    requires Popped(names, s.stack[base..], component)
    ensures Lists(names, component, Top(s, s.num[s.stack[base]]))
    ensures |component| == |Top(s, s.num[s.stack[base]])|
  {
    var suffix := s.stack[base..];
    var c := Top(s, s.num[s.stack[base]]);
    TopIsSuffix(s, base);
    StackDistinct(s);
    assert Distinct(suffix) by {
      forall i, j | 0 <= i < j < |suffix| ensures suffix[i] != suffix[j] {
        assert s.stack[base + i] != s.stack[base + j];
      }
    }
    DistinctCount(suffix);
    assert c == Elems(suffix);
    PoppedNames(names, suffix, component, c);
  }

  lemma PoppedNames(names: seq<string>, suffix: seq<nat>, component: seq<string>, c: set<nat>)
    requires Distinct(names) && Distinct(suffix) && Popped(names, suffix, component)
    requires c == Elems(suffix)
    ensures Lists(names, component, c)
  {
    forall a ensures a in component <==> a in NamesOf(names, c) {
      if a in component {
        var i :| 0 <= i < |component| && component[i] == a;
        assert suffix[|suffix| - 1 - i] in c;
      }
      if a in NamesOf(names, c) {
        var v :| v in c && names[v] == a;
        var i :| 0 <= i < |suffix| && suffix[i] == v;
        assert component[|suffix| - 1 - i] == a;
      }
    }
    forall i, j | 0 <= i < j < |component| ensures component[i] != component[j] {
      assert suffix[|suffix| - 1 - i] != suffix[|suffix| - 1 - j];
    }
  }

  /** `after` is `before` with the nodes of `gone` off the stack. */
  ghost predicate Cleared(before: seq<bool>, after: seq<bool>, gone: seq<nat>) {
    && |after| == |before|
    && forall v: nat :: v < |after| ==> after[v] == (before[v] && v !in gone)
  }

  lemma PoppedMore(names: seq<string>, before: seq<bool>, after: seq<bool>, full: seq<nat>, top: nat,
                   component: seq<string>)
    requires top < |full| && full[top] < |names| && full[top] < |after|
    requires Cleared(before, after, full[top + 1..]) && Popped(names, full[top + 1..], component)
    ensures Cleared(before, after[full[top] := false], full[top..])
    ensures Popped(names, full[top..], component + [names[full[top]]])
  {
    assert full[top..] == [full[top]] + full[top + 1..];
  }

  lemma ReportOne(names: seq<string>, components: seq<seq<string>>, sccs: seq<set<nat>>,
                  component: seq<string>, c: set<nat>)
    requires Reported(names, components, sccs) && Lists(names, component, c) && |component| == |c|
    ensures Reported(names, if |component| > 1 then components + [component] else components, sccs + [c])
  {
    assert (sccs + [c])[..|sccs|] == sccs;
  }

  class CycleFinder {
    const adj: Adj
    const names: seq<string>
    const num: array<int>
    const low: array<int>
    const onStack: array<bool>
    var stack: seq<nat>
    var counter: nat
    var components: seq<seq<string>>
    ghost var sccs: seq<set<nat>>

    ghost function Abs(): Search
      reads this, num, low, onStack
    {
      Search(num[..], low[..], onStack[..], stack, counter, sccs)
    }

    ghost predicate Valid()
      reads this
    {
      && num.Length == low.Length == onStack.Length == |adj| == |names|
      && num != low
      && WellFormed(adj) && Distinct(names)
      && Reported(names, components, sccs)
    }

    constructor (adj: Adj, names: seq<string>)
      requires |adj| == |names| && WellFormed(adj) && Distinct(names)
      ensures Valid() && this.adj == adj && this.names == names
      ensures fresh(num) && fresh(low) && fresh(onStack)
      ensures Inv(adj, ReachSet(adj), Abs(), {}) && stack == [] && sccs == []
      ensures forall v :: 0 <= v < |adj| ==> Abs().num[v] == -1
    {
      this.adj, this.names := adj, names;
      num := new int[|adj|](_ => -1);
      low := new int[|adj|](_ => 0);
      onStack := new bool[|adj|](_ => false);
      stack, counter, components, sccs := [], 0, [], [];
    }

    /** Visit `at` and everything it leads to. `gray` is the chain of open calls. */
    method Connect(at: nat, ghost gray: set<nat>)
      requires Valid() && CanConnect(adj, ReachSet(adj), Abs(), gray, at)
      modifies this, num, low, onStack
      ensures Valid() && Connected(adj, ReachSet(adj), old(Abs()), Abs(), gray, at)
      decreases |Unvisited(num[..])|, 1
    {
      ghost var s0 := Abs();
      Enter(at, gray);
      var k := 0;
      while k < |adj[at]|
        invariant k <= |adj[at]|
        invariant Valid() && Working(adj, ReachSet(adj), s0, Abs(), gray, at, k)
      {
        Deeper(s0, Abs(), gray, at, k);
        FollowEdge(at, k, s0, gray);
        k := k + 1;
      }
      Leave(at, s0, gray);
    }

    lemma Deeper(s0: Search, s: Search, gray: set<nat>, at: nat, k: nat)
      requires at < |adj| && Working(adj, ReachSet(adj), s0, s, gray, at, k)
      ensures |Unvisited(s.num)| < |Unvisited(s0.num)|
    {
      FewerUnvisited(s0, s, |adj|, at);
    }

    /** Number `at` and put it on the stack. */
    method Enter(at: nat, ghost gray: set<nat>)
      requires Valid() && CanConnect(adj, ReachSet(adj), Abs(), gray, at)
      modifies this`counter, this`stack, num, low, onStack
      ensures Valid() && Working(adj, ReachSet(adj), old(Abs()), Abs(), gray, at, 0)
    {
      ghost var s0 := Abs();
      num[at] := counter;
      low[at] := counter;
      counter := counter + 1;
      stack := stack + [at];
      onStack[at] := true;
      assert Abs() == Visit(s0, at);
      ReachSetCloses(adj);
      VisitStarts(adj, ReachSet(adj), s0, gray, at);
    }

    /** With every edge followed, close the component `at` heads, if it does. */
    method Leave(at: nat, ghost s0: Search, ghost gray: set<nat>)
      requires Valid() && at < |adj| && CanConnect(adj, ReachSet(adj), s0, gray, at)
      requires Working(adj, ReachSet(adj), s0, Abs(), gray, at, |adj[at]|)
      modifies this, onStack
      ensures Valid() && Connected(adj, ReachSet(adj), s0, Abs(), gray, at)
    {
      ReachSetCloses(adj);
      if low[at] == num[at] {
        CanCloseNow(s0, Abs(), gray, at);
        CloseComponent(at, s0, gray);
      } else {
        Stays(adj, ReachSet(adj), s0, Abs(), gray, at);
      }
    }

    lemma CanCloseNow(s0: Search, s: Search, gray: set<nat>, at: nat)
      requires at < |adj| && CanConnect(adj, ReachSet(adj), s0, gray, at)
      requires Working(adj, ReachSet(adj), s0, s, gray, at, |adj[at]|) && s.low[at] == s.num[at]
      ensures CanClose(adj, ReachSet(adj), s0, s, gray, at) && Numbered(s0, |adj|)
    {
      forall g | g in gray ensures g < |adj| && -1 < s0.num[g] < s0.counter {
        assert On(s0, g);
      }
    }

    /** One neighbour: visit it if it is new, or take its number if it is on
        the stack. */
    method FollowEdge(at: nat, k: nat, ghost s0: Search, ghost gray: set<nat>)
      requires Valid() && at < |adj| && k < |adj[at]|
      requires Working(adj, ReachSet(adj), s0, Abs(), gray, at, k)
      requires forall g :: g in gray ==> (g, at) in ReachSet(adj)
      modifies this, num, low, onStack
      ensures Valid() && Working(adj, ReachSet(adj), s0, Abs(), gray, at, k + 1)
      decreases |Unvisited(num[..])|, 3
    {
      if num[adj[at][k]] == -1 {
        FollowNewEdge(at, k, s0, gray);
      } else {
        ghost var s := Abs();
        var next := adj[at][k];
        ReachSetCloses(adj);
        OldEdge(adj, ReachSet(adj), s0, s, gray, at, k);
        if onStack[next] {
          TakeLow(at, num[next]);
        }
      }
    }

    /** The edge leads to a node not yet visited: visit it first. */
    method FollowNewEdge(at: nat, k: nat, ghost s0: Search, ghost gray: set<nat>)
      requires Valid() && at < |adj| && k < |adj[at]| && num[adj[at][k]] == -1
      requires Working(adj, ReachSet(adj), s0, Abs(), gray, at, k)
      requires forall g :: g in gray ==> (g, at) in ReachSet(adj)
      modifies this, num, low, onStack
      ensures Valid() && Working(adj, ReachSet(adj), s0, Abs(), gray, at, k + 1)
      decreases |Unvisited(num[..])|, 2
    {
      ghost var s := Abs();
      var next := adj[at][k];
      Descends(s0, s, gray, at, k);
      Connect(next, gray + {at});
      Ascends(s0, s, Abs(), gray, at, k);
      TakeLow(at, low[next]);
    }

    method TakeLow(at: nat, to: int)
      requires Valid() && at < |adj|
      modifies low
      ensures Valid() && Abs() == Lower(old(Abs()), at, to)
    {
      ghost var s := Abs();
      if to < low[at] { low[at] := to; }
      assert Abs() == Lower(s, at, to);
    }

    lemma Descends(s0: Search, s: Search, gray: set<nat>, at: nat, k: nat)
      requires WellFormed(adj) && at < |adj| && k < |adj[at]| && Working(adj, ReachSet(adj), s0, s, gray, at, k)
      requires s.num[adj[at][k]] == -1 && forall g :: g in gray ==> (g, at) in ReachSet(adj)
      ensures CanConnect(adj, ReachSet(adj), s, gray + {at}, adj[at][k])
    {
      ReachSetCloses(adj);
      assert Edge(adj, at, adj[at][k]);
      CanDescend(adj, ReachSet(adj), s, gray, at, adj[at][k]);
    }

    lemma Ascends(s0: Search, s: Search, s1: Search, gray: set<nat>, at: nat, k: nat)
      requires WellFormed(adj) && at < |adj| && k < |adj[at]| && Working(adj, ReachSet(adj), s0, s, gray, at, k)
      requires s.num[adj[at][k]] == -1 && Connected(adj, ReachSet(adj), s, s1, gray + {at}, adj[at][k])
      ensures Working(adj, ReachSet(adj), s0, Lower(s1, at, s1.low[adj[at][k]]), gray, at, k + 1)
    {
      ReachSetCloses(adj);
      NewEdge(adj, ReachSet(adj), s0, s, s1, gray, at, k);
    }

    method CloseComponent(at: nat, ghost s0: Search, ghost gray: set<nat>)
      requires Valid() && at < |adj| && Numbered(s0, |adj|)
      requires CanClose(adj, ReachSet(adj), s0, Abs(), gray, at)
      modifies this, onStack
      ensures Valid() && Connected(adj, ReachSet(adj), s0, Abs(), gray, at)
    {
      ghost var s := Abs();
      ghost var base := |s0.stack|;
      StackInRange(s);
      StackDistinct(s);
      var component := PopTo(at, base);
      ClosedBy(s, base, onStack[..]);
      PoppedLists(names, s, base, component);
      ReportOne(names, components, sccs, component, Top(s, s.num[at]));
      if |component| > 1 { components := components + [component]; }
      sccs := sccs + [Top(s, s.num[at])];
      assert Abs() == Close(s, base, s.num[at]);
      ReachSetCloses(adj);
      ReachSetTight(adj);
      Closes(adj, ReachSet(adj), s0, s, gray, at);
    }

    /** Pop the stack down to and including `at`. */
    method PopTo(at: nat, ghost base: nat) returns (component: seq<string>)
      requires Valid() && (forall i :: 0 <= i < |stack| ==> stack[i] < |adj|)
      requires base < |stack| && stack[base] == at && Distinct(stack)
      modifies this`stack, onStack
      ensures Valid() && stack == old(stack)[..base]
      ensures Cleared(old(onStack[..]), onStack[..], old(stack)[base..])
      ensures Popped(names, old(stack)[base..], component)
    {
      ghost var full, before := stack, onStack[..];
      component := [];
      assert full[|full|..] == [];
      var open := true;
      while open
        invariant Valid()
        invariant stack == full[..|stack|] && base + (if open then 1 else 0) <= |stack| <= |full|
        invariant !open ==> |stack| == base
        invariant Cleared(before, onStack[..], full[|stack|..])
        invariant Popped(names, full[|stack|..], component)
        decreases |stack|, open
      {
        ghost var top := |stack| - 1;
        PoppedMore(names, before, onStack[..], full, top, component);
        ghost var was := onStack[..];
        var node := stack[|stack| - 1];
        stack := stack[..|stack| - 1];
        onStack[node] := false;
        component := component + [names[node]];
        open := node != at;
        assert node == full[top] && onStack[..] == was[node := false];
      }
    }
  }

  // ---- What the check reports ----

  ghost predicate MutuallyLoad(edges: seq<ImportEdge>, a: string, b: string) {
    Loads(edges, a, b) && Loads(edges, b, a)
  }

  /** Each list is a whole class of modules that load each other, more than one
      of them, each named once; no class of more than one is missing and none
      is listed twice. */
  ghost predicate ExactlyTheCycles(edges: seq<ImportEdge>, components: seq<seq<string>>) {
    && (forall i :: 0 <= i < |components| ==> |components[i]| > 1 && Distinct(components[i]))
    && (forall i, a, b :: 0 <= i < |components| && a in components[i] ==>
          (b in components[i] <==> MutuallyLoad(edges, a, b)))
    && (forall a, b :: a != b && MutuallyLoad(edges, a, b) ==>
          exists i :: 0 <= i < |components| && a in components[i])
    && (forall i, j, a :: 0 <= i < j < |components| && a in components[i] ==> a !in components[j])
  }

  /** Every module is after all it imports, itself aside. */
  ghost predicate LoadOrder(edges: seq<ImportEdge>, order: seq<string>) {
    && Distinct(order)
    && (forall a :: IsModule(edges, a) ==> a in order)
    && (forall a, b :: Imports(edges, a, b) && a != b ==> Before(order, b, a))
  }

  ghost predicate Before(order: seq<string>, b: string, a: string) {
    exists i, j :: 0 <= i < j < |order| && order[i] == b && order[j] == a
  }

  /** The search once every node is closed. */
  ghost predicate Complete(adj: Adj, s: Search) {
    && Sized(s, |adj|)
    && SccsTrue(ReachSet(adj), s) && OrderTrue(adj, s)
    && forall v: nat :: v < |adj| ==> Done(s, v)
  }

  lemma AllVisitedIsComplete(adj: Adj, s: Search)
    requires Inv(adj, ReachSet(adj), s, {}) && forall v :: 0 <= v < |adj| ==> s.num[v] != -1
    ensures Complete(adj, s)
  {
    forall v: nat | v < |adj| ensures Done(s, v) {
      assert On(s, v) ==> HasReturn(ReachSet(adj), s, {}, v);
    }
  }

  lemma {:induction false} BigMembers(sccs: seq<set<nat>>)
    ensures forall c :: c in Big(sccs) <==> c in sccs && |c| > 1
    decreases |sccs|
  {
    if sccs != [] {
      BigMembers(sccs[..|sccs| - 1]);
      assert sccs == sccs[..|sccs| - 1] + [sccs[|sccs| - 1]];
    }
  }

  ghost predicate Disjoint(sccs: seq<set<nat>>) {
    forall i, j :: 0 <= i < j < |sccs| ==> sccs[i] !! sccs[j]
  }

  lemma {:induction false} BigDisjoint(sccs: seq<set<nat>>)
    requires Disjoint(sccs)
    ensures Disjoint(Big(sccs))
    decreases |sccs|
  {
    if sccs != [] {
      var init, last := sccs[..|sccs| - 1], sccs[|sccs| - 1];
      BigDisjoint(init);
      BigMembers(init);
      forall i | 0 <= i < |Big(init)| ensures Big(init)[i] !! last {
        assert Big(init)[i] in init;
        var k :| 0 <= k < |init| && init[k] == Big(init)[i];
        assert sccs[k] !! sccs[|sccs| - 1];
      }
    }
  }

  lemma LoadedIsModule(edges: seq<ImportEdge>, a: string, b: string)
    requires Loads(edges, a, b) && a != b
    ensures a in NodesOf(edges) && b in NodesOf(edges)
  {
    var p :| ImportPath(edges, p, a, b);
    assert ImportHop(edges, p, 0);
    ImportsModules(edges, p[0], p[1]);
    var k := |p| - 2;
    assert ImportHop(edges, p, k);
    ImportsModules(edges, p[k], p[k + 1]);
  }

  lemma MutualIsRelated(edges: seq<ImportEdge>, u: nat, v: nat)
    requires u < |NodesOf(edges)| && v < |NodesOf(edges)|
    ensures var names, r := NodesOf(edges), ReachSet(AdjOf(edges, NodesOf(edges)));
            MutuallyLoad(edges, names[u], names[v]) <==> (u, v) in r && (v, u) in r
  {
    ReachIsLoads(edges, u, v);
    ReachIsLoads(edges, v, u);
  }

  /** One listed component is the class of each of its members. */
  lemma ListedClass(edges: seq<ImportEdge>, component: seq<string>, c: set<nat>, a: string, b: string)
    requires var names := NodesOf(edges);
             && Distinct(names) && Lists(names, component, c)
             && SccIn(ReachSet(AdjOf(edges, names)), |names|, c)
    requires a in component
    ensures b in component <==> MutuallyLoad(edges, a, b)
  {
    var names := NodesOf(edges);
    assert a in Elems(component);
    var u :| u in c && names[u] == a;
    if b in component {
      assert b in Elems(component);
      var v :| v in c && names[v] == b;
      MutualIsRelated(edges, u, v);
    }
    if MutuallyLoad(edges, a, b) {
      if a != b {
        LoadedIsModule(edges, a, b);
        var v := IndexOf(names, b);
        MutualIsRelated(edges, u, v);
        assert v in c;
        assert b in NamesOf(names, c);
        assert b in Elems(component);
      }
    }
  }

  /** A node of a class with another member sits in a reported component. */
  lemma ClassIsListed(edges: seq<ImportEdge>, components: seq<seq<string>>, s: Search, a: string, b: string)
    requires var names := NodesOf(edges);
             Distinct(names) && Complete(AdjOf(edges, names), s) && Reported(names, components, s.sccs)
    requires a != b && MutuallyLoad(edges, a, b)
    ensures exists i :: 0 <= i < |components| && a in components[i]
  {
    var names := NodesOf(edges);
    LoadedIsModule(edges, a, b);
    var u, v := IndexOf(names, a), IndexOf(names, b);
    MutualIsRelated(edges, u, v);
    assert Done(s, u);
    var k :| 0 <= k < |s.sccs| && u in s.sccs[k];
    var c := s.sccs[k];
    assert SccIn(ReachSet(AdjOf(edges, names)), |names|, c);
    assert v in c;
    TwoMembers(c, u, v);
    BigMembers(s.sccs);
    assert c in s.sccs && c in Big(s.sccs);
    var i :| 0 <= i < |Big(s.sccs)| && Big(s.sccs)[i] == c;
    assert a in NamesOf(names, c);
    assert a in Elems(components[i]);
  }

  lemma TwoMembers(c: set<nat>, u: nat, v: nat)
    requires u in c && v in c && u != v
    ensures |c| > 1
  {
    assert {u, v} <= c;
    var rest := c - {u};
    assert v in rest && |rest| > 0;
  }

  lemma ListedSize(names: seq<string>, component: seq<string>, c: set<nat>)
    requires Distinct(names) && Lists(names, component, c) && |c| > 1
    ensures |component| > 1
  {
    assert exists u :: u in c by { if forall u :: u !in c { assert false; } }
    var u :| u in c;
    assert |c - {u}| > 0;
    assert exists v :: v in c - {u} by { if forall v :: v !in c - {u} { assert false; } }
    var v :| v in c - {u};
    assert names[u] in NamesOf(names, c) && names[v] in NamesOf(names, c);
    assert names[u] in Elems(component) && names[v] in Elems(component);
    assert names[u] != names[v];
  }

  lemma ReportIsExact(edges: seq<ImportEdge>, components: seq<seq<string>>, s: Search)
    requires var names := NodesOf(edges);
             Complete(AdjOf(edges, names), s) && Reported(names, components, s.sccs)
    ensures ExactlyTheCycles(edges, components)
  {
    var names := NodesOf(edges);
    var big := Big(s.sccs);
    NodesAreModules(edges);
    BigMembers(s.sccs);
    forall i | 0 <= i < |components|
      ensures SccIn(ReachSet(AdjOf(edges, names)), |names|, big[i]) && |big[i]| > 1
    {
      assert big[i] in big;
    }
    forall i | 0 <= i < |components| ensures |components[i]| > 1 && Distinct(components[i]) {
      ListedSize(names, components[i], big[i]);
    }
    forall i, a, b | 0 <= i < |components| && a in components[i]
      ensures b in components[i] <==> MutuallyLoad(edges, a, b)
    {
      ListedClass(edges, components[i], big[i], a, b);
    }
    forall a, b | a != b && MutuallyLoad(edges, a, b) ensures exists i :: 0 <= i < |components| && a in components[i] {
      ClassIsListed(edges, components, s, a, b);
    }
    BigDisjoint(s.sccs);
    forall i, j, a | 0 <= i < j < |components| && a in components[i] ensures a !in components[j] {
      SeparateLists(names, components[i], components[j], big[i], big[j], a);
    }
  }

  lemma SeparateLists(names: seq<string>, x: seq<string>, y: seq<string>, c: set<nat>, d: set<nat>, a: string)
    requires Distinct(names) && Lists(names, x, c) && Lists(names, y, d) && c !! d
    requires a in x
    ensures a !in y
  {
    assert a in Elems(x);
    var u :| u in c && names[u] == a;
    forall v | v in d ensures names[v] != a {
      assert u != v;
    }
    assert a !in NamesOf(names, d);
    assert a in y ==> a in Elems(y);
  }

  // ---- No cycles means a load order ----

  ghost function Only(c: set<nat>): nat
    requires |c| == 1
  {
    var v :| v in c; v
  }

  lemma OnlyMember(c: set<nat>, v: nat)
    requires |c| == 1 && v in c
    ensures Only(c) == v
  {
    if Only(c) != v { TwoMembers(c, v, Only(c)); }
  }

  /** Every component is one node of the graph. */
  ghost predicate Singles(sccs: seq<set<nat>>, n: nat) {
    forall i :: 0 <= i < |sccs| ==> |sccs[i]| == 1 && Only(sccs[i]) < n
  }

  /** The modules in the order their components closed. */
  ghost function ClosingOrder(names: seq<string>, sccs: seq<set<nat>>): (order: seq<string>)
    requires Singles(sccs, |names|)
    ensures |order| == |sccs| && forall i :: 0 <= i < |sccs| ==> order[i] == names[Only(sccs[i])]
  {
    seq(|sccs|, i requires 0 <= i < |sccs| => names[Only(sccs[i])])
  }

  lemma NoBigIsSingles(adj: Adj, s: Search)
    requires Complete(adj, s) && Big(s.sccs) == []
    ensures Singles(s.sccs, |adj|)
  {
    BigMembers(s.sccs);
    forall i | 0 <= i < |s.sccs| ensures |s.sccs[i]| == 1 && Only(s.sccs[i]) < |adj| {
      assert s.sccs[i] in s.sccs;
      assert SccIn(ReachSet(adj), |adj|, s.sccs[i]);
    }
  }

  lemma ClosingOrderDistinct(names: seq<string>, sccs: seq<set<nat>>)
    requires Distinct(names) && Singles(sccs, |names|) && Disjoint(sccs)
    ensures Distinct(ClosingOrder(names, sccs))
  {
    var order := ClosingOrder(names, sccs);
    forall i, j | 0 <= i < j < |order| ensures order[i] != order[j] {
      assert sccs[i] !! sccs[j];
    }
  }

  lemma Slot(names: seq<string>, adj: Adj, s: Search, u: nat) returns (i: nat)
    requires |adj| == |names| && Complete(adj, s) && Singles(s.sccs, |names|) && u < |adj|
    ensures i < |s.sccs| && u in s.sccs[i] && ClosingOrder(names, s.sccs)[i] == names[u]
  {
    assert Done(s, u);
    i :| 0 <= i < |s.sccs| && u in s.sccs[i];
    OnlyMember(s.sccs[i], u);
  }

  lemma ClosedNoLater(adj: Adj, s: Search, i: nat, u: nat, v: nat) returns (j: nat)
    requires OrderTrue(adj, s) && i < |s.sccs| && u in s.sccs[i] && Edge(adj, u, v)
    ensures j <= i && v in s.sccs[j]
  {
    j :| 0 <= j <= i && v in s.sccs[j];
  }

  lemma SlotsInOrder(names: seq<string>, sccs: seq<set<nat>>, i: nat, j: nat, u: nat, v: nat)
    requires Singles(sccs, |names|) && u < |names| && v < |names| && u != v
    requires j <= i < |sccs| && u in sccs[i] && v in sccs[j]
    ensures Before(ClosingOrder(names, sccs), names[v], names[u])
  {
    OnlyMember(sccs[i], u);
    OnlyMember(sccs[j], v);
  }

  lemma EdgeClosesFirst(names: seq<string>, adj: Adj, s: Search, u: nat, v: nat)
    requires |adj| == |names| && Complete(adj, s) && Singles(s.sccs, |names|)
    requires u < |adj| && v < |adj| && u != v && Edge(adj, u, v)
    ensures Before(ClosingOrder(names, s.sccs), names[v], names[u])
  {
    var i := Slot(names, adj, s, u);
    var j := ClosedNoLater(adj, s, i, u, v);
    SlotsInOrder(names, s.sccs, i, j, u, v);
  }

  lemma NoCyclesMeansOrder(edges: seq<ImportEdge>, s: Search)
    requires Complete(AdjOf(edges, NodesOf(edges)), s) && Big(s.sccs) == []
    ensures exists order :: LoadOrder(edges, order)
  {
    var names := NodesOf(edges);
    var adj := AdjOf(edges, names);
    NodesAreModules(edges);
    NoBigIsSingles(adj, s);
    var order := ClosingOrder(names, s.sccs);
    ClosingOrderDistinct(names, s.sccs);
    forall a | IsModule(edges, a) ensures a in order {
      var i := Slot(names, adj, s, IndexOf(names, a));
    }
    forall a, b | Imports(edges, a, b) && a != b ensures Before(order, b, a) {
      ImportsModules(edges, a, b);
      var u, v := IndexOf(names, a), IndexOf(names, b);
      AdjIsImports(edges, names, u, v);
      EdgeClosesFirst(names, adj, s, u, v);
    }
    assert LoadOrder(edges, order);
  }

  /** The search over every node in turn. */
  method SearchAll(adj: Adj, names: seq<string>) returns (components: seq<seq<string>>, ghost s: Search)
    requires |adj| == |names| && WellFormed(adj) && Distinct(names)
    ensures Complete(adj, s) && Reported(names, components, s.sccs)
  {
    var finder := new CycleFinder(adj, names);
    for at := 0 to |adj|
      invariant finder.Valid() && finder.adj == adj && finder.names == names
      invariant fresh(finder.num) && fresh(finder.low) && fresh(finder.onStack) && fresh(finder)
      invariant Inv(adj, ReachSet(adj), finder.Abs(), {})
      invariant forall v :: 0 <= v < at ==> finder.Abs().num[v] != -1
    {
      if finder.num[at] == -1 {
        finder.Connect(at, {});
      }
    }
    s := finder.Abs();
    AllVisitedIsComplete(adj, s);
    components := finder.components;
  }

  /** `cyclesOf`: exactly the strongly connected components of more than one
      module over the imports that are not type-only; when it reports none, the
      modules can be put in an order where each follows what it imports. */
  method CyclesOf(edges: seq<ImportEdge>) returns (components: seq<seq<string>>)
    ensures ExactlyTheCycles(edges, components)
    ensures components == [] ==> exists order :: LoadOrder(edges, order)
  {
    var names := NodesOf(edges);
    var adj := AdjOf(edges, names);
    NodesAreModules(edges);
    AdjWellFormed(edges, names);
    ghost var s;
    components, s := SearchAll(adj, names);
    ReportIsExact(edges, components, s);
    if components == [] {
      NoCyclesMeansOrder(edges, s);
    }
  }
}
