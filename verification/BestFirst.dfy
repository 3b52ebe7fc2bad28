// A naive best-first search over an abstract graph, and what it finds.
//
// The open list is a multiset from which the least node is taken; entries are
// deleted lazily and a closed vertex is never reopened. Vertices are numbers and
// the graph is a record of functions, so nothing here depends on tiles.

module BestFirst {
  import opened Heap

  /** `next(u, k)` is the vertex that direction `k` leads to, or -1; `w` is the
      cost of a move, `h` the estimate of what remains, `x` and `y` break ties. */
  datatype Graph = Graph(
    start: int, goal: int,
    next: (int, int) -> int, w: (int, int) -> int, h: int -> int,
    x: int -> int, y: int -> int)

  const DIRECTIONS := 8

  datatype Search = Search(g: map<int, int>, from: map<int, int>, closed: set<int>, open: multiset<Node>)

  datatype Outcome = Reached(last: Search) | Exhausted(last: Search) | OverLimit(last: Search)

  ghost function NodeOf(G: Graph, v: int, gv: int): Node {
    Node(v, gv + G.h(v), G.h(v), G.x(v), G.y(v))
  }

  ghost function Start(G: Graph): Search {
    Search(map[G.start := 0], map[G.start := -1], {}, multiset{NodeOf(G, G.start, 0)})
  }

  // ---------------------------------------------------------------------
  // The search
  // ---------------------------------------------------------------------

  /** Looks at the move from `u` in direction `k`. */
  ghost function Relax(G: Graph, s: Search, u: int, k: int): Search
    requires u in s.g
  {
    var v := G.next(u, k);
    if v < 0 || v in s.closed then s else
    var t := s.g[u] + G.w(u, v);
    if v in s.g && t >= s.g[v] then s else
    s.(g := s.g[v := t], from := s.from[v := u], open := s.open + multiset{NodeOf(G, v, t)})
  }

  /** One move of a tile changes nothing but the cost and the parent of the vertex that
      it leads to, only if that is not closed and comes out strictly cheaper or was not
      known, and with a new node for it in the open list. */
  lemma RelaxMeans(G: Graph, s: Search, u: int, k: int, v: int)
    requires u in s.g && s.from.Keys == s.g.Keys
    ensures var r, t := Relax(G, s, u, k), s.g[u] + G.w(u, v);
      var better := G.next(u, k) == v >= 0 && v !in s.closed && (v !in s.g || t < s.g[v]);
      && r.closed == s.closed && r.from.Keys == r.g.Keys
      && (better ==> v in r.g && r.g[v] == t && r.from[v] == u
                     && r.open == s.open + multiset{Node(v, t + G.h(v), G.h(v), G.x(v), G.y(v))})
      && (!better ==> (v in r.g <==> v in s.g) && (v in s.g ==> r.g[v] == s.g[v] && r.from[v] == s.from[v])
                      && (G.next(u, k) == v ==> r.open == s.open))
  {
  }

  lemma RelaxSkips(G: Graph, s: Search, u: int, k: int)
    requires u in s.g
    requires var v := G.next(u, k);
             v < 0 || v in s.closed || (v in s.g && s.g[u] + G.w(u, v) >= s.g[v])
    ensures Relax(G, s, u, k) == s
  {}

  lemma RelaxRecords(G: Graph, s: Search, u: int, k: int, v: int, t: int)
    requires u in s.g && v == G.next(u, k) >= 0 && v !in s.closed
    requires t == s.g[u] + G.w(u, v) && (v in s.g ==> t < s.g[v])
    ensures Relax(G, s, u, k) ==
            Search(s.g[v := t], s.from[v := u], s.closed, s.open + multiset{NodeOf(G, v, t)})
  {}

  /** Looks at the first `k` moves from the closed vertex `u`. */
  ghost function Expand(G: Graph, s: Search, u: int, k: nat): (r: Search)
    requires u in s.g && u in s.closed
    ensures r.closed == s.closed && s.g.Keys <= r.g.Keys && r.g[u] == s.g[u]
  {
    if k == 0 then s else Relax(G, Expand(G, s, u, k - 1), u, k - 1)
  }

  lemma {:induction false} LeastExists(open: multiset<Node>)
    requires |open| > 0
    ensures exists n :: IsLeast(open, n)
    decreases |open|
  {
    var n :| n in open;
    var rest := open - multiset{n};
    assert forall m | m in open :: m == n || m in rest;
    if |rest| == 0 {
      assert IsLeast(open, n);
    } else {
      LeastExists(rest);
      var m :| IsLeast(rest, m);
      assert IsLeast(open, if Less(n, m) then n else m);
    }
  }

  /** What a scan of the whole open list finds. */
  ghost function Least(open: multiset<Node>): (n: Node)
    requires |open| > 0
    ensures IsLeast(open, n)
  {
    LeastExists(open);
    var n :| IsLeast(open, n);
    n
  }

  ghost function Pop(s: Search): (r: Search)
    requires |s.open| > 0
    ensures |r.open| < |s.open|
  {
    s.(open := s.open - multiset{Least(s.open)})
  }

  ghost function Close(s: Search, u: int): Search {
    s.(closed := s.closed + {u})
  }

  /** Every node in the open list has a cost: what the search relies on. */
  ghost predicate Known(s: Search) {
    forall n | n in s.open :: n.idx in s.g
  }

  lemma {:induction false} ExpandKnown(G: Graph, s: Search, u: int, k: nat)
    requires u in s.g && u in s.closed && Known(s)
    ensures Known(Expand(G, s, u, k))
  {
    if k > 0 {
      ExpandKnown(G, s, u, k - 1);
    }
  }

  /** The search from `s`, when `expanded` vertices have already been expanded. */
  ghost function Run(G: Graph, s: Search, expanded: nat, maxNodes: nat): Outcome
    requires Known(s) && expanded <= maxNodes
    decreases maxNodes - expanded, |s.open|
  {
    if |s.open| == 0 then Exhausted(s) else
    var u := Least(s.open).idx;
    var p := Pop(s);
    if u in s.closed then Run(G, p, expanded, maxNodes) else
    var c := Close(p, u);
    if u == G.goal then Reached(c) else
    if expanded + 1 > maxNodes then OverLimit(c) else
    ExpandKnown(G, c, u, DIRECTIONS);
    Run(G, Expand(G, c, u, DIRECTIONS), expanded + 1, maxNodes)
  }

  /** One turn of the search, case by case. */
  lemma RunTurn(G: Graph, s: Search, expanded: nat, maxNodes: nat)
    requires Known(s) && expanded <= maxNodes
    ensures |s.open| == 0 ==> Run(G, s, expanded, maxNodes) == Exhausted(s)
    ensures |s.open| > 0 ==>
              var u := Least(s.open).idx;
              var c := Close(Pop(s), u);
              && u in s.g
              && (u in s.closed ==>
                    && Known(Pop(s)) && Pop(s).closed == s.closed
                    && Run(G, s, expanded, maxNodes) == Run(G, Pop(s), expanded, maxNodes))
              && (u !in s.closed && u == G.goal ==> Run(G, s, expanded, maxNodes) == Reached(c))
              && (u !in s.closed && u != G.goal && expanded == maxNodes ==>
                    Run(G, s, expanded, maxNodes) == OverLimit(c))
              && (u !in s.closed && u != G.goal && expanded < maxNodes ==>
                    && u in c.g && u in c.closed
                    && Known(Expand(G, c, u, DIRECTIONS))
                    && Expand(G, c, u, DIRECTIONS).closed == s.closed + {u}
                    && Run(G, s, expanded, maxNodes) ==
                       Run(G, Expand(G, c, u, DIRECTIONS), expanded + 1, maxNodes))
  {
    if |s.open| > 0 && Least(s.open).idx !in s.closed {
      ExpandKnown(G, Close(Pop(s), Least(s.open).idx), Least(s.open).idx, DIRECTIONS);
    }
  }

  /** Vertices that a search from `s` has expanded, those before it included. */
  ghost function Expanded(s: Search, expanded: nat, o: Outcome): int {
    expanded + |o.last.closed| - |s.closed| - if o.Reached? then 1 else 0
  }

  /** What a limit does: a search that ends in another way is stopped by a limit exactly
      if it expands more vertices than that, and is not changed by it otherwise. */
  lemma {:induction false} LimitMeans(G: Graph, s: Search, expanded: nat, limit: nat, large: nat)
    requires Known(s) && expanded <= limit && expanded <= large && !Run(G, s, expanded, large).OverLimit?
    ensures var o := Run(G, s, expanded, large);
      && (Expanded(s, expanded, o) <= limit ==> Run(G, s, expanded, limit) == o)
      && (Expanded(s, expanded, o) > limit ==> Run(G, s, expanded, limit).OverLimit?)
    decreases large - expanded, |s.open|
  {
    hide Run, Expand, Known;
    RunTurn(G, s, expanded, limit);
    RunTurn(G, s, expanded, large);
    var o := Run(G, s, expanded, large);
    if |s.open| > 0 {
      var u := Least(s.open).idx;
      var c := Close(Pop(s), u);
      if u in s.closed {
        LimitMeans(G, Pop(s), expanded, limit, large);
      } else {
        assert |s.closed + {u}| == |s.closed| + 1;
        if u != G.goal {
          assert expanded < large;
          var e := Expand(G, c, u, DIRECTIONS);
          if expanded < limit {
            LimitMeans(G, e, expanded + 1, limit, large);
          } else {
            ClosesMore(G, e, expanded + 1, large);
          }
        }
      }
    }
  }

  lemma {:induction false} ClosesMore(G: Graph, s: Search, expanded: nat, maxNodes: nat)
    requires Known(s) && expanded <= maxNodes
    ensures var o := Run(G, s, expanded, maxNodes);
      |o.last.closed| >= |s.closed| + if o.Reached? then 1 else 0
    decreases maxNodes - expanded, |s.open|
  {
    hide Run, Expand, Known;
    RunTurn(G, s, expanded, maxNodes);
    if |s.open| > 0 {
      var u := Least(s.open).idx;
      var c := Close(Pop(s), u);
      if u in s.closed {
        ClosesMore(G, Pop(s), expanded, maxNodes);
      } else {
        assert |s.closed + {u}| == |s.closed| + 1;
        if u != G.goal && expanded < maxNodes {
          ClosesMore(G, Expand(G, c, u, DIRECTIONS), expanded + 1, maxNodes);
        }
      }
    }
  }

  // ---------------------------------------------------------------------
  // Paths
  // ---------------------------------------------------------------------

  ghost predicate Move(G: Graph, u: int, v: int) {
    0 <= v && exists k | 0 <= k < DIRECTIONS :: G.next(u, k) == v
  }

  ghost predicate IsPath(G: Graph, p: seq<int>) {
    && |p| > 0 && p[0] == G.start
    && forall i | 0 < i < |p| :: Move(G, p[i - 1], p[i])
  }

  ghost function Cost(G: Graph, p: seq<int>): int {
    if |p| <= 1 then 0 else Cost(G, p[..|p| - 1]) + G.w(p[|p| - 2], p[|p| - 1])
  }

  ghost predicate PositiveMoves(G: Graph) {
    forall u, v | Move(G, u, v) :: G.w(u, v) > 0
  }

  /** The estimate never falls by more than the cost of a move. */
  ghost predicate Consistent(G: Graph) {
    && G.h(G.goal) == 0
    && forall u, v | Move(G, u, v) :: G.h(u) <= G.w(u, v) + G.h(v)
  }

  // ---------------------------------------------------------------------
  // What every step keeps
  // ---------------------------------------------------------------------

  ghost predicate ParentOk(G: Graph, s: Search, v: int)
    requires v in s.g
  {
    && v in s.from
    && (v == G.start ==> s.g[v] == 0)
    && (v != G.start ==>
          && s.from[v] in s.closed && s.from[v] in s.g
          && Move(G, s.from[v], v) && s.g[v] == s.g[s.from[v]] + G.w(s.from[v], v))
  }

  ghost predicate NodeOk(G: Graph, s: Search, n: Node) {
    n.idx in s.g && n.f >= s.g[n.idx] + G.h(n.idx) && n == NodeOf(G, n.idx, n.f - G.h(n.idx))
  }

  /** The tree of parents: holds for any graph with positive moves. */
  ghost predicate Tree(G: Graph, s: Search) {
    && G.start in s.g
    && s.closed <= s.g.Keys
    && (forall v | v in s.g :: s.g[v] >= 0)
    && (forall v {:trigger ParentOk(G, s, v)} | v in s.g :: ParentOk(G, s, v))
    && (forall v {:trigger NodeOf(G, v, s.g[v])} | v in s.g && v !in s.closed :: NodeOf(G, v, s.g[v]) in s.open)
    && (forall n {:trigger NodeOk(G, s, n)} | n in s.open :: NodeOk(G, s, n))
  }

  ghost predicate Settled(G: Graph, s: Search, u: int, v: int)
    requires u in s.g
  {
    v in s.g && s.g[v] <= s.g[u] + G.w(u, v)
  }

  /** Every move out of a closed vertex leads to a known vertex; of `u`, only its
      first `k` moves. */
  ghost predicate Discovered(G: Graph, s: Search, u: int, k: int) {
    forall c, j | c in s.closed && 0 <= j < DIRECTIONS && (c == u ==> j < k) && G.next(c, j) >= 0 ::
      G.next(c, j) in s.g
  }

  /** ... and at no more than the cost through it. */
  ghost predicate Tight(G: Graph, s: Search, u: int, k: int)
    requires s.closed <= s.g.Keys
  {
    forall c, j {:trigger G.next(c, j)} | c in s.closed && 0 <= j < DIRECTIONS && (c == u ==> j < k)
                                           && G.next(c, j) >= 0 ::
      Settled(G, s, c, G.next(c, j))
  }

  /** Vertices are closed in the order of their estimates. */
  ghost predicate Monotone(G: Graph, s: Search)
    requires s.closed <= s.g.Keys
  {
    forall c, n | c in s.closed && n in s.open :: s.g[c] + G.h(c) <= n.f
  }

  /** No closed vertex has a greater estimate than `u`. */
  ghost predicate Latest(G: Graph, s: Search, u: int)
    requires u in s.g && s.closed <= s.g.Keys
  {
    forall c | c in s.closed :: s.g[c] + G.h(c) <= s.g[u] + G.h(u)
  }

  /** What holds while the first `k` moves from the last closed vertex are done. */
  ghost predicate Front(G: Graph, s: Search, u: int, k: int) {
    u in s.g && s.closed <= s.g.Keys && Tight(G, s, u, k) && Monotone(G, s) && Latest(G, s, u)
  }

  lemma TreeKnown(G: Graph, s: Search)
    requires Tree(G, s)
    ensures Known(s)
  {
    forall n | n in s.open ensures n.idx in s.g {
      assert NodeOk(G, s, n);
    }
  }

  lemma HasNode(G: Graph, s: Search, v: int)
    requires Tree(G, s) && v in s.g
    ensures v in s.closed || NodeOf(G, v, s.g[v]) in s.open
  {}

  lemma TreeRelax(G: Graph, s: Search, u: int, k: int)
    requires PositiveMoves(G) && Tree(G, s) && u in s.closed && 0 <= k < DIRECTIONS
    ensures Tree(G, Relax(G, s, u, k))
  {
    var r, v := Relax(G, s, u, k), G.next(u, k);
    assert s.g[u] >= 0;
    if r != s {
      assert Move(G, u, v);
      assert v != G.start by {
        assert ParentOk(G, s, G.start);
      }
      forall x | x in r.g ensures ParentOk(G, r, x) {
        assert x == v || ParentOk(G, s, x);
      }
      forall n | n in r.open ensures NodeOk(G, r, n) {
        assert n == NodeOf(G, v, r.g[v]) || NodeOk(G, s, n);
      }
    }
  }

  lemma {:induction false} TreeExpand(G: Graph, s: Search, u: int, k: nat)
    requires PositiveMoves(G) && Tree(G, s) && u in s.closed && u in s.g && k <= DIRECTIONS
    ensures Tree(G, Expand(G, s, u, k))
  {
    hide Tree, Relax, PositiveMoves;
    if k > 0 {
      TreeExpand(G, s, u, k - 1);
      TreeRelax(G, Expand(G, s, u, k - 1), u, k - 1);
    }
  }

  /** Popping closes a vertex, or takes out a stale node and changes nothing. */
  lemma TreePop(G: Graph, s: Search)
    requires Tree(G, s) && |s.open| > 0
    ensures var u := Least(s.open).idx;
            u in s.g && Tree(G, Close(Pop(s), u)) && (u in s.closed ==> Close(Pop(s), u) == Pop(s))
  {
    var n := Least(s.open);
    assert NodeOk(G, s, n);
    var r := Close(Pop(s), n.idx);
    forall v | v in r.g ensures ParentOk(G, r, v) {
      assert ParentOk(G, s, v);
    }
    forall m | m in r.open ensures NodeOk(G, r, m) {
      assert NodeOk(G, s, m);
    }
    if n.idx in s.closed {
      assert s.closed + {n.idx} == s.closed;
    }
  }

  // ---------------------------------------------------------------------
  // Completeness
  // ---------------------------------------------------------------------

  lemma {:induction false} DiscoveredExpand(G: Graph, s: Search, u: int, k: nat)
    requires u in s.g && u in s.closed && Discovered(G, s, u, 0) && k <= DIRECTIONS
    requires s.closed <= s.g.Keys
    ensures Discovered(G, Expand(G, s, u, k), u, k)
  {
    if k > 0 {
      DiscoveredExpand(G, s, u, k - 1);
    }
  }

  /** With nothing left to look at, every path stays inside the closed set. */
  lemma {:induction false} PathClosed(G: Graph, s: Search, p: seq<int>)
    requires Tree(G, s) && Discovered(G, s, 0, DIRECTIONS) && |s.open| == 0 && IsPath(G, p)
    ensures p[|p| - 1] in s.closed
  {
    var v := p[|p| - 1];
    if |p| > 1 {
      PathClosed(G, s, p[..|p| - 1]);
      assert Move(G, p[|p| - 2], v);
    }
    HasNode(G, s, v);
  }

  // ---------------------------------------------------------------------
  // Optimality
  // ---------------------------------------------------------------------

  /** The least node carries the current cost of its vertex. */
  lemma LeastIsCurrent(G: Graph, s: Search)
    requires Tree(G, s) && |s.open| > 0
    ensures var n := Least(s.open);
            && n.idx in s.g
            && (n.idx !in s.closed ==> n.f == s.g[n.idx] + G.h(n.idx))
            && forall m | m in s.open :: n.f <= m.f
  {
    var n := Least(s.open);
    assert NodeOk(G, s, n);
    HasNode(G, s, n.idx);
    forall m | m in s.open ensures n.f <= m.f {
      assert !Less(m, n);
    }
  }

  lemma ClosePopTight(G: Graph, s: Search)
    requires Tree(G, s) && Tight(G, s, 0, DIRECTIONS) && Monotone(G, s) && |s.open| > 0
    requires Least(s.open).idx !in s.closed
    ensures var u := Least(s.open).idx;
            var c := Close(Pop(s), u);
            Front(G, c, u, 0)
  {
    var n := Least(s.open);
    var c := Close(Pop(s), n.idx);
    LeastIsCurrent(G, s);
    assert NodeOk(G, s, n);
    forall d, j | d in c.closed && 0 <= j < DIRECTIONS && d != n.idx && G.next(d, j) >= 0
      ensures Settled(G, c, d, G.next(d, j))
    {
      assert Settled(G, s, d, G.next(d, j));
    }
  }

  lemma TightRelax(G: Graph, s: Search, u: int, k: int)
    requires PositiveMoves(G) && Consistent(G) && Tree(G, s) && u in s.closed && 0 <= k < DIRECTIONS
    requires Front(G, s, u, k)
    ensures Front(G, Relax(G, s, u, k), u, k + 1)
  {
    var r, v := Relax(G, s, u, k), G.next(u, k);
    if v >= 0 {
      assert Move(G, u, v);
      assert G.h(u) <= G.w(u, v) + G.h(v);
      assert Settled(G, r, u, v);
    }
    forall d, j | d in r.closed && 0 <= j < DIRECTIONS && (d == u ==> j < k + 1) && G.next(d, j) >= 0
      ensures Settled(G, r, d, G.next(d, j))
    {
      assert (d == u && j == k) || Settled(G, s, d, G.next(d, j));
    }
  }

  lemma {:induction false} TightExpand(G: Graph, s: Search, u: int, k: nat)
    requires PositiveMoves(G) && Consistent(G) && Tree(G, s) && u in s.closed && u in s.g && k <= DIRECTIONS
    requires Front(G, s, u, 0)
    ensures Front(G, Expand(G, s, u, k), u, k)
  {
    hide Tree, Front, Relax, PositiveMoves, Consistent;
    if k > 0 {
      TightExpand(G, s, u, k - 1);
      TreeExpand(G, s, u, k - 1);
      var t := Expand(G, s, u, k - 1);
      TightRelax(G, t, u, k - 1);
      assert Expand(G, s, u, k) == Relax(G, t, u, k - 1);
    }
  }

  /** Along any path the search has already paid no more, or the least estimate
      still open is no more than what the path would cost. */
  lemma {:induction false} FrontierBound(G: Graph, s: Search, p: seq<int>, least: int)
    requires Consistent(G) && Tree(G, s) && Tight(G, s, 0, DIRECTIONS) && IsPath(G, p)
    requires forall n | n in s.open :: least <= n.f
    ensures var v := p[|p| - 1];
            || (v in s.closed && s.g[v] <= Cost(G, p))
            || least <= Cost(G, p) + G.h(v)
  {
    var v := p[|p| - 1];
    if |p| > 1 {
      var q, u := p[..|p| - 1], p[|p| - 2];
      FrontierBound(G, s, q, least);
      assert Move(G, u, v);
      assert u in s.closed && s.g[u] <= Cost(G, q) ==> Settled(G, s, u, v);
    } else {
      assert ParentOk(G, s, v);
    }
    if v in s.g {
      HasNode(G, s, v);
    }
  }

  // ---------------------------------------------------------------------
  // Whole runs
  // ---------------------------------------------------------------------

  /** The path that the parents record, read back from `v`. */
  ghost function Trace(G: Graph, s: Search, v: int): (p: seq<int>)
    requires PositiveMoves(G) && Tree(G, s) && v in s.g
    ensures IsPath(G, p) && p[|p| - 1] == v && Cost(G, p) == s.g[v]
    decreases s.g[v]
  {
    assert ParentOk(G, s, v);
    if v == G.start then [v] else
    assert Move(G, s.from[v], v);
    var q := Trace(G, s, s.from[v]);
    assert (q + [v])[..|q|] == q;
    q + [v]
  }

  lemma TraceStep(G: Graph, s: Search, v: int)
    requires PositiveMoves(G) && Tree(G, s) && v in s.g
    ensures v == G.start ==> Trace(G, s, v) == [v]
    ensures v != G.start ==>
              && v in s.from && s.from[v] in s.g && 0 <= s.g[s.from[v]] < s.g[v]
              && Trace(G, s, v) == Trace(G, s, s.from[v]) + [v]
  {
    assert ParentOk(G, s, v);
    if v != G.start {
      assert Move(G, s.from[v], v);
    }
  }

  /** What holds between turns: for any graph whose moves cost something... */
  ghost predicate Sound(G: Graph, s: Search) {
    Tree(G, s) && Discovered(G, s, 0, DIRECTIONS) && Known(s)
  }

  /** ... and with a consistent estimate. */
  ghost predicate Best(G: Graph, s: Search) {
    s.closed <= s.g.Keys && Tight(G, s, 0, DIRECTIONS) && Monotone(G, s)
  }

  lemma StartSound(G: Graph)
    ensures Sound(G, Start(G)) && Known(Start(G)) && Best(G, Start(G))
  {
    assert ParentOk(G, Start(G), G.start);
  }

  /** A turn that meets a stale node. */
  lemma StaleTurn(G: Graph, s: Search)
    requires Sound(G, s) && |s.open| > 0 && Least(s.open).idx in s.closed
    ensures Sound(G, Pop(s)) && Known(Pop(s))
    ensures Best(G, s) ==> Best(G, Pop(s))
  {
    TreePop(G, s);
    TreeKnown(G, Pop(s));
  }

  /** A turn that closes a vertex, up to the moves out of it. */
  lemma CloseTurn(G: Graph, s: Search)
    requires Sound(G, s) && |s.open| > 0 && Least(s.open).idx !in s.closed
    ensures var u := Least(s.open).idx;
            var c := Close(Pop(s), u);
            && u in c.g && Tree(G, c) && Known(c) && Discovered(G, c, u, 0)
            && |c.closed| == |s.closed| + 1
  {
    TreePop(G, s);
    TreeKnown(G, Close(Pop(s), Least(s.open).idx));
  }

  /** A whole turn that expands a vertex. */
  lemma ExpandTurn(G: Graph, s: Search)
    requires PositiveMoves(G) && Sound(G, s) && |s.open| > 0 && Least(s.open).idx !in s.closed
    ensures var u := Least(s.open).idx;
            var c := Close(Pop(s), u);
            u in c.g && Sound(G, Expand(G, c, u, DIRECTIONS)) && Known(Expand(G, c, u, DIRECTIONS))
  {
    var u := Least(s.open).idx;
    var c := Close(Pop(s), u);
    CloseTurn(G, s);
    TreeExpand(G, c, u, DIRECTIONS);
    DiscoveredExpand(G, c, u, DIRECTIONS);
    TreeKnown(G, Expand(G, c, u, DIRECTIONS));
  }

  lemma BestTurn(G: Graph, s: Search)
    requires PositiveMoves(G) && Consistent(G) && Sound(G, s) && Best(G, s)
    requires |s.open| > 0 && Least(s.open).idx !in s.closed
    ensures var u := Least(s.open).idx;
            var c := Close(Pop(s), u);
            u in c.g && Best(G, Expand(G, c, u, DIRECTIONS))
  {
    var u := Least(s.open).idx;
    CloseTurn(G, s);
    ClosePopTight(G, s);
    TightExpand(G, Close(Pop(s), u), u, DIRECTIONS);
  }

  /** A run that reaches the goal has a tree that holds it; an exhausted run
      means that there is no path; a run over the limit has closed more than
      `maxNodes` different vertices. */
  lemma {:induction false} RunSound(G: Graph, s: Search, expanded: nat, maxNodes: nat)
    requires PositiveMoves(G) && Sound(G, s)
    requires G.goal !in s.closed && |s.closed| == expanded <= maxNodes
    ensures var o := Run(G, s, expanded, maxNodes);
            && Tree(G, o.last)
            && (o.Reached? ==> G.goal in o.last.g)
            && (o.Exhausted? ==> forall p | IsPath(G, p) :: p[|p| - 1] != G.goal)
            && (o.OverLimit? ==> |o.last.closed| > maxNodes)
    decreases maxNodes - expanded, |s.open|
  {
    hide Tree, Discovered, Expand, Less, Run, Known, Least, IsLeast, PositiveMoves;
    RunTurn(G, s, expanded, maxNodes);
    if |s.open| == 0 {
      forall p | IsPath(G, p) ensures p[|p| - 1] != G.goal {
        PathClosed(G, s, p);
      }
    } else {
      var u := Least(s.open).idx;
      if u in s.closed {
        StaleTurn(G, s);
        RunSound(G, Pop(s), expanded, maxNodes);
      } else {
        CloseTurn(G, s);
        if u != G.goal && expanded + 1 <= maxNodes {
          ExpandTurn(G, s);
          RunSound(G, Expand(G, Close(Pop(s), u), u, DIRECTIONS), expanded + 1, maxNodes);
        }
      }
    }
  }

  /** With a consistent estimate, the cost found for the goal is the least. */
  lemma {:induction false} RunOptimal(G: Graph, s: Search, expanded: nat, maxNodes: nat, p: seq<int>)
    requires PositiveMoves(G) && Consistent(G) && Sound(G, s) && Best(G, s)
    requires G.goal !in s.closed && expanded <= maxNodes
    requires IsPath(G, p) && p[|p| - 1] == G.goal
    ensures var o := Run(G, s, expanded, maxNodes);
            o.Reached? ==> G.goal in o.last.g && o.last.g[G.goal] <= Cost(G, p)
    decreases maxNodes - expanded, |s.open|
  {
    hide Tree, Tight, Monotone, Discovered, Expand, Less;
    if |s.open| > 0 {
      var n := Least(s.open);
      if n.idx in s.closed {
        StaleTurn(G, s);
        RunOptimal(G, Pop(s), expanded, maxNodes, p);
      } else if n.idx == G.goal {
        LeastIsCurrent(G, s);
        FrontierBound(G, s, p, n.f);
      } else if expanded + 1 <= maxNodes {
        ExpandTurn(G, s);
        BestTurn(G, s);
        RunOptimal(G, Expand(G, Close(Pop(s), n.idx), n.idx, DIRECTIONS), expanded + 1, maxNodes, p);
      }
    }
  }

  // ---------------------------------------------------------------------
  // What a run closes
  // ---------------------------------------------------------------------

  lemma {:induction false} RunGrows(G: Graph, s: Search, expanded: nat, maxNodes: nat)
    requires Known(s) && expanded <= maxNodes
    ensures s.closed <= Run(G, s, expanded, maxNodes).last.closed
    ensures s.g.Keys <= Run(G, s, expanded, maxNodes).last.g.Keys
    decreases maxNodes - expanded, |s.open|
  {
    hide Known, Least, Run;
    RunTurn(G, s, expanded, maxNodes);
    if |s.open| > 0 {
      var u := Least(s.open).idx;
      var c := Close(Pop(s), u);
      if u in s.closed {
        RunGrows(G, Pop(s), expanded, maxNodes);
      } else if u != G.goal && expanded < maxNodes {
        RunGrows(G, Expand(G, c, u, DIRECTIONS), expanded + 1, maxNodes);
      }
    }
  }

  lemma FirstTurn(G: Graph)
    ensures Known(Start(G)) && Least(Start(G).open) == NodeOf(G, G.start, 0) && Pop(Start(G)).open == multiset{}
  {
    assert NodeOf(G, G.start, 0) in Start(G).open;
    assert IsLeast(Start(G).open, Least(Start(G).open));
  }

  /** Every search visits and closes its start. */
  lemma StartIsClosed(G: Graph, maxNodes: nat)
    ensures Known(Start(G))
    ensures G.start in Run(G, Start(G), 0, maxNodes).last.closed && G.start in Run(G, Start(G), 0, maxNodes).last.g
  {
    FirstTurn(G);
    RunTurn(G, Start(G), 0, maxNodes);
    RunGrows(G, Start(G), 0, maxNodes);
    var c := Close(Pop(Start(G)), G.start);
    if G.start != G.goal && maxNodes > 0 {
      RunGrows(G, Expand(G, c, G.start, DIRECTIONS), 1, maxNodes);
    }
  }

  lemma {:induction false} ExpandNowhere(G: Graph, s: Search, u: int, k: nat)
    requires u in s.g && u in s.closed && forall j | 0 <= j < k :: G.next(u, j) < 0
    ensures Expand(G, s, u, k) == s
  {
    if k > 0 {
      ExpandNowhere(G, s, u, k - 1);
    }
  }

  /** A start without moves is all that is ever closed. */
  lemma IsolatedRun(G: Graph, maxNodes: nat)
    requires maxNodes > 0 && G.start != G.goal && forall j | 0 <= j < DIRECTIONS :: G.next(G.start, j) < 0
    ensures Known(Start(G))
    ensures Run(G, Start(G), 0, maxNodes).last.closed == {G.start}
  {
    FirstTurn(G);
    RunTurn(G, Start(G), 0, maxNodes);
    var c := Close(Pop(Start(G)), G.start);
    ExpandNowhere(G, c, G.start, DIRECTIONS);
    RunTurn(G, c, 1, maxNodes);
  }
}
