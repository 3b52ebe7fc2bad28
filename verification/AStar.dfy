// A* over the grid, on a reused workspace.

module AStar {
  import opened World
  import opened Wrappers
  import opened Heap
  import opened BestFirst
  import opened GridGraph
  import opened Workspace

  datatype PathError = TargetOutOfBounds | OriginNotWalkable | TargetNotWalkable | PathTooLong | PathNotFound

  datatype Limits = Limits(maxNodes: int, maxDistance: int)

  const DEFAULT_LIMITS := Limits(50000, 256)

  /** The limits of a query: its own where positive, else the pathfinder's. */
  function Effective(own: Limits, default: Limits): (l: Limits)
    ensures l.maxNodes > 0 <== default.maxNodes > 0
  {
    Limits(if own.maxNodes <= 0 then default.maxNodes else own.maxNodes,
           if own.maxDistance <= 0 then default.maxDistance else own.maxDistance)
  }

  /** The limits of a pathfinder, given those of the configuration. */
  function Configured(own: Limits): (l: Limits)
    ensures l.maxNodes > 0 && l.maxDistance > 0
  {
    Effective(own, DEFAULT_LIMITS)
  }

  /** A query has its own limits where they are positive, else those configured where
      these are, else 50000 tiles and a distance of 256. */
  lemma LimitsMean(own: Limits, configured: Limits)
    ensures var l := Effective(own, Configured(configured));
      && l.maxNodes == (if own.maxNodes > 0 then own.maxNodes
                        else if configured.maxNodes > 0 then configured.maxNodes else 50000)
      && l.maxDistance == (if own.maxDistance > 0 then own.maxDistance
                           else if configured.maxDistance > 0 then configured.maxDistance else 256)
  {
  }

  // ---------------------------------------------------------------------
  // What a query answers
  // ---------------------------------------------------------------------

  /** The checks made before any search. */
  function Precheck(grid: Grid, from: Tile, to: Tile, maxDistance: int): Option<PathError> {
    if !grid.InBounds(to.x, to.y) then Some(TargetOutOfBounds)
    else if !grid.InBounds(from.x, from.y) then Some(TargetOutOfBounds)
    else if !grid.Walkable(from) then Some(OriginNotWalkable)
    else if !grid.Walkable(to) then Some(TargetNotWalkable)
    else if Chebyshev(from, to) > maxDistance then Some(PathTooLong)
    else None
  }

  ghost function Searched(grid: Grid, from: Tile, to: Tile, maxNodes: nat): Outcome {
    StartSound(GraphOf(grid, from, to));
    Run(GraphOf(grid, from, to), Start(GraphOf(grid, from, to)), 0, maxNodes)
  }

  ghost function Answer(grid: Grid, from: Tile, to: Tile, o: Outcome): Result<seq<Tile>, PathError>
    requires PositiveMoves(GraphOf(grid, from, to)) && Tree(GraphOf(grid, from, to), o.last)
    requires o.Reached? ==> GraphOf(grid, from, to).goal in o.last.g
  {
    match o
    case Reached(s) => Ok(Tiles(grid.width, Trace(GraphOf(grid, from, to), s, GraphOf(grid, from, to).goal)))
    case OverLimit(_) => Err(PathTooLong)
    case Exhausted(_) => Err(PathNotFound)
  }

  /** The answer of the pathfinder, as a function of grid, endpoints and limits:
      a naive search that scans the open list for its least node. */
  ghost function Path(grid: Grid, from: Tile, to: Tile, limits: Limits): Result<seq<Tile>, PathError>
    requires limits.maxNodes >= 0
  {
    var bad := Precheck(grid, from, to, limits.maxDistance);
    if bad.Some? then Err(bad.value)
    else if from == to then Ok([from])
    else SearchAnswer(grid, from, to, limits.maxNodes)
  }

  ghost function SearchAnswer(grid: Grid, from: Tile, to: Tile, maxNodes: nat): Result<seq<Tile>, PathError> {
    SearchedSound(grid, from, to, maxNodes);
    Answer(grid, from, to, Searched(grid, from, to, maxNodes))
  }

  lemma SearchedSound(grid: Grid, from: Tile, to: Tile, maxNodes: nat)
    ensures var G, o := GraphOf(grid, from, to), Searched(grid, from, to, maxNodes);
            && PositiveMoves(G) && Tree(G, o.last)
            && (o.Reached? ==> G.goal in o.last.g)
            && (o.Exhausted? ==> forall p | IsPath(G, p) :: p[|p| - 1] != G.goal)
            && (o.OverLimit? ==> |o.last.closed| > maxNodes)
  {
    var G := GraphOf(grid, from, to);
    MovesCost(grid, from, to);
    StartSound(G);
    RunSound(G, Start(G), 0, maxNodes);
  }

  // ---------------------------------------------------------------------
  // What the answer means
  // ---------------------------------------------------------------------

  /** Both axes within `distance`. */
  ghost predicate InReach(from: Tile, to: Tile, distance: int) {
    -distance <= to.x - from.x <= distance && -distance <= to.y - from.y <= distance
  }

  /** Which answer the endpoints alone decide, in this order: one of them outside, a
      start or then a goal where nobody can stand, too far apart on either axis, and
      the same tile twice. Every path that is found is within the distance. */
  lemma EndpointsDecide(grid: Grid, from: Tile, to: Tile, limits: Limits)
    requires limits.maxNodes >= 0
    ensures var r := Path(grid, from, to, limits);
      var inside := 0 <= from.x < grid.width && 0 <= from.y < grid.height
                 && 0 <= to.x < grid.width && 0 <= to.y < grid.height;
      var stands, stays := grid.walkable(from.x, from.y), grid.walkable(to.x, to.y);
      && (r == Err(TargetOutOfBounds) <==> !inside)
      && (r == Err(OriginNotWalkable) <==> inside && !stands)
      && (r == Err(TargetNotWalkable) <==> inside && stands && !stays)
      && (inside && stands && stays && !InReach(from, to, limits.maxDistance) ==> r == Err(PathTooLong))
      && (inside && stands && stays && InReach(from, to, limits.maxDistance) && from == to ==> r == Ok([from]))
      && (r.Ok? || r == Err(PathNotFound) ==>
            inside && stands && stays && InReach(from, to, limits.maxDistance))
  {
    hide Searched, Answer;
    SearchErrors(grid, from, to, limits.maxNodes);
  }

  /** A search ends in a path, without one, or at its limit. */
  lemma SearchErrors(grid: Grid, from: Tile, to: Tile, maxNodes: nat)
    ensures var r := SearchAnswer(grid, from, to, maxNodes);
      r.Ok? || r == Err(PathNotFound) || r == Err(PathTooLong)
  {
    SearchedSound(grid, from, to, maxNodes);
  }

  /** A returned path is a route: contiguous, walkable, without cut corners. */
  lemma FoundIsRoute(grid: Grid, from: Tile, to: Tile, limits: Limits)
    requires limits.maxNodes >= 0
    ensures var r := Path(grid, from, to, limits);
            r.Ok? ==> IsRoute(grid, r.value, from, to)
  {
    if Precheck(grid, from, to, limits.maxDistance).None? && from != to {
      var G, o := GraphOf(grid, from, to), Searched(grid, from, to, limits.maxNodes);
      SearchedSound(grid, from, to, limits.maxNodes);
      if o.Reached? {
        PathIsRoute(grid, Trace(G, o.last, G.goal), from, to);
        IdxTile(grid.width, grid.height, to);
      }
    }
  }

  lemma NotFoundIsExhausted(grid: Grid, from: Tile, to: Tile, limits: Limits)
    requires limits.maxNodes >= 0 && Path(grid, from, to, limits) == Err(PathNotFound)
    ensures grid.InBounds(from.x, from.y) && grid.InBounds(to.x, to.y)
    ensures Searched(grid, from, to, limits.maxNodes).Exhausted?
  {
    hide GraphOf, Searched, PositiveMoves, Tree;
    SearchedSound(grid, from, to, limits.maxNodes);
  }

  /** "Not found" means that there is no route at all, whatever the costs. */
  lemma NotFoundMeansNoRoute(grid: Grid, from: Tile, to: Tile, limits: Limits, r: seq<Tile>)
    requires limits.maxNodes >= 0 && Path(grid, from, to, limits) == Err(PathNotFound)
    ensures !IsRoute(grid, r, from, to)
  {
    hide Path, Searched, PositiveMoves, Tree;
    NotFoundIsExhausted(grid, from, to, limits);
    SearchedSound(grid, from, to, limits.maxNodes);
    if IsRoute(grid, r, from, to) {
      RouteIsPath(grid, r, from, to, to);
    }
  }

  /** Where the grid keeps the promise of its least cost, no route is cheaper. */
  lemma FoundIsOptimal(grid: Grid, from: Tile, to: Tile, limits: Limits, r: seq<Tile>)
    requires limits.maxNodes >= 0 && Path(grid, from, to, limits).Ok?
    requires CostsBoundedBelow(grid) && IsRoute(grid, r, from, to)
    ensures RouteCost(grid, Path(grid, from, to, limits).value) <= RouteCost(grid, r)
  {
    var G := GraphOf(grid, from, to);
    RouteIsPath(grid, r, from, to, to);
    MovesCost(grid, from, to);
    if from == to {
      RouteCostNonNegative(grid, r, from, to);
    } else {
      var o := Searched(grid, from, to, limits.maxNodes);
      HeuristicConsistent(grid, from, to);
      StartSound(G);
      RunOptimal(G, Start(G), 0, limits.maxNodes, Indices(grid.width, r));
      SearchedSound(grid, from, to, limits.maxNodes);
      PathIsRoute(grid, Trace(G, o.last, G.goal), from, to);
    }
  }

  lemma {:induction false} RouteCostNonNegative(grid: Grid, r: seq<Tile>, from: Tile, to: Tile)
    requires IsRoute(grid, r, from, to)
    ensures RouteCost(grid, r) >= 0
  {
    if |r| > 1 {
      RouteCostNonNegative(grid, r[..|r| - 1], from, r[|r| - 2]);
      assert Passable(grid, r[|r| - 2], to);
    }
  }

  /** Only tiles of the grid are ever closed, each of them once, so a limit of
      as many nodes as the grid has tiles is never reached. */
  lemma OverLimitMeansSmallLimit(grid: Grid, from: Tile, to: Tile, maxNodes: nat)
    requires grid.InBounds(from.x, from.y)
    requires Searched(grid, from, to, maxNodes).OverLimit?
    ensures maxNodes < grid.width * grid.height
  {
    var G, last := GraphOf(grid, from, to), Searched(grid, from, to, maxNodes).last;
    SearchedSound(grid, from, to, maxNodes);
    var n := grid.width * grid.height;
    forall v | v in last.closed ensures 0 <= v < n {
      assert ParentOk(G, last, v);
      if v == G.start {
        IdxTile(grid.width, grid.height, from);
      } else {
        MoveIsStep(grid, from, to, last.from[v], v);
      }
    }
    IdxTile(grid.width, grid.height, from);
    BoundedSet(last.closed, n);
  }

  lemma {:induction false} BoundedSet(s: set<int>, n: nat)
    requires forall v | v in s :: 0 <= v < n
    ensures |s| <= n
  {
    if n == 0 {
      assert forall v :: v !in s;
      assert s == {};
    } else {
      BoundedSet(s - {n - 1}, n - 1);
    }
  }

  /** How many tiles a search without a limit would expand. */
  ghost function Expands(grid: Grid, from: Tile, to: Tile): int
    requires grid.width * grid.height >= 0
  {
    var o := Searched(grid, from, to, grid.width * grid.height);
    |o.last.closed| - if o.Reached? then 1 else 0
  }

  /** The limit of a query never changes a path: the answer is the one without a limit,
      or, exactly if that would expand more tiles, that the path is too long. */
  lemma LimitDecides(grid: Grid, from: Tile, to: Tile, limits: Limits)
    requires limits.maxNodes >= 0 && grid.width * grid.height >= 0
    requires grid.InBounds(from.x, from.y) && grid.InBounds(to.x, to.y) && grid.Walkable(from) && grid.Walkable(to)
    requires InReach(from, to, limits.maxDistance) && from != to
    ensures var free := Path(grid, from, to, Limits(grid.width * grid.height, limits.maxDistance));
      && (free.Ok? || free == Err(PathNotFound))
      && Path(grid, from, to, limits) == if Expands(grid, from, to) > limits.maxNodes then Err(PathTooLong) else free
  {
    hide Run, Tree, PositiveMoves, GraphOf;
    var G, all := GraphOf(grid, from, to), grid.width * grid.height;
    SearchedSound(grid, from, to, all);
    SearchedSound(grid, from, to, limits.maxNodes);
    if Searched(grid, from, to, all).OverLimit? {
      OverLimitMeansSmallLimit(grid, from, to, all);
    }
    StartSound(G);
    LimitMeans(G, Start(G), 0, limits.maxNodes, all);
    assert Start(G).closed == {};
  }

  /** With room for the whole grid, a path is returned exactly when the endpoints
      pass the checks and some route joins them. */
  lemma PathDecidesReachability(grid: Grid, from: Tile, to: Tile, limits: Limits)
    requires limits.maxNodes >= grid.width * grid.height && limits.maxNodes >= 0
    ensures Path(grid, from, to, limits).Ok? <==>
            Precheck(grid, from, to, limits.maxDistance).None? && exists r :: IsRoute(grid, r, from, to)
  {
    var p := Path(grid, from, to, limits);
    if p.Ok? {
      FoundIsRoute(grid, from, to, limits);
      assert IsRoute(grid, p.value, from, to);
    } else if Precheck(grid, from, to, limits.maxDistance).None? {
      if Searched(grid, from, to, limits.maxNodes).OverLimit? {
        OverLimitMeansSmallLimit(grid, from, to, limits.maxNodes);
      }
      forall r ensures !IsRoute(grid, r, from, to) {
        NotFoundMeansNoRoute(grid, from, to, limits, r);
      }
    }
  }

  // ---------------------------------------------------------------------
  // The pathfinder itself
  // ---------------------------------------------------------------------

  /** What it costs to step from `a` in a direction, once the tile there is known
      to be inside; nothing if the step is not allowed. */
  method StepInto(grid: Grid, a: Tile, k: int, nx: int, ny: int) returns (step: Option<int>)
    requires 0 <= k < DIRECTIONS && Tile(nx, ny) == Neighbor(a, k) && grid.InBounds(nx, ny)
    ensures step == if Passable(grid, a, Neighbor(a, k)) then Some(StepCost(grid, a, Neighbor(a, k))) else None
  {
    if !grid.walkable(nx, ny) {
      return None;
    }
    var diagonal := NEIGHBORS[k].x != 0 && NEIGHBORS[k].y != 0;
    if diagonal {
      if !grid.walkable(nx, a.y) || !grid.walkable(a.x, ny) {
        return None;
      }
    }
    var units := grid.cost(nx, ny);
    if units <= 0 {
      return None;
    }
    step := Some(units * COST_SCALE_ORTHO);
    if diagonal {
      step := Some(units * COST_SCALE_DIAG);
    }
  }

  /** Records a way to a neighbour that is not closed, if it is the best so far. */
  method Improve(ws: Workspace, grid: Grid, ghost from: Tile, to: Tile, minCost: int, cur: Node, ghost k: int,
                 nIdx: int, nx: int, ny: int, tentative: int)
    requires ws.Valid() && 0 <= nIdx < ws.size && cur.idx in ws.G() && nIdx !in ws.Closed()
    requires nIdx == GraphOf(grid, from, to).next(cur.idx, k)
    requires tentative == ws.G()[cur.idx] + GraphOf(grid, from, to).w(cur.idx, nIdx)
    requires GraphOf(grid, from, to).h(nIdx) == Heuristic(Tile(nx, ny), to, minCost)
    requires GraphOf(grid, from, to).x(nIdx) == nx && GraphOf(grid, from, to).y(nIdx) == ny
    modifies ws.Repr()
    ensures ws.SameBuffers() && ws.Valid()
    ensures ws.View() == Relax(GraphOf(grid, from, to), old(ws.View()), cur.idx, k)
  {
    hide Relax, GraphOf, Heuristic, Less, Ordered, NoneNewer, Marked, Workspace.G, Workspace.From;
    hide Workspace.Closed, Workspace.AllMarks;
    MarkedNone(ws.AllMarks());
    ghost var G, s := GraphOf(grid, from, to), ws.View();
    var known, ok := ws.GIfSet(nIdx);
    if ok && tentative >= known {
      RelaxSkips(G, s, cur.idx, k);
      return;
    }
    RelaxRecords(G, s, cur.idx, k, nIdx, tentative);
    var h := Heuristic(Tile(nx, ny), to, minCost);
    ws.Discover(nIdx, tentative, cur.idx, Node(nIdx, tentative + h, h, nx, ny));
  }

  /** Looks at one neighbour of the tile being expanded. */
  method Visit(ws: Workspace, grid: Grid, ghost from: Tile, to: Tile, minCost: int, cur: Node, curG: int, k: int)
    requires ws.Valid() && ws.size == grid.width * grid.height && minCost == LeastCost(grid)
    requires 0 <= k < DIRECTIONS && cur.idx in ws.G() && curG == ws.G()[cur.idx] && cur.idx in ws.Closed()
    requires TileOf(grid.width, cur.idx) == Tile(cur.x, cur.y)
    modifies ws.Repr()
    ensures ws.SameBuffers() && ws.Valid()
    ensures ws.View() == Relax(GraphOf(grid, from, to), old(ws.View()), cur.idx, k)
  {
    hide Relax, GraphOf, TileOf, Heuristic, Next, Less, LeastCost, Ordered, NoneNewer, Marked, StepCost, Passable;
    hide Workspace.G, Workspace.From, Workspace.Closed, Workspace.AllMarks;
    ghost var a, b := Tile(cur.x, cur.y), Neighbor(Tile(cur.x, cur.y), k);
    MoveInDirection(grid, from, to, cur.idx, a, k);
    ghost var G, s := GraphOf(grid, from, to), ws.View();
    MarkedNone(ws.AllMarks());
    var nx, ny := cur.x + NEIGHBORS[k].x, cur.y + NEIGHBORS[k].y;
    if nx < 0 || ny < 0 || nx >= grid.width || ny >= grid.height {
      RelaxSkips(G, s, cur.idx, k);
      return;
    }
    var nIdx := ny * grid.width + nx;
    var shut := ws.IsClosed(nIdx);
    if shut {
      RelaxSkips(G, s, cur.idx, k);
      return;
    }
    var step := StepInto(grid, Tile(cur.x, cur.y), k, nx, ny);
    if step.None? {
      RelaxSkips(G, s, cur.idx, k);
      return;
    }
    var tentative := curG + step.value;
    Improve(ws, grid, from, to, minCost, cur, k, nIdx, nx, ny, tentative);
  }

  function Reversed<T>(s: seq<T>): (r: seq<T>)
    ensures |r| == |s| && forall i | 0 <= i < |s| :: r[i] == s[|s| - 1 - i]
  {
    seq(|s|, i requires 0 <= i < |s| => s[|s| - 1 - i])
  }

  method Reverse<T>(s: seq<T>) returns (r: seq<T>)
    ensures r == Reversed(s)
  {
    r := s;
    var i, j := 0, |r| - 1;
    while i < j
      invariant 0 <= i && i + j == |s| - 1 && |r| == |s| && i <= j + 1
      invariant forall k | 0 <= k < i :: r[k] == s[|s| - 1 - k]
      invariant forall k | i <= k <= j :: r[k] == s[k]
      invariant forall k | j < k < |s| :: r[k] == s[|s| - 1 - k]
    {
      r := r[i := r[j]][j := r[i]];
      i, j := i + 1, j - 1;
    }
  }

  lemma NextTile(width: int, idx: int, tile: Tile)
    requires width > 0 && tile == Tile(idx % width, idx / width)
    ensures tile == TileOf(width, idx)
  {}

  /** Walks back from the goal to the start; it ends because costs fall. */
  method Reconstruct(ws: Workspace, grid: Grid, from: Tile, to: Tile) returns (tiles: seq<Tile>)
    requires ws.Valid() && PositiveMoves(GraphOf(grid, from, to)) && Tree(GraphOf(grid, from, to), ws.View())
    requires GraphOf(grid, from, to).goal in ws.G() && grid.width > 0
    ensures tiles == Tiles(grid.width, Trace(GraphOf(grid, from, to), ws.View(), GraphOf(grid, from, to).goal))
  {
    hide Tree, PositiveMoves, Trace, GraphOf, TileOf, Ordered;
    Ends(grid, from, to);
    ghost var G, s := GraphOf(grid, from, to), ws.View();
    var start := from.y * grid.width + from.x;
    var idx := to.y * grid.width + to.x;
    var reversed: seq<Tile> := [];
    ghost var after: seq<int> := [];
    while true
      invariant idx in s.g && Trace(G, s, G.goal) == Trace(G, s, idx) + after
      invariant Reversed(reversed) == Tiles(grid.width, after)
      decreases s.g[idx]
    {
      TraceStep(G, s, idx);
      var tile := Tile(idx % grid.width, idx / grid.width);
      NextTile(grid.width, idx, tile);
      reversed := reversed + [tile];
      after := [idx] + after;
      if idx == start {
        break;
      }
      idx := ws.cameFrom[idx];
    }
    assert Trace(G, s, G.goal) == after;
    tiles := Reverse(reversed);
  }

  /** The query goes as far as a search. */
  predicate Searches(grid: Grid, from: Tile, to: Tile, limits: Limits) {
    Precheck(grid, from, to, limits.maxDistance).None? && from != to
  }

  /** What is known of the marks that a query finds: nothing counts as visited, or
      its own start counts as closed. */
  ghost predicate Understood(m: Marks, grid: Grid, from: Tile) {
    || StartsFresh(m, grid.width * grid.height)
    || StartTaken(m, grid.width * grid.height, from.y * grid.width + from.x)
  }

  /** The answer to a query on marks `m`, which leaves them as `m'`. Where nothing
      counts as visited it is that of `Path`, and the marks then stand for the search
      that `Path` speaks of; where the start counts as closed, it is that there is no
      path, whatever there is. */
  ghost predicate Answers(m: Marks, m': Marks, grid: Grid, from: Tile, to: Tile, limits: Limits,
                          r: Result<seq<Tile>, PathError>)
    requires limits.maxNodes >= 0
  {
    && (!Searches(grid, from, to, limits) ==> m' == m)
    && (StartsFresh(m, grid.width * grid.height) ==>
          && r == Path(grid, from, to, limits)
          && (Searches(grid, from, to, limits) ==>
                && Query(m, m', grid.width * grid.height)
                && ClosedIn(m') == Searched(grid, from, to, limits.maxNodes).last.closed))
    && (StartTaken(m, grid.width * grid.height, from.y * grid.width + from.x) && Searches(grid, from, to, limits) ==>
          r == Err(PathNotFound))
  }

  method FindPath(default: Limits, ws: Workspace, grid: Grid, from: Tile, to: Tile, opts: Limits)
    returns (r: Result<seq<Tile>, PathError>)
    requires default.maxNodes > 0 && ws.Valid() && Understood(ws.AllMarks(), grid, from)
    modifies ws.Repr()
    ensures ws.Valid() && fresh(ws.Repr() - old(ws.Repr()))
    ensures Answers(old(ws.AllMarks()), ws.AllMarks(), grid, from, to, Effective(opts, default), r)
  {
    hide StartsFresh, StartTaken, Searched, GraphOf, Query, ClosedIn, Marked, SearchAnswer, Reset, Fresh, Ordered;
    var limits := Effective(opts, default);
    var maxNodes, maxDistance := limits.maxNodes, limits.maxDistance;
    if !grid.InBounds(to.x, to.y) || !grid.InBounds(from.x, from.y) {
      return Err(TargetOutOfBounds);
    }
    if !grid.walkable(from.x, from.y) {
      return Err(OriginNotWalkable);
    }
    if !grid.walkable(to.x, to.y) {
      return Err(TargetNotWalkable);
    }
    if Chebyshev(from, to) > maxDistance {
      return Err(PathTooLong);
    }
    if from == to {
      return Ok([from]);
    }
    TwoTiles(grid, from, to);
    r := RunSearch(ws, grid, from, to, maxNodes);
  }

  lemma TwoTiles(grid: Grid, from: Tile, to: Tile)
    requires grid.InBounds(from.x, from.y) && grid.InBounds(to.x, to.y) && from != to
    ensures grid.width * grid.height >= 2
    ensures 0 <= from.y * grid.width + from.x < grid.width * grid.height
  {
    IdxTile(grid.width, grid.height, from);
    IdxTile(grid.width, grid.height, to);
    assert Idx(grid.width, from) != Idx(grid.width, to);
  }

  /** The order is total on the nodes of a search: the heap and the scan agree. */
  lemma LeastIsUnique(grid: Grid, from: Tile, to: Tile, s: Search, n: Node)
    requires grid.width > 0 && Sound(GraphOf(grid, from, to), s) && IsLeast(s.open, n)
    ensures n == Least(s.open)
    ensures n.idx in s.g && TileOf(grid.width, n.idx) == Tile(n.x, n.y)
  {
    var m := Least(s.open);
    assert NodeOk(GraphOf(grid, from, to), s, n) && NodeOk(GraphOf(grid, from, to), s, m);
    assert !Less(m, n) && !Less(n, m);
    assert n.idx == grid.width * (n.idx / grid.width) + n.idx % grid.width;
    assert m.idx == grid.width * (m.idx / grid.width) + m.idx % grid.width;
  }

  method ExpandTile(ws: Workspace, grid: Grid, ghost from: Tile, to: Tile, minCost: int, cur: Node)
    requires ws.Valid() && ws.size == grid.width * grid.height && minCost == LeastCost(grid)
    requires cur.idx in ws.View().g && cur.idx in ws.View().closed
    requires TileOf(grid.width, cur.idx) == Tile(cur.x, cur.y)
    modifies ws.Repr()
    ensures ws.SameBuffers() && ws.Valid()
    ensures ws.View() == Expand(GraphOf(grid, from, to), old(ws.View()), cur.idx, DIRECTIONS)
  {
    hide Relax, GraphOf, TileOf, Next, Less, LeastCost, Ordered, NoneNewer, Marked, Workspace.G, Workspace.From;
    hide Workspace.Closed;
    ghost var G, s := GraphOf(grid, from, to), ws.View();
    var curG := ws.GOf(cur.idx);
    ghost var first := ws.AllMarks();
    MarkedNone(first);
    for k := 0 to DIRECTIONS
      invariant ws.SameBuffers() && ws.Valid()
      invariant ws.View() == Expand(G, s, cur.idx, k)
    {
      ghost var before := ws.AllMarks();
      Visit(ws, grid, from, to, minCost, cur, curG, k);
      MarkedTwice(first, before, ws.AllMarks());
    }
  }

  lemma AnswerCases(grid: Grid, from: Tile, to: Tile, maxNodes: nat)
    ensures var G, o := GraphOf(grid, from, to), Searched(grid, from, to, maxNodes);
            && (o.OverLimit? ==> SearchAnswer(grid, from, to, maxNodes) == Err(PathTooLong))
            && (o.Exhausted? ==> SearchAnswer(grid, from, to, maxNodes) == Err(PathNotFound))
            && (o.Reached? ==>
                  && PositiveMoves(G) && Tree(G, o.last) && G.goal in o.last.g
                  && SearchAnswer(grid, from, to, maxNodes) == Ok(Tiles(grid.width, Trace(G, o.last, G.goal))))
  {
    SearchedSound(grid, from, to, maxNodes);
  }

  /** A single node is left, and its vertex is closed. */
  ghost predicate OnlyStale(s: Search) {
    |s.open| == 1 && forall n | n in s.open :: n.idx in s.closed
  }

  /** Empties the workspace and queues the start. */
  method Begin(ws: Workspace, grid: Grid, from: Tile, to: Tile)
    requires ws.Valid() && grid.InBounds(from.x, from.y) && grid.InBounds(to.x, to.y)
    modifies ws.Repr()
    ensures ws.Valid() && fresh(ws.Repr() - old(ws.Repr())) && ws.size == grid.width * grid.height
    ensures Marked(Reset(old(ws.AllMarks()), grid.width * grid.height), ws.AllMarks())
    ensures StartsFresh(old(ws.AllMarks()), grid.width * grid.height) ==>
      ws.View() == Start(GraphOf(grid, from, to))
    ensures StartTaken(old(ws.AllMarks()), grid.width * grid.height, from.y * grid.width + from.x) ==>
      OnlyStale(ws.View())
  {
    IdxTile(grid.width, grid.height, from);
    ws.ResetFor(grid.width * grid.height);
    var startIdx := from.y * grid.width + from.x;
    var h := Heuristic(from, to, LeastCost(grid));
    ghost var n := Node(startIdx, h, h, from.x, from.y);
    ws.Discover(startIdx, 0, -1, Node(startIdx, h, h, from.x, from.y));
    assert ws.View().open == multiset{n};
  }

  /** Takes the least node out and closes its vertex, unless it is stale. */
  method PopAndClose(ws: Workspace, grid: Grid, ghost from: Tile, ghost to: Tile) returns (cur: Node, stale: bool)
    requires ws.Valid() && |ws.heap.nodes| > 0 && grid.width > 0
    requires Sound(GraphOf(grid, from, to), ws.View()) || OnlyStale(ws.View())
    modifies ws.Repr()
    ensures ws.SameBuffers() && ws.Valid()
    ensures Sound(GraphOf(grid, from, to), old(ws.View())) ==>
      && |old(ws.View()).open| > 0 && cur == Least(old(ws.View()).open)
      && cur.idx in old(ws.View()).g && TileOf(grid.width, cur.idx) == Tile(cur.x, cur.y)
      && (stale <==> cur.idx in old(ws.View()).closed)
      && ws.View() == if stale then Pop(old(ws.View())) else Close(Pop(old(ws.View())), cur.idx)
    ensures OnlyStale(old(ws.View())) ==> stale && |ws.View().open| == 0
  {
    hide Sound, GraphOf, Tree, TileOf, Less, NoneNewer, Marked, Workspace.G, Workspace.From;
    ghost var s := ws.View();
    MarkedNone(ws.AllMarks());
    cur := ws.heap.Pop();
    if Sound(GraphOf(grid, from, to), s) {
      LeastIsUnique(grid, from, to, s, cur);
      ws.InRange(cur.idx);
    }
    stale := ws.IsClosed(cur.idx);
    if !stale {
      ws.Close(cur.idx);
    }
  }

  datatype Stop = AtGoal | AtLimit | NothingOpen

  ghost function Stopped(stop: Stop, last: Search): Outcome {
    match stop
    case AtGoal => Reached(last)
    case AtLimit => OverLimit(last)
    case NothingOpen => Exhausted(last)
  }

  /** Everything the naive search keeps. */
  ghost predicate Ready(grid: Grid, from: Tile, to: Tile, s: Search) {
    Sound(GraphOf(grid, from, to), s) && Known(s) && GraphOf(grid, from, to).goal !in s.closed
  }

  /** One turn: a stale node is dropped, the goal or the limit stops the search,
      and any other tile is expanded. */
  method Turn(ws: Workspace, grid: Grid, from: Tile, to: Tile, minCost: int, expanded: nat, maxNodes: nat)
    returns (stop: Option<Stop>, after: nat)
    requires ws.Valid() && ws.size == grid.width * grid.height && grid.width > 0 && |ws.heap.nodes| > 0
    requires Ready(grid, from, to, ws.View()) || OnlyStale(ws.View())
    requires minCost == LeastCost(grid) && expanded <= maxNodes
    modifies ws.Repr()
    ensures ws.Valid() && ws.SameBuffers()
    ensures Ready(grid, from, to, old(ws.View())) ==>
      && (stop.Some? ==>
            Run(GraphOf(grid, from, to), old(ws.View()), expanded, maxNodes) == Stopped(stop.value, ws.View()))
      && (stop.None? ==>
            && Ready(grid, from, to, ws.View()) && expanded <= after <= maxNodes
            && (after == expanded ==> |ws.View().open| < |old(ws.View()).open|)
            && Run(GraphOf(grid, from, to), old(ws.View()), expanded, maxNodes)
               == Run(GraphOf(grid, from, to), ws.View(), after, maxNodes))
    ensures OnlyStale(old(ws.View())) ==> stop.None? && after == expanded && |ws.View().open| == 0
  {
    hide Run, Pop, Close, IsLeast, Sound, Known, Tree, Expand, PositiveMoves, GraphOf, TileOf, Less, Ordered;
    hide NoneNewer, Marked, OnlyStale, Workspace.G, Workspace.From, Workspace.Closed;
    ghost var G, s, first := GraphOf(grid, from, to), ws.View(), ws.AllMarks();
    stop, after := None, expanded;
    MovesCost(grid, from, to);
    Ends(grid, from, to);
    if Ready(grid, from, to, s) {
      RunTurn(G, s, expanded, maxNodes);
      PopShrinks(s);
    }
    var cur, stale := PopAndClose(ws, grid, from, to);
    if stale {
      if Ready(grid, from, to, s) {
        StaleTurn(G, s);
      }
      return;
    }
    CloseTurn(G, s);
    if cur.idx == to.y * grid.width + to.x {
      return Some(AtGoal), expanded;
    }
    after := expanded + 1;
    if after > maxNodes {
      return Some(AtLimit), after;
    }
    ExpandTurn(G, s);
    ghost var closed := ws.AllMarks();
    ExpandTile(ws, grid, from, to, minCost, cur);
    MarkedTwice(first, closed, ws.AllMarks());
  }

  lemma PopShrinks(s: Search)
    requires |s.open| > 0
    ensures |Pop(s).open| < |s.open|
  {
  }

  /** Expands tiles until the goal, the limit or the end of the open list. */
  method Explore(ws: Workspace, grid: Grid, from: Tile, to: Tile, maxNodes: nat) returns (stop: Stop)
    requires ws.Valid() && ws.size == grid.width * grid.height && grid.width > 0
    requires ws.View() == Start(GraphOf(grid, from, to)) || OnlyStale(ws.View())
    modifies ws.Repr()
    ensures ws.Valid() && ws.SameBuffers()
    ensures old(ws.View()) == Start(GraphOf(grid, from, to)) ==>
      Searched(grid, from, to, maxNodes) == Stopped(stop, ws.View())
    ensures OnlyStale(old(ws.View())) ==> stop == NothingOpen
  {
    hide Run, Pop, Close, IsLeast, Sound, Known, Tree, Expand, PositiveMoves, GraphOf, TileOf, Less, Ordered;
    hide NoneNewer, Marked, OnlyStale, Workspace.G, Workspace.From, Workspace.Closed;
    ghost var G := GraphOf(grid, from, to);
    MovesCost(grid, from, to);
    StartSound(G);
    Ends(grid, from, to);
    StartIsOpen(grid, from, to);
    var minCost := LeastCost(grid);
    var expanded := 0;
    ghost var first, clean := ws.AllMarks(), ws.View() == Start(G);
    MarkedNone(first);
    while |ws.heap.nodes| > 0
      invariant ws.Valid() && ws.SameBuffers() && expanded <= maxNodes
      invariant clean ==> Ready(grid, from, to, ws.View())
      invariant clean ==> Run(G, ws.View(), expanded, maxNodes) == Searched(grid, from, to, maxNodes)
      invariant !clean ==> OnlyStale(ws.View()) || |ws.heap.nodes| == 0
      decreases maxNodes - expanded, |ws.View().open|
    {
      ghost var before := ws.AllMarks();
      var ended, after := Turn(ws, grid, from, to, minCost, expanded, maxNodes);
      MarkedTwice(first, before, ws.AllMarks());
      if ended.Some? {
        return ended.value;
      }
      expanded := after;
    }
    if clean {
      RunTurn(G, ws.View(), expanded, maxNodes);
    }
    return NothingOpen;
  }

  /** The first node is not stale. */
  lemma StartIsOpen(grid: Grid, from: Tile, to: Tile)
    ensures !OnlyStale(Start(GraphOf(grid, from, to)))
  {
    var G := GraphOf(grid, from, to);
    assert NodeOf(G, G.start, 0) in Start(G).open;
  }

  method RunSearch(ws: Workspace, grid: Grid, from: Tile, to: Tile, maxNodes: nat)
    returns (r: Result<seq<Tile>, PathError>)
    requires ws.Valid() && grid.InBounds(from.x, from.y) && grid.InBounds(to.x, to.y)
    requires grid.width * grid.height >= 2
    requires StartsFresh(ws.AllMarks(), grid.width * grid.height)
          || StartTaken(ws.AllMarks(), grid.width * grid.height, from.y * grid.width + from.x)
    modifies ws.Repr()
    ensures ws.Valid() && fresh(ws.Repr() - old(ws.Repr()))
    ensures StartsFresh(old(ws.AllMarks()), grid.width * grid.height) ==>
      && r == SearchAnswer(grid, from, to, maxNodes)
      && Query(old(ws.AllMarks()), ws.AllMarks(), grid.width * grid.height)
      && ClosedIn(ws.AllMarks()) == Searched(grid, from, to, maxNodes).last.closed
    ensures StartTaken(old(ws.AllMarks()), grid.width * grid.height, from.y * grid.width + from.x) ==>
      r == Err(PathNotFound)
  {
    hide StartsFresh, StartTaken, OnlyStale, Reset, Tree, PositiveMoves, SearchAnswer, Searched, GraphOf, TileOf;
    hide Trace, Tiles, Ordered, NoneNewer, Marked, Took, ClosedIn, Workspace.G, Workspace.From, Workspace.Closed;
    AnswerCases(grid, from, to, maxNodes);
    ghost var was, size := ws.AllMarks(), grid.width * grid.height;
    ghost var clean := StartsFresh(was, size);
    Begin(ws, grid, from, to);
    ghost var begun := ws.AllMarks();
    var stop := Explore(ws, grid, from, to, maxNodes);
    MarkedTwice(Reset(was, size), begun, ws.AllMarks());
    if clean {
      SearchMarks(ws, grid, from, to, maxNodes);
    }
    match stop {
      case AtGoal =>
        var tiles := Reconstruct(ws, grid, from, to);
        r := Ok(tiles);
      case AtLimit =>
        r := Err(PathTooLong);
      case NothingOpen =>
        r := Err(PathNotFound);
    }
  }

  /** The marks show the search that they stand for, and its start. */
  lemma SearchMarks(ws: Workspace, grid: Grid, from: Tile, to: Tile, maxNodes: nat)
    requires ws.Valid() && ws.View() == Searched(grid, from, to, maxNodes).last
    ensures ClosedIn(ws.AllMarks()) == Searched(grid, from, to, maxNodes).last.closed
    ensures exists start :: Took(ws.AllMarks(), start)
  {
    hide GraphOf, Run, Start;
    var G := GraphOf(grid, from, to);
    StartIsClosed(G, maxNodes);
    assert G.start in ws.G() && G.start in ws.Closed();
    assert Took(ws.AllMarks(), G.start);
    assert ClosedIn(ws.AllMarks()) == ws.Closed();
  }

  // ---------------------------------------------------------------------
  // A workspace that is used again and again
  // ---------------------------------------------------------------------

  datatype Question = Question(grid: Grid, from: Tile, to: Tile, opts: Limits)

  function Sizes(qs: seq<Question>): (sizes: seq<int>)
    ensures |sizes| == |qs|
    ensures forall i | 0 <= i < |qs| :: sizes[i] == qs[i].grid.width * qs[i].grid.height
  {
    seq(|qs|, i requires 0 <= i < |qs| => qs[i].grid.width * qs[i].grid.height)
  }

  lemma AnswersAnswered(m: Marks, m': Marks, q: Question, limits: Limits, r: Result<seq<Tile>, PathError>)
    requires limits.maxNodes >= 0 && Answers(m, m', q.grid, q.from, q.to, limits, r)
    requires StartsFresh(m, q.grid.width * q.grid.height)
    ensures Answered(m, m', q.grid.width * q.grid.height) && r == Path(q.grid, q.from, q.to, limits)
  {
    hide Path, Searched, Searches, StartsFresh, StartTaken, ClosedIn, Marked, Reset, Took;
  }

  /** One workspace of the pool, from its creation on: on one grid, on grids that do
      not shrink, or on any grids before the counter first wraps, every answer is the
      one that a fresh workspace would give. */
  method AnswerAll(config: Limits, qs: seq<Question>) returns (rs: seq<Result<seq<Tile>, PathError>>)
    requires NeverWrapsShort(Sizes(qs))
    ensures |rs| == |qs|
    ensures forall i | 0 <= i < |qs| ::
        rs[i] == Path(qs[i].grid, qs[i].from, qs[i].to, Effective(qs[i].opts, Configured(config)))
  {
    hide NeverWrapsShort, Within, NoneNewer, Path, Answers, Answered, StartsFresh, StartTaken, Ordered, Effective;
    rs := [];
    var default := Configured(config);
    var ws := new Workspace();
    ghost var sizes := Sizes(qs);
    EmptyWithin(sizes);
    for i := 0 to |qs|
      invariant ws.Valid() && fresh(ws.Repr()) && Within(ws.AllMarks(), sizes, i) && NoneNewer(ws.AllMarks())
      invariant |rs| == i
      invariant forall j | 0 <= j < i :: rs[j] == Path(qs[j].grid, qs[j].from, qs[j].to, Effective(qs[j].opts, default))
    {
      ghost var before := ws.AllMarks();
      WithinStarts(before, sizes, i);
      var r := FindPath(default, ws, qs[i].grid, qs[i].from, qs[i].to, qs[i].opts);
      AnswersAnswered(before, ws.AllMarks(), qs[i], Effective(qs[i].opts, default), r);
      AnsweredWithin(before, ws.AllMarks(), sizes, i);
      rs := rs + [r];
    }
  }
}
