// The grid of tiles as the graph that the pathfinder searches, and the estimate
// it searches with.

module GridGraph {
  import opened World
  import opened BestFirst

  const COST_SCALE_ORTHO := 1000
  const COST_SCALE_DIAG := 1414

  /** Neighbours in their fixed order: the orthogonal ones first. */
  const NEIGHBORS: seq<Tile> := [
    Tile(0, -1), Tile(1, 0), Tile(0, 1), Tile(-1, 0),
    Tile(1, -1), Tile(1, 1), Tile(-1, 1), Tile(-1, -1)]

  function Neighbor(a: Tile, k: int): Tile
    requires 0 <= k < DIRECTIONS
  {
    Tile(a.x + NEIGHBORS[k].x, a.y + NEIGHBORS[k].y)
  }

  function Idx(width: int, t: Tile): int {
    t.y * width + t.x
  }

  function TileOf(width: int, i: int): Tile {
    if width <= 0 then Tile(0, 0) else Tile(i % width, i / width)
  }

  lemma IdxTile(width: int, height: int, t: Tile)
    requires 0 <= t.x < width && 0 <= t.y < height
    ensures 0 <= Idx(width, t) < width * height
    ensures TileOf(width, Idx(width, t)) == t
  {
    var i := Idx(width, t);
    MulMono(t.y + 1, height, width);
    DivModUnique(i, width, t.y, t.x);
  }

  lemma MulMono(a: int, b: int, c: nat)
    requires a <= b
    ensures a * c <= b * c && c * a <= c * b
  {}

  lemma DivModUnique(i: int, width: int, q: int, r: int)
    requires width > 0 && 0 <= r < width && i == q * width + r
    ensures i / width == q && i % width == r
  {
    var d, m := i / width, i % width;
    assert i == width * d + m;
    if d < q {
      MulMono(d + 1, q, width);
    } else if d > q {
      MulMono(q + 1, d, width);
    }
  }

  /** A unit may step from `a` to `b`: into a walkable tile with a cost, and not
      across the corner of an unwalkable one. */
  predicate Passable(grid: Grid, a: Tile, b: Tile) {
    && IsAdjacent(a, b)
    && grid.InBounds(b.x, b.y) && grid.walkable(b.x, b.y)
    && (IsDiagonalTo(a, b) ==> grid.walkable(b.x, a.y) && grid.walkable(a.x, b.y))
    && grid.cost(b.x, b.y) > 0
  }

  function StepCost(grid: Grid, a: Tile, b: Tile): int {
    grid.cost(b.x, b.y) * (if IsDiagonalTo(a, b) then COST_SCALE_DIAG else COST_SCALE_ORTHO)
  }

  /** The smallest tile cost that the search reckons with. */
  function LeastCost(grid: Grid): (m: int)
    ensures m >= 1
  {
    if grid.minCost <= 0 then 1 else grid.minCost
  }

  /** Octile distance. */
  function Octile(a: Tile, b: Tile): nat {
    var dx, dy := Abs(b.x - a.x), Abs(b.y - a.y);
    var diag := if dx < dy then dx else dy;
    COST_SCALE_ORTHO * (dx + dy - 2 * diag) + COST_SCALE_DIAG * diag
  }

  function Heuristic(a: Tile, to: Tile, minCostUnits: int): int {
    var dx, dy := Abs(to.x - a.x), Abs(to.y - a.y);
    var diag := if dx < dy then dx else dy;
    var straight := dx + dy - 2 * diag;
    minCostUnits * COST_SCALE_ORTHO * straight + minCostUnits * COST_SCALE_DIAG * diag
  }

  function Next(grid: Grid, u: int, k: int): int {
    if !(0 <= k < DIRECTIONS) then -1 else
    var a := TileOf(grid.width, u);
    var b := Neighbor(a, k);
    if Passable(grid, a, b) then Idx(grid.width, b) else -1
  }

  ghost function GraphOf(grid: Grid, from: Tile, to: Tile): Graph {
    Graph(Idx(grid.width, from), Idx(grid.width, to),
          (u, k) => Next(grid, u, k),
          (u, v) => StepCost(grid, TileOf(grid.width, u), TileOf(grid.width, v)),
          u => Heuristic(TileOf(grid.width, u), to, LeastCost(grid)),
          u => TileOf(grid.width, u).x,
          u => TileOf(grid.width, u).y)
  }

  lemma Ends(grid: Grid, from: Tile, to: Tile)
    ensures GraphOf(grid, from, to).start == from.y * grid.width + from.x
    ensures GraphOf(grid, from, to).goal == to.y * grid.width + to.x
  {}

  // ---------------------------------------------------------------------
  // Routes
  // ---------------------------------------------------------------------

  ghost predicate IsRoute(grid: Grid, r: seq<Tile>, from: Tile, to: Tile) {
    && |r| > 0 && r[0] == from && r[|r| - 1] == to
    && forall i | 0 < i < |r| :: Passable(grid, r[i - 1], r[i])
  }

  ghost function RouteCost(grid: Grid, r: seq<Tile>): int {
    if |r| <= 1 then 0 else RouteCost(grid, r[..|r| - 1]) + StepCost(grid, r[|r| - 2], r[|r| - 1])
  }

  function Tiles(width: int, p: seq<int>): (r: seq<Tile>)
    ensures |r| == |p| && forall i | 0 <= i < |p| :: r[i] == TileOf(width, p[i])
  {
    seq(|p|, i requires 0 <= i < |p| => TileOf(width, p[i]))
  }

  function Indices(width: int, r: seq<Tile>): (p: seq<int>)
    ensures |p| == |r| && forall i | 0 <= i < |r| :: p[i] == Idx(width, r[i])
  {
    seq(|r|, i requires 0 <= i < |r| => Idx(width, r[i]))
  }

  // ---------------------------------------------------------------------
  // Facts about the graph
  // ---------------------------------------------------------------------

  /** A move of the graph is a step of the grid between the tiles it stands for. */
  lemma MoveIsStep(grid: Grid, from: Tile, to: Tile, u: int, v: int)
    requires Move(GraphOf(grid, from, to), u, v)
    ensures Passable(grid, TileOf(grid.width, u), TileOf(grid.width, v))
    ensures 0 <= v < grid.width * grid.height
  {
    var k :| 0 <= k < DIRECTIONS && GraphOf(grid, from, to).next(u, k) == v;
    IdxTile(grid.width, grid.height, Neighbor(TileOf(grid.width, u), k));
  }

  /** The graph seen from tile `a`, whose number is `u`, in direction `k`. */
  lemma MoveInDirection(grid: Grid, from: Tile, to: Tile, u: int, a: Tile, k: int)
    requires TileOf(grid.width, u) == a && 0 <= k < DIRECTIONS
    ensures var G, b := GraphOf(grid, from, to), Neighbor(a, k);
            var v, h := Idx(grid.width, b), Heuristic(b, to, LeastCost(grid));
            && G.next(u, k) == (if Passable(grid, a, b) then v else -1)
            && IsAdjacent(a, b) && (!grid.InBounds(b.x, b.y) ==> !Passable(grid, a, b))
            && (grid.InBounds(b.x, b.y) ==>
                  && 0 <= v < grid.width * grid.height
                  && G.w(u, v) == StepCost(grid, a, b)
                  && G.h(v) == h && G.x(v) == b.x && G.y(v) == b.y)
  {
    var b := Neighbor(a, k);
    if grid.InBounds(b.x, b.y) {
      IdxTile(grid.width, grid.height, b);
    }
  }

  lemma DirectionOf(a: Tile, b: Tile) returns (k: int)
    requires IsAdjacent(a, b)
    ensures 0 <= k < DIRECTIONS && Neighbor(a, k) == b
  {
    var dx, dy := b.x - a.x, b.y - a.y;
    k := if dx == 0 then (if dy == -1 then 0 else 2)
         else if dy == 0 then (if dx == 1 then 1 else 3)
         else if dx == 1 then (if dy == -1 then 4 else 5)
         else if dy == 1 then 6 else 7;
  }

  lemma StepIsMove(grid: Grid, from: Tile, to: Tile, a: Tile, b: Tile)
    requires grid.InBounds(a.x, a.y) && Passable(grid, a, b)
    ensures Move(GraphOf(grid, from, to), Idx(grid.width, a), Idx(grid.width, b))
    ensures grid.InBounds(b.x, b.y)
  {
    IdxTile(grid.width, grid.height, a);
    IdxTile(grid.width, grid.height, b);
    var k := DirectionOf(a, b);
    assert GraphOf(grid, from, to).next(Idx(grid.width, a), k) == Idx(grid.width, b);
  }

  lemma MovesCost(grid: Grid, from: Tile, to: Tile)
    ensures PositiveMoves(GraphOf(grid, from, to))
  {
    var G := GraphOf(grid, from, to);
    forall u, v | Move(G, u, v) ensures G.w(u, v) > 0 {
      MoveIsStep(grid, from, to, u, v);
    }
  }

  /** What MinMoveCostUnits promises about a grid. */
  ghost predicate CostsBoundedBelow(grid: Grid) {
    forall x, y | grid.InBounds(x, y) && grid.walkable(x, y) && grid.cost(x, y) > 0 ::
      grid.minCost <= grid.cost(x, y)
  }

  lemma OctileStep(a: Tile, b: Tile, to: Tile)
    requires IsAdjacent(a, b)
    ensures Octile(a, to) <= (if IsDiagonalTo(a, b) then COST_SCALE_DIAG else COST_SCALE_ORTHO) + Octile(b, to)
  {}

  lemma HeuristicIsOctile(a: Tile, to: Tile, m: int)
    ensures Heuristic(a, to, m) == m * Octile(a, to)
  {
    var dx, dy := Abs(to.x - a.x), Abs(to.y - a.y);
    var diag := if dx < dy then dx else dy;
    Distribute(m, COST_SCALE_ORTHO, dx + dy - 2 * diag, COST_SCALE_DIAG, diag);
  }

  lemma Distribute(m: int, a: int, s: int, b: int, d: int)
    ensures m * a * s + m * b * d == m * (a * s + b * d)
  {}

  /** 1000 <= 1414 <= 2000, weighted by the least cost: the estimate is consistent. */
  lemma HeuristicConsistent(grid: Grid, from: Tile, to: Tile)
    requires CostsBoundedBelow(grid) && grid.InBounds(to.x, to.y)
    ensures Consistent(GraphOf(grid, from, to))
    ensures forall u :: GraphOf(grid, from, to).h(u) >= 0
  {
    var G, m := GraphOf(grid, from, to), LeastCost(grid);
    forall u ensures G.h(u) >= 0 {
      EstimateNotNegative(grid, TileOf(grid.width, u), to);
    }
    IdxTile(grid.width, grid.height, to);
    forall u, v | Move(G, u, v) ensures G.h(u) <= G.w(u, v) + G.h(v) {
      var a, b := TileOf(grid.width, u), TileOf(grid.width, v);
      MoveIsStep(grid, from, to, u, v);
      EstimateStep(grid, a, b, to);
    }
  }

  lemma EstimateNotNegative(grid: Grid, a: Tile, to: Tile)
    ensures Heuristic(a, to, LeastCost(grid)) >= 0
  {
    HeuristicIsOctile(a, to, LeastCost(grid));
    MulMono(0, Octile(a, to), LeastCost(grid));
  }

  lemma EstimateStep(grid: Grid, a: Tile, b: Tile, to: Tile)
    requires CostsBoundedBelow(grid) && Passable(grid, a, b)
    ensures Heuristic(a, to, LeastCost(grid)) <= StepCost(grid, a, b) + Heuristic(b, to, LeastCost(grid))
  {
    var m, c := LeastCost(grid), grid.cost(b.x, b.y);
    var scale := if IsDiagonalTo(a, b) then COST_SCALE_DIAG else COST_SCALE_ORTHO;
    HeuristicIsOctile(a, to, m);
    HeuristicIsOctile(b, to, m);
    OctileStep(a, b, to);
    MulMono(Octile(a, to), scale + Octile(b, to), m);
    Distribute(m, 1, scale, 1, Octile(b, to));
    MulMono(m, c, scale);
  }

  /** A route of tiles is a path of the graph at the same cost. */
  lemma {:induction false} RouteIsPath(grid: Grid, r: seq<Tile>, from: Tile, to: Tile, end: Tile)
    requires IsRoute(grid, r, from, end) && grid.InBounds(from.x, from.y)
    ensures var G := GraphOf(grid, from, to);
            IsPath(G, Indices(grid.width, r)) && Cost(G, Indices(grid.width, r)) == RouteCost(grid, r)
    ensures var p := Indices(grid.width, r); p[|p| - 1] == Idx(grid.width, end)
    ensures grid.InBounds(end.x, end.y)
  {
    hide Passable, Next, Idx, Heuristic;
    var G, p := GraphOf(grid, from, to), Indices(grid.width, r);
    if |r| > 1 {
      var q := r[..|r| - 1];
      RouteIsPath(grid, q, from, to, r[|r| - 2]);
      assert p[..|p| - 1] == Indices(grid.width, q);
      assert Passable(grid, r[|r| - 2], end);
      StepIsMove(grid, from, to, r[|r| - 2], end);
      IdxTile(grid.width, grid.height, r[|r| - 2]);
      IdxTile(grid.width, grid.height, end);
      forall i | 0 < i < |p| ensures Move(G, p[i - 1], p[i]) {
        assert i < |p| - 1 ==> Move(G, p[..|p| - 1][i - 1], p[..|p| - 1][i]);
      }
    }
  }

  /** A path of the graph is a route of tiles at the same cost. */
  lemma {:induction false} PathIsRoute(grid: Grid, p: seq<int>, from: Tile, to: Tile)
    requires IsPath(GraphOf(grid, from, to), p) && grid.InBounds(from.x, from.y)
    ensures IsRoute(grid, Tiles(grid.width, p), from, TileOf(grid.width, p[|p| - 1]))
    ensures Cost(GraphOf(grid, from, to), p) == RouteCost(grid, Tiles(grid.width, p))
  {
    var r := Tiles(grid.width, p);
    IdxTile(grid.width, grid.height, from);
    if |p| > 1 {
      var q := p[..|p| - 1];
      PathIsRoute(grid, q, from, to);
      assert r[..|r| - 1] == Tiles(grid.width, q);
      assert Move(GraphOf(grid, from, to), p[|p| - 2], p[|p| - 1]);
      MoveIsStep(grid, from, to, p[|p| - 2], p[|p| - 1]);
      forall i | 0 < i < |r| ensures Passable(grid, r[i - 1], r[i]) {
        assert i < |r| - 1 ==> Passable(grid, r[..|r| - 1][i - 1], r[..|r| - 1][i]);
      }
    }
  }

  // ---------------------------------------------------------------------
  // What the estimate is
  // ---------------------------------------------------------------------

  /** A step over an edge costs a thousand times the cost of the tile entered, and one
      over a corner 1414 times. */
  lemma StepCostMeans(grid: Grid, a: Tile, b: Tile)
    ensures a.x == b.x || a.y == b.y ==> StepCost(grid, a, b) == 1000 * grid.cost(b.x, b.y)
    ensures a.x != b.x && a.y != b.y ==> StepCost(grid, a, b) == 1414 * grid.cost(b.x, b.y)
  {
  }

  /** Ground where every tile can be walked on at the least cost. */
  ghost predicate IsOpen(grid: Grid) {
    forall x, y | grid.InBounds(x, y) :: grid.walkable(x, y) && grid.cost(x, y) == LeastCost(grid)
  }

  function Sign(v: int): int {
    if v > 0 then 1 else if v < 0 then -1 else 0
  }

  /** The tile before the goal on a way that goes over corners while it can. */
  function Nearer(a: Tile, to: Tile): Tile {
    Tile(to.x - Sign(to.x - a.x), to.y - Sign(to.y - a.y))
  }

  lemma EstimateLastStep(grid: Grid, a: Tile, to: Tile)
    requires a != to && grid.cost(to.x, to.y) == LeastCost(grid)
    ensures var p := Nearer(a, to);
      Heuristic(a, to, LeastCost(grid)) == Heuristic(a, p, LeastCost(grid)) + StepCost(grid, p, to)
  {
    var p, m := Nearer(a, to), LeastCost(grid);
    EstimateIsOctile(a, to, m);
    EstimateIsOctile(a, p, m);
    assert Octile(a, to) == Octile(a, p) + if IsDiagonalTo(p, to) then COST_SCALE_DIAG else COST_SCALE_ORTHO;
    Twice(m, Octile(a, p), if IsDiagonalTo(p, to) then COST_SCALE_DIAG else COST_SCALE_ORTHO);
  }

  lemma EstimateIsOctile(a: Tile, to: Tile, m: int)
    ensures Heuristic(a, to, m) == m * Octile(a, to)
  {
  }

  lemma Twice(m: int, a: int, b: int)
    ensures m * (a + b) == m * a + m * b
  {
  }

  lemma {:induction false} OpenRoute(grid: Grid, a: Tile, to: Tile) returns (r: seq<Tile>)
    requires IsOpen(grid) && grid.InBounds(a.x, a.y) && grid.InBounds(to.x, to.y)
    ensures IsRoute(grid, r, a, to) && RouteCost(grid, r) == Heuristic(a, to, LeastCost(grid))
    decreases Chebyshev(a, to)
  {
    if a == to {
      r := [a];
    } else {
      hide Heuristic, StepCost;
      var p := Nearer(a, to);
      EstimateLastStep(grid, a, to);
      var before := OpenRoute(grid, a, p);
      r := before + [to];
      assert r[..|r| - 1] == before;
      assert Passable(grid, p, to) by { OpenStep(grid, a, to); }
    }
  }

  lemma OpenStep(grid: Grid, a: Tile, to: Tile)
    requires IsOpen(grid) && grid.InBounds(a.x, a.y) && grid.InBounds(to.x, to.y) && a != to
    ensures Passable(grid, Nearer(a, to), to)
  {
    var p := Nearer(a, to);
    assert grid.InBounds(p.x, p.y) && grid.InBounds(to.x, p.y) && grid.InBounds(p.x, to.y);
  }

  /** No route is cheaper than the estimate. */
  lemma {:induction false} EstimateIsLower(grid: Grid, r: seq<Tile>, a: Tile, to: Tile)
    requires CostsBoundedBelow(grid) && IsRoute(grid, r, a, to)
    ensures Heuristic(a, to, LeastCost(grid)) <= RouteCost(grid, r)
    decreases |r|
  {
    if |r| == 1 {
      EstimateIsOctile(a, to, LeastCost(grid));
    } else {
      hide Heuristic;
      var p := r[|r| - 2];
      EstimateIsLower(grid, r[..|r| - 1], a, p);
      assert Passable(grid, p, to);
      StepBound(grid, a, p, to);
    }
  }

  lemma StepBound(grid: Grid, a: Tile, p: Tile, to: Tile)
    requires CostsBoundedBelow(grid) && Passable(grid, p, to)
    ensures Heuristic(a, to, LeastCost(grid)) <= Heuristic(a, p, LeastCost(grid)) + StepCost(grid, p, to)
  {
    var m, scale := LeastCost(grid), if IsDiagonalTo(p, to) then COST_SCALE_DIAG else COST_SCALE_ORTHO;
    EstimateIsOctile(a, to, m);
    EstimateIsOctile(a, p, m);
    assert Octile(a, to) <= Octile(a, p) + scale;
    MulMono(Octile(a, to), Octile(a, p) + scale, m);
    Twice(m, Octile(a, p), scale);
    MulMono(m, grid.cost(to.x, to.y), scale);
  }

  /** The estimate is what the cheapest route would cost over open ground. */
  lemma EstimateMeans(grid: Grid, a: Tile, to: Tile)
    requires IsOpen(grid) && grid.InBounds(a.x, a.y) && grid.InBounds(to.x, to.y)
    ensures exists r :: IsRoute(grid, r, a, to) && RouteCost(grid, r) == Heuristic(a, to, LeastCost(grid))
    ensures forall r | IsRoute(grid, r, a, to) :: Heuristic(a, to, LeastCost(grid)) <= RouteCost(grid, r)
  {
    hide Heuristic, RouteCost, IsRoute;
    var r := OpenRoute(grid, a, to);
    forall r | IsRoute(grid, r, a, to) ensures Heuristic(a, to, LeastCost(grid)) <= RouteCost(grid, r) {
      EstimateIsLower(grid, r, a, to);
    }
  }
}
