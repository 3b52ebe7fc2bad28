// From a search to a unit under way: what pathfinding, timing and re-checking
// promise together.

module Journey {
  import opened World
  import opened Wrappers
  import opened GridGraph
  import opened AStar
  import opened Movement

  predicate CleanStep(tiles: seq<Tile>, grid: Grid, i: int)
    requires 0 < i < |tiles|
  {
    var a, b := tiles[i - 1], tiles[i];
    && grid.walkable(b.x, b.y) && grid.cost(b.x, b.y) > 0
    && (IsDiagonalTo(a, b) ==> grid.walkable(a.x, b.y) && grid.walkable(b.x, a.y))
  }

  /** What makes a timed route pass validation on the grid it was built from. */
  ghost predicate Clean(tiles: seq<Tile>, grid: Grid) {
    && |tiles| > 0 && grid.Walkable(tiles[0])
    && forall i | 0 < i < |tiles| :: CleanStep(tiles, grid, i)
  }

  /** The builder checks less than the validator. What it accepts is valid exactly
      when its origin is walkable, every step costs something and no corner is cut. */
  lemma BuiltIsValidIffClean(tiles: seq<Tile>, grid: Grid, base: int)
    requires Built(tiles, grid, base).Ok?
    ensures Verdict(Built(tiles, grid, base).value, Some(grid)).None? <==> Clean(tiles, grid)
  {
    hide StepDurationMs;
    var p := Waypoints(tiles, grid, base);
    BuildErrorNone(tiles, grid, 1);
    FirstErrorNone(p, Some(grid), 0);
    forall i | 0 < i < |p| ensures WaypointError(p, Some(grid), i).None? <==> CleanStep(tiles, grid, i) {
      assert BuildStepError(tiles, grid, i).None?;
      assert p[i].tMs == p[i - 1].tMs + StepMs(tiles, grid, base, i);
      StepTakesTime(base, grid.cost(tiles[i].x, tiles[i].y), IsDiagonalTo(tiles[i - 1], tiles[i]));
    }
    assert WaypointError(p, Some(grid), 0).None? <==> grid.Walkable(tiles[0]);
  }

  /** The builder does accept unclean routes: a corner is cut here. */
  lemma BuilderAcceptsCutCorner()
    ensures var grid := Grid(2, 2, (x, y) => x == y, (x, y) => 10, 6);
            var tiles := [Tile(0, 0), Tile(1, 1)];
            Built(tiles, grid, 600).Ok? && Verdict(Built(tiles, grid, 600).value, Some(grid)) == Some(CutsCorner)
  {
    var grid := Grid(2, 2, (x, y) => x == y, (x, y) => 10, 6);
    var tiles := [Tile(0, 0), Tile(1, 1)];
    assert BuildStepError(tiles, grid, 1).None?;
    assert BuildError(tiles, grid, 2).None?;
    var p := Built(tiles, grid, 600).value;
    assert p[0] == Waypoint(0, 0, 0);
    assert p[1].tMs == ReachedAt(tiles, grid, 600, 0) + StepMs(tiles, grid, 600, 1);
    assert WaypointError(p, Some(grid), 0).None?;
    assert WaypointError(p, Some(grid), 1) == Some(CutsCorner);
  }

  /** Every path that the pathfinder returns becomes a valid polyline. */
  lemma FoundPathIsValid(grid: Grid, from: Tile, to: Tile, limits: Limits, base: int)
    requires limits.maxNodes >= 0 && base > 0 && Path(grid, from, to, limits).Ok?
    ensures var tiles := Path(grid, from, to, limits).value;
            && Built(tiles, grid, base).Ok?
            && Verdict(Built(tiles, grid, base).value, Some(grid)).None?
            && Increasing(Built(tiles, grid, base).value)
            && Position(Built(tiles, grid, base).value, 0.0) == from
            && Position(Built(tiles, grid, base).value, DurationMs(Built(tiles, grid, base).value) as real) == to
  {
    hide Path, StepDurationMs, Verdict;
    var tiles := Path(grid, from, to, limits).value;
    FoundIsRoute(grid, from, to, limits);
    FoundFromWalkable(grid, from, to, limits);
    RouteIsClean(tiles, grid, from, to, base);
    BuiltIsValidIffClean(tiles, grid, base);
    var p := Waypoints(tiles, grid, base);
    ValidIsIncreasing(p, Some(grid));
    IndexAtReached(p, 0);
    IndexAtReached(p, |p| - 1);
  }

  lemma FoundFromWalkable(grid: Grid, from: Tile, to: Tile, limits: Limits)
    requires limits.maxNodes >= 0 && Path(grid, from, to, limits).Ok?
    ensures grid.Walkable(from)
  {}

  lemma RouteIsClean(tiles: seq<Tile>, grid: Grid, from: Tile, to: Tile, base: int)
    requires IsRoute(grid, tiles, from, to) && grid.Walkable(from) && base > 0
    ensures Clean(tiles, grid) && Built(tiles, grid, base) == Ok(Waypoints(tiles, grid, base))
  {
    forall i | 0 < i < |tiles| ensures CleanStep(tiles, grid, i) && BuildStepError(tiles, grid, i).None? {
      assert Passable(grid, tiles[i - 1], tiles[i]);
    }
    BuildErrorNone(tiles, grid, 1);
  }

  /** A journey that was planned on `grid` and passes the re-check on the grid as
      it is `now` never leaves walkable ground until it arrives where it was sent. */
  lemma JourneyStaysSafe(
    grid: Grid, from: Tile, to: Tile, limits: Limits, base: int, p: TimedPath,
    now: real, changed: Grid, later: real)
    requires limits.maxNodes >= 0 && base > 0 && Path(grid, from, to, limits).Ok?
    requires Built(Path(grid, from, to, limits).value, grid, base) == Ok(p)
    requires now <= later && VerdictFrom(p, Index(p, now), changed).None?
    ensures changed.Walkable(Position(p, later))
    ensures later >= DurationMs(p) as real ==> Position(p, later) == to
  {
    FoundPathIsValid(grid, from, to, limits, base);
    RecheckIsExact(p, now, changed);
    if later >= DurationMs(p) as real {
      IndexMonotone(p, DurationMs(p) as real, later);
    }
  }

  /** What the builder and the validator accept, inside the world, is a route of the
      pathfinder. */
  lemma ValidIsRoute(tiles: seq<Tile>, grid: Grid, base: int)
    requires Built(tiles, grid, base).Ok? && Verdict(Built(tiles, grid, base).value, Some(grid)).None?
    requires forall t | t in tiles :: grid.InBounds(t.x, t.y)
    ensures |tiles| > 0 && IsRoute(grid, tiles, tiles[0], tiles[|tiles| - 1])
  {
    hide StepDurationMs, Verdict, DurationMs;
    BuiltIsValidIffClean(tiles, grid, base);
    hide Built;
    forall i | 0 < i < |tiles| ensures Passable(grid, tiles[i - 1], tiles[i]) {
      BuiltStep(tiles, grid, base, i);
      assert CleanStep(tiles, grid, i) && tiles[i] in tiles;
    }
  }

  lemma BuiltStep(tiles: seq<Tile>, grid: Grid, base: int, i: int)
    requires Built(tiles, grid, base).Ok? && 0 < i < |tiles|
    ensures IsAdjacent(tiles[i - 1], tiles[i])
  {
    BuildErrorNone(tiles, grid, 1);
    assert BuildStepError(tiles, grid, i).None?;
  }

  /** So it never says that there is no way to the end of a journey that is valid, and
      never finds a dearer one. */
  lemma ValidIsFound(tiles: seq<Tile>, grid: Grid, base: int, limits: Limits)
    requires limits.maxNodes >= 0 && Built(tiles, grid, base).Ok?
    requires Verdict(Built(tiles, grid, base).value, Some(grid)).None?
    requires forall t | t in tiles :: grid.InBounds(t.x, t.y)
    ensures |tiles| > 0 && Path(grid, tiles[0], tiles[|tiles| - 1], limits) != Err(PathNotFound)
    ensures var r := Path(grid, tiles[0], tiles[|tiles| - 1], limits);
      r.Ok? && CostsBoundedBelow(grid) ==> RouteCost(grid, r.value) <= RouteCost(grid, tiles)
  {
    ValidIsRoute(tiles, grid, base);
    hide StepDurationMs, Verdict, Built, Path, RouteCost, IsRoute;
    var from, to := tiles[0], tiles[|tiles| - 1];
    if Path(grid, from, to, limits) == Err(PathNotFound) {
      NotFoundMeansNoRoute(grid, from, to, limits, tiles);
    }
    if Path(grid, from, to, limits).Ok? && CostsBoundedBelow(grid) {
      FoundIsOptimal(grid, from, to, limits, tiles);
    }
  }
}
