// A founded city keeps its way to wood, whatever is founded later.

module WoodRoads {
  import opened World
  import opened Wrappers
  import opened GridGraph
  import opened AStar
  import opened Founding

  /** The world once the walls of a city stand. */
  function Walled(w: Map, c: Tile): Map {
    w.Wall(c.x - URBAN_RADIUS, c.y - URBAN_RADIUS, c.x + URBAN_RADIUS, c.y + URBAN_RADIUS)
  }

  function AllWalled(w: Map, centers: seq<Tile>): Map {
    if |centers| == 0 then w else Walled(AllWalled(w, centers[..|centers| - 1]), centers[|centers| - 1])
  }

  /** Cities founded one after another, each far enough from those before it. */
  ghost predicate Foundings(centers: seq<Tile>) {
    forall k | 0 <= k < |centers| :: KeepsDistance(centers[k], centers[..k])
  }

  /** Every centre is `center` itself or far from it. */
  ghost predicate Apart(center: Tile, centers: seq<Tile>) {
    forall d | d in centers :: d == center || Chebyshev(center, d) >= MIN_CITY_DISTANCE
  }

  lemma FoundingsAreApart(centers: seq<Tile>, k: nat)
    requires Foundings(centers) && k < |centers|
    ensures Apart(centers[k], centers)
  {
    forall j | 0 <= j < |centers| && j != k ensures Chebyshev(centers[k], centers[j]) >= MIN_CITY_DISTANCE {
      if j < k {
        assert centers[j] in centers[..k] && KeepsDistance(centers[k], centers[..k]);
      } else {
        assert centers[k] in centers[..j] && KeepsDistance(centers[j], centers[..j]);
      }
    }
  }

  // ---------------------------------------------------------------------
  // Roads
  // ---------------------------------------------------------------------

  ghost predicate IsRoad(w: Map, p: seq<Tile>, a: Tile, b: Tile) {
    && |p| > 0 && p[0] == a && p[|p| - 1] == b
    && (forall i | 0 <= i < |p| :: w.IsWalkable(p[i]))
    && (forall i | 0 < i < |p| :: FourAdjacent(p[i - 1], p[i]))
  }

  ghost predicate Joined(w: Map, a: Tile, b: Tile) {
    exists p :: IsRoad(w, p, a, b)
  }

  lemma JoinedStep(w: Map, a: Tile, b: Tile, c: Tile)
    requires Joined(w, a, b) && w.IsWalkable(c) && FourAdjacent(b, c)
    ensures Joined(w, a, c)
  {
    var p :| IsRoad(w, p, a, b);
    assert IsRoad(w, p + [c], a, c);
  }

  lemma JoinedBack(w: Map, a: Tile, b: Tile)
    requires Joined(w, a, b)
    ensures Joined(w, b, a)
  {
    var p :| IsRoad(w, p, a, b);
    var r := Reversed(p);
    forall i | 0 < i < |r| ensures FourAdjacent(r[i - 1], r[i]) {
      assert FourAdjacent(p[|p| - 1 - i], p[|p| - i]);
    }
    assert IsRoad(w, r, b, a);
  }

  lemma JoinedThrough(w: Map, a: Tile, b: Tile, c: Tile)
    requires Joined(w, a, b) && Joined(w, b, c)
    ensures Joined(w, a, c)
  {
    var p :| IsRoad(w, p, a, b);
    var q :| IsRoad(w, q, b, c);
    var r := p + q[1..];
    forall i | 0 < i < |r| ensures FourAdjacent(r[i - 1], r[i]) {
      if i >= |p| {
        assert r[i] == q[i - |p| + 1] && r[i - 1] == q[i - |p|];
      }
    }
    assert IsRoad(w, r, a, c);
  }

  /** A road is a route for the pathfinder: no diagonals, no corners. */
  lemma RoadIsRoute(w: Map, p: seq<Tile>, a: Tile, b: Tile)
    requires IsRoad(w, p, a, b)
    ensures IsRoute(w.AsGrid(), p, a, b)
  {
    forall i | 0 < i < |p| ensures Passable(w.AsGrid(), p[i - 1], p[i]) {
      assert FourAdjacent(p[i - 1], p[i]) && w.IsWalkable(p[i]);
      assert Tile(p[i].x, p[i].y) == p[i];
    }
  }

  /** The promise that the map makes to the pathfinder about its least cost. */
  lemma MapCostsBounded(w: Map)
    ensures CostsBoundedBelow(w.AsGrid())
  {}

  // ---------------------------------------------------------------------
  // The ring of a city
  // ---------------------------------------------------------------------

  /** A tour of the sixteen tiles at distance two. */
  function RingTile(c: Tile, k: nat): Tile
    requires k < 16
  {
    var o := k % 4;
    if k < 4 then Tile(c.x - 2 + o, c.y - 2)
    else if k < 8 then Tile(c.x + 2, c.y - 2 + o)
    else if k < 12 then Tile(c.x + 2 - o, c.y + 2)
    else Tile(c.x - 2, c.y + 2 - o)
  }

  /** The next tile of the tour is beside it and on the ring. */
  lemma TourStep(c: Tile, k: nat)
    requires 0 < k < 16
    ensures FourAdjacent(RingTile(c, k - 1), RingTile(c, k)) && Chebyshev(c, RingTile(c, k)) == SPAWN_RADIUS
  {
  }

  lemma {:induction false} TourIsJoined(w: Map, c: Tile, k: nat)
    requires k < 16 && forall t | Chebyshev(c, t) == SPAWN_RADIUS :: w.IsWalkable(t)
    ensures Joined(w, RingTile(c, 0), RingTile(c, k))
  {
    if k == 0 {
      assert IsRoad(w, [RingTile(c, 0)], RingTile(c, 0), RingTile(c, 0));
    } else {
      hide IsRoad, RingTile;
      TourStep(c, k);
      TourIsJoined(w, c, k - 1);
      JoinedStep(w, RingTile(c, 0), RingTile(c, k - 1), RingTile(c, k));
    }
  }

  lemma RingIsJoined(w: Map, c: Tile, a: Tile, b: Tile)
    requires forall t | Chebyshev(c, t) == SPAWN_RADIUS :: w.IsWalkable(t)
    requires a in SpawnTilesAround(c) && b in SpawnTilesAround(c)
    ensures Joined(w, a, b)
  {
    var j := PlaceInTour(c, a);
    var k := PlaceInTour(c, b);
    TourIsJoined(w, c, j);
    TourIsJoined(w, c, k);
    JoinedBack(w, RingTile(c, 0), a);
    JoinedThrough(w, a, RingTile(c, 0), b);
  }

  lemma PlaceInTour(c: Tile, a: Tile) returns (k: nat)
    requires a in SpawnTilesAround(c)
    ensures k < 16 && RingTile(c, k) == a
  {
    var i :| 0 <= i < 8 && SpawnTilesAround(c)[i] == a;
    k := [6, 14, 10, 2, 8, 0, 4, 12][i];
  }

  // ---------------------------------------------------------------------
  // Walls
  // ---------------------------------------------------------------------

  /** Walls stand within one tile of their centre and nowhere else. */
  lemma WallSparesRest(w: Map, c: Tile, t: Tile)
    requires Chebyshev(c, t) > URBAN_RADIUS
    ensures Walled(w, c).IsWalkable(t) == w.IsWalkable(t)
  {}

  /** Ground within eight tiles of a centre is out of reach of every city apart from it. */
  lemma {:induction false} GroundSurvives(w: Map, center: Tile, centers: seq<Tile>, t: Tile)
    requires Apart(center, centers) && URBAN_RADIUS < Chebyshev(center, t) <= FOREST_RADIUS
    ensures AllWalled(w, centers).IsWalkable(t) == w.IsWalkable(t)
  {
    if |centers| > 0 {
      var last := centers[|centers| - 1];
      GroundSurvives(w, center, centers[..|centers| - 1], t);
      assert last in centers && Chebyshev(last, t) > URBAN_RADIUS;
      WallSparesRest(AllWalled(w, centers[..|centers| - 1]), last, t);
    }
  }

  lemma WalkSurvives(w: Map, center: Tile, centers: seq<Tile>, p: seq<Tile>)
    requires Apart(center, centers) && IsWalk(w, center, p)
    ensures IsRoad(AllWalled(w, centers), p, p[0], p[|p| - 1])
  {
    forall i | 0 <= i < |p| ensures AllWalled(w, centers).IsWalkable(p[i]) {
      assert Ground(w, center, p[i]);
      GroundSurvives(w, center, centers, p[i]);
    }
  }

  // ---------------------------------------------------------------------
  // The promise of a founding
  // ---------------------------------------------------------------------

  /** Whatever path is found from `a` to `b`, no route costs less. */
  ghost predicate LeastCost(w: Map, a: Tile, b: Tile) {
    forall limits: Limits, r | limits.maxNodes >= 0 && Path(w.AsGrid(), a, b, limits).Ok?
        && IsRoute(w.AsGrid(), r, a, b) ::
      RouteCost(w.AsGrid(), Path(w.AsGrid(), a, b, limits).value) <= RouteCost(w.AsGrid(), r)
  }

  /** A villager can go from `a` to `b` and back: the pathfinder never answers that
      there is no path, finds one if it may look at the whole map, and none that costs
      more than it must. */
  ghost predicate Served(w: Map, a: Tile, b: Tile) {
    && (forall limits: Limits | limits.maxNodes >= 0 ::
          Path(w.AsGrid(), a, b, limits) != Err(PathNotFound) && Path(w.AsGrid(), b, a, limits) != Err(PathNotFound))
    && (forall limits: Limits | limits.maxNodes >= 0 && limits.maxNodes >= w.width * w.height
         && limits.maxDistance >= Chebyshev(a, b) ::
          Path(w.AsGrid(), a, b, limits).Ok? && Path(w.AsGrid(), b, a, limits).Ok?)
    && LeastCost(w, a, b) && LeastCost(w, b, a)
  }

  lemma MapPathsCostLeast(w: Map, a: Tile, b: Tile)
    ensures LeastCost(w, a, b)
  {
    hide Path, RouteCost;
    MapCostsBounded(w);
    forall limits: Limits, r | limits.maxNodes >= 0 && Path(w.AsGrid(), a, b, limits).Ok?
        && IsRoute(w.AsGrid(), r, a, b)
      ensures RouteCost(w.AsGrid(), Path(w.AsGrid(), a, b, limits).value) <= RouteCost(w.AsGrid(), r)
    {
      FoundIsRoute(w.AsGrid(), a, b, limits);
      FoundIsOptimal(w.AsGrid(), a, b, limits, r);
    }
  }

  lemma JoinedIsFound(w: Map, a: Tile, b: Tile, limits: Limits)
    requires Joined(w, a, b) && limits.maxNodes >= 0
    ensures Path(w.AsGrid(), a, b, limits) != Err(PathNotFound)
    ensures limits.maxNodes >= w.width * w.height && limits.maxDistance >= Chebyshev(a, b) ==>
        Path(w.AsGrid(), a, b, limits).Ok?
  {
    hide Path;
    var p :| IsRoad(w, p, a, b);
    RoadIsRoute(w, p, a, b);
    if Path(w.AsGrid(), a, b, limits) == Err(PathNotFound) {
      NotFoundMeansNoRoute(w.AsGrid(), a, b, limits, p);
    }
    assert w.IsWalkable(p[0]) && w.IsWalkable(p[|p| - 1]);
    assert Tile(a.x, a.y) == a && Tile(b.x, b.y) == b;
    if limits.maxNodes >= w.width * w.height {
      PathDecidesReachability(w.AsGrid(), a, b, limits);
    }
  }

  lemma JoinedIsServed(w: Map, a: Tile, b: Tile)
    requires Joined(w, a, b)
    ensures Served(w, a, b)
  {
    hide Path, LeastCost;
    JoinedBack(w, a, b);
    MapPathsCostLeast(w, a, b);
    MapPathsCostLeast(w, b, a);
    forall limits: Limits | limits.maxNodes >= 0
      ensures Path(w.AsGrid(), a, b, limits) != Err(PathNotFound) && Path(w.AsGrid(), b, a, limits) != Err(PathNotFound)
      ensures limits.maxNodes >= w.width * w.height && limits.maxDistance >= Chebyshev(a, b) ==>
                Path(w.AsGrid(), a, b, limits).Ok? && Path(w.AsGrid(), b, a, limits).Ok?
    {
      JoinedIsFound(w, a, b, limits);
      JoinedIsFound(w, b, a, limits);
    }
  }

  /** What is within reach of a viable site stays within reach of every villager
      of the city, after its own walls and those of all cities apart from it. */
  lemma ReachableStaysServed(w: Map, center: Tile, centers: seq<Tile>, spawn: Tile, t: Tile)
    requires Clear(w, center) && Apart(center, centers)
    requires spawn in SpawnTilesAround(center) && Reachable(w, center, t)
    ensures Served(AllWalled(w, centers), spawn, t)
  {
    var v := AllWalled(w, centers);
    var p :| IsWalk(w, center, p) && p[|p| - 1] == t;
    WalkSurvives(w, center, centers, p);
    forall r | Chebyshev(center, r) == SPAWN_RADIUS ensures v.IsWalkable(r) {
      GroundSurvives(w, center, centers, r);
    }
    RingIsJoined(v, center, spawn, p[0]);
    assert Joined(v, p[0], t);
    JoinedThrough(v, spawn, p[0], t);
    JoinedIsServed(v, spawn, t);
  }

  /** Every founded city keeps its wood: at least ten wooded tiles that each of
      its villagers can reach, over any sequence of foundings. */
  lemma CityKeepsItsWood(w: Map, center: Tile, existing: seq<Tile>, hasWood: Option<Tile -> bool>)
      returns (wood: set<Tile>)
    requires Viable(w, center, existing, hasWood)
    ensures |wood| >= FOUNDING_FOREST_TILES && forall t | t in wood :: Wooded(w, hasWood, t)
    ensures forall centers, spawn, t | Foundings(centers) && center in centers && spawn in SpawnTilesAround(center)
        && t in wood ::
              Served(AllWalled(w, centers), spawn, t)
  {
    hide Served;
    wood :| |wood| >= FOUNDING_FOREST_TILES && WoodedAndReachable(w, center, hasWood, wood);
    forall centers, spawn, t | Foundings(centers) && center in centers && spawn in SpawnTilesAround(center) && t in wood
      ensures Served(AllWalled(w, centers), spawn, t)
    {
      var k :| 0 <= k < |centers| && centers[k] == center;
      FoundingsAreApart(centers, k);
      ReachableStaysServed(w, center, centers, spawn, t);
    }
  }
}
