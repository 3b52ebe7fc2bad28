// Tiles, terrain and the view of the world that the other components take.

module World {
  datatype Tile = Tile(x: int, y: int)

  function Abs(v: int): nat {
    if v < 0 then -v else v
  }

  function Chebyshev(a: Tile, b: Tile): nat {
    var dx, dy := Abs(a.x - b.x), Abs(a.y - b.y);
    if dx > dy then dx else dy
  }

  predicate IsAdjacent(a: Tile, b: Tile) {
    Abs(a.x - b.x) <= 1 && Abs(a.y - b.y) <= 1 && a != b
  }

  predicate IsDiagonalTo(a: Tile, b: Tile) {
    a.x != b.x && a.y != b.y
  }

  datatype Terrain = Grassland | Forest | Hill | Mountain | Water | Road {
    predicate Walkable() {
      this != Mountain && this != Water
    }

    /** Cost of entering the terrain, in tenths of the base cost. */
    function CostUnits(): nat {
      match this
      case Grassland => 10
      case Forest => 16
      case Hill => 18
      case Mountain => 0
      case Water => 0
      case Road => 6
    }
  }

  const COST_BASE := 10
  const MIN_TERRAIN_COST_UNITS := 6

  /** Exactly the terrains that can be walked on cost something: forest 1.6 times, a hill
      1.8 times and a road 0.6 times as much as grassland, which is the least of all. */
  lemma CostsMean(t: Terrain)
    ensures t.Walkable() <==> t.CostUnits() > 0
    ensures t.Walkable() <==> t in {Grassland, Forest, Hill, Road}
    ensures t.Walkable() ==> MIN_TERRAIN_COST_UNITS <= t.CostUnits()
    ensures Grassland.CostUnits() == COST_BASE && Road.CostUnits() == MIN_TERRAIN_COST_UNITS
    ensures 5 * Forest.CostUnits() == 8 * COST_BASE && 5 * Hill.CostUnits() == 9 * COST_BASE
    ensures 5 * Road.CostUnits() == 3 * COST_BASE
  {
  }

  /** The narrow interface that pathfinding and movement take. Any record of
      functions is a grid; what a caller promises about one is a predicate. */
  datatype Grid = Grid(width: int, height: int, walkable: (int, int) -> bool, cost: (int, int) -> int, minCost: int) {
    predicate InBounds(x: int, y: int) {
      0 <= x < width && 0 <= y < height
    }

    predicate Walkable(t: Tile) {
      walkable(t.x, t.y)
    }
  }

  /** The logical map: immutable terrain under a layer of built-up tiles.
      `terrain` is only consulted inside the bounds. */
  datatype Map = Map(width: int, height: int, terrain: Tile -> Terrain, blocked: set<Tile>) {
    predicate InBounds(t: Tile) {
      0 <= t.x < width && 0 <= t.y < height
    }

    /** The edge of the world behaves as water. */
    function TerrainAt(t: Tile): Terrain {
      if InBounds(t) then terrain(t) else Water
    }

    predicate IsBlocked(t: Tile) {
      !InBounds(t) || t in blocked
    }

    predicate IsWalkable(t: Tile) {
      InBounds(t) && terrain(t).Walkable() && t !in blocked
    }

    function MoveCostUnits(t: Tile): nat {
      if IsWalkable(t) then terrain(t).CostUnits() else 0
    }

    function AsGrid(): Grid {
      Grid(width, height,
           (x, y) => IsWalkable(Tile(x, y)),
           (x, y) => MoveCostUnits(Tile(x, y)),
           MIN_TERRAIN_COST_UNITS)
    }

    /** The map after a rectangle has been built up. */
    function Wall(minX: int, minY: int, maxX: int, maxY: int): Map {
      this.(blocked := blocked + set x, y | minX <= x <= maxX && minY <= y <= maxY :: Tile(x, y))
    }
  }
}
