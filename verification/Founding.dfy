// Where a new city may stand, and why it never loses its way to wood.

module Founding {
  import opened World
  import opened Wrappers

  const URBAN_RADIUS := 1
  const CLEAR_RADIUS := 3
  const SPAWN_RADIUS := 2
  const MIN_CITY_DISTANCE := 24
  const FOREST_RADIUS := 8
  const FOUNDING_FOREST_TILES := 10

  const SPAWN_OFFSETS: seq<Tile> := [
    Tile(SPAWN_RADIUS, 0), Tile(-SPAWN_RADIUS, 0),
    Tile(0, SPAWN_RADIUS), Tile(0, -SPAWN_RADIUS),
    Tile(SPAWN_RADIUS, SPAWN_RADIUS), Tile(-SPAWN_RADIUS, -SPAWN_RADIUS),
    Tile(SPAWN_RADIUS, -SPAWN_RADIUS), Tile(-SPAWN_RADIUS, SPAWN_RADIUS)]

  function Plus(a: Tile, d: Tile): Tile {
    Tile(a.x + d.x, a.y + d.y)
  }

  /** The ring where villagers are born, in its fixed order. */
  function SpawnTilesAround(center: Tile): (r: seq<Tile>)
    ensures |r| == 8 && forall t | t in r :: Chebyshev(center, t) == SPAWN_RADIUS
  {
    seq(8, i requires 0 <= i < 8 => Plus(center, SPAWN_OFFSETS[i]))
  }

  const FOUR_NEIGHBOURS: seq<Tile> := [Tile(0, -1), Tile(-1, 0), Tile(1, 0), Tile(0, 1)]

  predicate FourAdjacent(a: Tile, b: Tile) {
    Abs(a.x - b.x) + Abs(a.y - b.y) == 1
  }

  // ---------------------------------------------------------------------
  // What it means to have wood within reach
  // ---------------------------------------------------------------------

  /** Walkable ground near a centre, outside its walls. */
  predicate Ground(w: Map, center: Tile, t: Tile) {
    URBAN_RADIUS < Chebyshev(center, t) <= FOREST_RADIUS && w.IsWalkable(t)
  }

  /** A walk in four directions over such ground, from the ring of the city. */
  ghost predicate IsWalk(w: Map, center: Tile, p: seq<Tile>) {
    && |p| > 0 && p[0] in SpawnTilesAround(center)
    && (forall i | 0 <= i < |p| :: Ground(w, center, p[i]))
    && (forall i | 0 < i < |p| :: FourAdjacent(p[i - 1], p[i]))
  }

  ghost predicate Reachable(w: Map, center: Tile, t: Tile) {
    exists p :: IsWalk(w, center, p) && p[|p| - 1] == t
  }

  predicate Wooded(w: Map, hasWood: Option<Tile -> bool>, t: Tile) {
    w.TerrainAt(t) == Forest && (hasWood.None? || hasWood.value(t))
  }

  ghost predicate WoodedAndReachable(w: Map, center: Tile, hasWood: Option<Tile -> bool>, s: set<Tile>) {
    forall t | t in s :: Wooded(w, hasWood, t) && Reachable(w, center, t)
  }

  ghost predicate EnoughWood(w: Map, center: Tile, hasWood: Option<Tile -> bool>) {
    exists s: set<Tile> :: |s| >= FOUNDING_FOREST_TILES && WoodedAndReachable(w, center, hasWood, s)
  }

  // ---------------------------------------------------------------------
  // The bounded search
  // ---------------------------------------------------------------------

  const SIDE := 2 * FOREST_RADIUS + 1

  function Index(center: Tile, t: Tile): int {
    (t.y - center.y + FOREST_RADIUS) * SIDE + (t.x - center.x + FOREST_RADIUS)
  }

  predicate Near(center: Tile, t: Tile) {
    Chebyshev(center, t) <= FOREST_RADIUS
  }

  ghost function Box(center: Tile): set<Tile> {
    set x, y | center.x - FOREST_RADIUS <= x <= center.x + FOREST_RADIUS
            && center.y - FOREST_RADIUS <= y <= center.y + FOREST_RADIUS :: Tile(x, y)
  }

  ghost function Elements(q: seq<Tile>): set<Tile> {
    set t | t in q
  }

  ghost function WoodIn(w: Map, hasWood: Option<Tile -> bool>, q: seq<Tile>): set<Tile> {
    set t | t in q && Wooded(w, hasWood, t)
  }

  /** What has been seen is what has been queued: ground within reach, once. */
  ghost predicate Explored(w: Map, center: Tile, seen: seq<bool>, q: seq<Tile>) {
    && |seen| == SIDE * SIDE
    && (forall t | Near(center, t) :: seen[Index(center, t)] <==> t in q)
    && (forall i, j | 0 <= i < j < |q| :: q[i] != q[j])
    && (forall t | t in q :: Near(center, t) && Ground(w, center, t) && Reachable(w, center, t))
  }

  /** The ground next to `t`, in the first `k` directions, has been queued. */
  ghost predicate LookedAround(w: Map, center: Tile, q: seq<Tile>, t: Tile, k: int) {
    forall d | 0 <= d < k && d < 4 && Ground(w, center, Plus(t, FOUR_NEIGHBOURS[d])) :: Plus(t, FOUR_NEIGHBOURS[d]) in q
  }

  lemma NeighbourDirection(a: Tile, b: Tile) returns (d: int)
    requires FourAdjacent(a, b)
    ensures 0 <= d < 4 && Plus(a, FOUR_NEIGHBOURS[d]) == b
  {
    d := if b.y < a.y then 0 else if b.x < a.x then 1 else if b.x > a.x then 2 else 3;
  }

  lemma SpawnReachable(w: Map, center: Tile, t: Tile)
    requires t in SpawnTilesAround(center) && w.IsWalkable(t)
    ensures Ground(w, center, t) && Reachable(w, center, t)
  {
    assert IsWalk(w, center, [t]);
  }

  lemma StepReachable(w: Map, center: Tile, t: Tile, n: Tile)
    requires Reachable(w, center, t) && FourAdjacent(t, n) && Ground(w, center, n)
    ensures Reachable(w, center, n)
  {
    var p :| IsWalk(w, center, p) && p[|p| - 1] == t;
    assert IsWalk(w, center, p + [n]);
  }

  /** A set that holds the ring and all ground next to it holds all that is within reach. */
  lemma {:induction false} ClosedHoldsWalks(w: Map, center: Tile, q: seq<Tile>, p: seq<Tile>)
    requires forall t | t in SpawnTilesAround(center) && w.IsWalkable(t) :: t in q
    requires forall t | t in q :: LookedAround(w, center, q, t, 4)
    requires IsWalk(w, center, p)
    ensures p[|p| - 1] in q
  {
    if |p| > 1 {
      var r := p[..|p| - 1];
      ClosedHoldsWalks(w, center, q, r);
      var d := NeighbourDirection(p[|p| - 2], p[|p| - 1]);
      assert LookedAround(w, center, q, p[|p| - 2], 4);
    } else {
      assert Ground(w, center, p[0]);
    }
  }

  lemma IndexIsExact(center: Tile, t: Tile, u: Tile)
    requires Near(center, t) && Near(center, u)
    ensures 0 <= Index(center, t) < SIDE * SIDE
    ensures Index(center, t) == Index(center, u) ==> t == u
  {
    hide Near;
    NearBounds(center, t);
    NearBounds(center, u);
    RowAndColumn(t.y - center.y + FOREST_RADIUS, t.x - center.x + FOREST_RADIUS,
                 u.y - center.y + FOREST_RADIUS, u.x - center.x + FOREST_RADIUS);
  }

  lemma RowAndColumn(r: int, c: int, row: int, column: int)
    requires 0 <= r < SIDE && 0 <= c < SIDE && 0 <= row < SIDE && 0 <= column < SIDE
    ensures 0 <= r * SIDE + c < SIDE * SIDE
    ensures r * SIDE + c == row * SIDE + column ==> r == row && c == column
  {}

  lemma NearBounds(center: Tile, t: Tile)
    requires Near(center, t)
    ensures -FOREST_RADIUS <= t.x - center.x <= FOREST_RADIUS && -FOREST_RADIUS <= t.y - center.y <= FOREST_RADIUS
  {}

  lemma NewlySeen(w: Map, center: Tile, seen: seq<bool>, q: seq<Tile>, t: Tile)
    requires Explored(w, center, seen, q)
    requires Near(center, t) && Ground(w, center, t) && Reachable(w, center, t) && t !in q
    requires 0 <= Index(center, t) < |seen|
    ensures Explored(w, center, seen[Index(center, t) := true], q + [t])
  {
    hide Ground, Reachable, Near, Index;
    var next := seen[Index(center, t) := true];
    forall u | Near(center, u) ensures 0 <= Index(center, u) < |seen| {
      IndexIsExact(center, u, u);
    }
    forall u | Near(center, u) ensures next[Index(center, u)] <==> u in q + [t] {
      IndexIsExact(center, u, t);
    }
  }

  /** Queues a tile that has not been seen. */
  method Visit(w: Map, center: Tile, t: Tile, seen: array<bool>, q: seq<Tile>) returns (queue: seq<Tile>)
    requires Explored(w, center, seen[..], q)
    requires Near(center, t) && Ground(w, center, t) && Reachable(w, center, t) && t !in q
    modifies seen
    ensures queue == q + [t] && Explored(w, center, seen[..], queue)
  {
    IndexIsExact(center, t, t);
    NewlySeen(w, center, seen[..], q, t);
    hide Explored;
    ghost var before := seen[..];
    seen[Index(center, t)] := true;
    assert seen[..] == before[Index(center, t) := true];
    queue := q + [t];
  }

  ghost predicate RingQueued(w: Map, center: Tile, q: seq<Tile>) {
    forall t | t in SpawnTilesAround(center) && w.IsWalkable(t) :: t in q
  }

  ghost predicate Processed(w: Map, center: Tile, q: seq<Tile>, i: int)
    requires 0 <= i <= |q|
  {
    forall j | 0 <= j < i :: LookedAround(w, center, q, q[j], 4)
  }

  method QueueRing(w: Map, center: Tile, seen: array<bool>) returns (queue: seq<Tile>)
    requires seen.Length == SIDE * SIDE && forall i | 0 <= i < seen.Length :: !seen[i]
    modifies seen
    ensures Explored(w, center, seen[..], queue) && RingQueued(w, center, queue)
  {
    queue := [];
    var spawns := SpawnTilesAround(center);
    assert Explored(w, center, seen[..], queue) by {
      forall t | Near(center, t) ensures !seen[..][Index(center, t)] {
        IndexIsExact(center, t, t);
      }
    }
    hide Ground, Reachable, Index;
    for k := 0 to |spawns|
      invariant Explored(w, center, seen[..], queue)
      invariant forall j | 0 <= j < k && w.IsWalkable(spawns[j]) :: spawns[j] in queue
    {
      var t := spawns[k];
      assert t in spawns;
      IndexIsExact(center, t, t);
      if w.IsWalkable(t) && !seen[Index(center, t)] {
        SpawnReachable(w, center, t);
        queue := Visit(w, center, t, seen, queue);
      }
    }
  }

  /** Queues the ground next to a tile. */
  method LookAround(w: Map, center: Tile, t: Tile, seen: array<bool>, q: seq<Tile>) returns (queue: seq<Tile>)
    requires Explored(w, center, seen[..], q) && t in q
    modifies seen
    ensures Explored(w, center, seen[..], queue) && q <= queue && LookedAround(w, center, queue, t, 4)
  {
    hide Reachable, Index;
    queue := q;
    for d := 0 to 4
      invariant Explored(w, center, seen[..], queue) && q <= queue
      invariant LookedAround(w, center, queue, t, d)
    {
      var n := Plus(t, FOUR_NEIGHBOURS[d]);
      var dist := Chebyshev(center, n);
      if dist > FOREST_RADIUS || dist <= URBAN_RADIUS {
        continue;
      }
      IndexIsExact(center, n, n);
      if seen[Index(center, n)] || !w.IsWalkable(n) {
        continue;
      }
      assert Reachable(w, center, t);
      StepReachable(w, center, t, n);
      queue := Visit(w, center, n, seen, queue);
    }
  }

  lemma ProcessedGrows(w: Map, center: Tile, q: seq<Tile>, more: seq<Tile>, i: int)
    requires 0 <= i < |q| && q <= more && Processed(w, center, q, i) && LookedAround(w, center, more, q[i], 4)
    ensures Processed(w, center, more, i + 1)
  {
    forall j | 0 <= j < i + 1 ensures LookedAround(w, center, more, more[j], 4) {
      assert j < i ==> LookedAround(w, center, q, q[j], 4);
    }
  }

  lemma WoodCounted(w: Map, hasWood: Option<Tile -> bool>, q: seq<Tile>, i: int)
    requires 0 <= i < |q| && q[i] !in q[..i]
    ensures |WoodIn(w, hasWood, q[..i + 1])| == |WoodIn(w, hasWood, q[..i])| + if Wooded(w, hasWood, q[i]) then 1 else 0
  {
    assert q[..i + 1] == q[..i] + [q[i]];
    assert WoodIn(w, hasWood, q[..i + 1]) ==
           if Wooded(w, hasWood, q[i]) then WoodIn(w, hasWood, q[..i]) + {q[i]} else WoodIn(w, hasWood, q[..i]);
  }

  lemma EnoughFound(w: Map, center: Tile, hasWood: Option<Tile -> bool>, seen: seq<bool>, q: seq<Tile>, i: int)
    requires Explored(w, center, seen, q) && 0 <= i <= |q|
    requires |WoodIn(w, hasWood, q[..i])| >= FOUNDING_FOREST_TILES
    ensures EnoughWood(w, center, hasWood)
  {
    assert WoodedAndReachable(w, center, hasWood, WoodIn(w, hasWood, q[..i]));
  }

  /** The queue never outgrows the square it explores. */
  lemma QueueFits(w: Map, center: Tile, seen: seq<bool>, q: seq<Tile>, i: int)
    requires Explored(w, center, seen, q) && 0 <= i < |q|
    ensures q[i] in Box(center) && q[i] !in q[..i] && q[i] !in Elements(q[..i])
        && Elements(q[..i + 1]) == Elements(q[..i]) + {q[i]}
  {
    var t := q[i];
    assert t == Tile(t.x, t.y) && Near(center, t);
    assert q[..i + 1] == q[..i] + [t];
  }

  /** Breadth-first from the ring: is there enough wood within reach? */
  method HasReachableForest(w: Map, center: Tile, hasWood: Option<Tile -> bool>) returns (r: bool)
    ensures r <==> EnoughWood(w, center, hasWood)
  {
    hide Box, WoodIn, Elements, RingQueued, Explored, Processed, EnoughWood;
    var found := 0;
    var seen := new bool[SIDE * SIDE](i => false);
    var queue := QueueRing(w, center, seen);
    var i := 0;
    NothingProcessed(w, center, hasWood, queue);
    while i < |queue|
      invariant 0 <= i <= |queue| && Explored(w, center, seen[..], queue)
      invariant RingQueued(w, center, queue) && Processed(w, center, queue, i)
      invariant found == |WoodIn(w, hasWood, queue[..i])| < FOUNDING_FOREST_TILES
      decreases Box(center) - Elements(queue[..i])
    {
      var t := queue[i];
      QueueFits(w, center, seen[..], queue, i);
      WoodCounted(w, hasWood, queue, i);
      if w.TerrainAt(t) == Forest && (hasWood.None? || hasWood.value(t)) {
        found := found + 1;
        if found >= FOUNDING_FOREST_TILES {
          EnoughFound(w, center, hasWood, seen[..], queue, i + 1);
          return true;
        }
      }
      ghost var before := queue;
      queue := LookAround(w, center, t, seen, queue);
      RingGrows(w, center, before, queue);
      ProcessedGrows(w, center, before, queue, i);
      assert queue[..i + 1] == before[..i + 1];
      i := i + 1;
    }
    assert queue[..i] == queue;
    NotEnough(w, center, hasWood, queue);
    return false;
  }

  lemma NothingProcessed(w: Map, center: Tile, hasWood: Option<Tile -> bool>, q: seq<Tile>)
    ensures Processed(w, center, q, 0) && WoodIn(w, hasWood, q[..0]) == {}
  {}

  lemma RingGrows(w: Map, center: Tile, q: seq<Tile>, more: seq<Tile>)
    requires RingQueued(w, center, q) && q <= more
    ensures RingQueued(w, center, more)
  {}

  lemma NotEnough(w: Map, center: Tile, hasWood: Option<Tile -> bool>, q: seq<Tile>)
    requires RingQueued(w, center, q) && Processed(w, center, q, |q|)
    requires |WoodIn(w, hasWood, q)| < FOUNDING_FOREST_TILES
    ensures !EnoughWood(w, center, hasWood)
  {
    forall s: set<Tile> | WoodedAndReachable(w, center, hasWood, s) ensures |s| < FOUNDING_FOREST_TILES {
      forall t | t in s ensures t in WoodIn(w, hasWood, q) {
        var p :| IsWalk(w, center, p) && p[|p| - 1] == t;
        ClosedHoldsWalks(w, center, q, p);
      }
      SubsetSize(s, WoodIn(w, hasWood, q));
    }
  }

  lemma {:induction false} SubsetSize<T>(a: set<T>, b: set<T>)
    requires a <= b
    ensures |a| <= |b|
  {
    assert b == a + (b - a);
  }

  // ---------------------------------------------------------------------
  // Choosing a site
  // ---------------------------------------------------------------------

  ghost predicate Clear(w: Map, center: Tile) {
    forall t | Chebyshev(center, t) <= CLEAR_RADIUS :: w.IsWalkable(t)
  }

  ghost predicate KeepsDistance(center: Tile, existing: seq<Tile>) {
    forall other | other in existing :: Chebyshev(center, other) >= MIN_CITY_DISTANCE
  }

  ghost predicate Viable(w: Map, center: Tile, existing: seq<Tile>, hasWood: Option<Tile -> bool>) {
    Clear(w, center) && KeepsDistance(center, existing) && EnoughWood(w, center, hasWood)
  }

  method FarEnough(center: Tile, existing: seq<Tile>) returns (r: bool)
    ensures r <==> KeepsDistance(center, existing)
  {
    for i := 0 to |existing|
      invariant forall j | 0 <= j < i :: Chebyshev(center, existing[j]) >= MIN_CITY_DISTANCE
    {
      if Chebyshev(center, existing[i]) < MIN_CITY_DISTANCE {
        return false;
      }
    }
    return true;
  }

  method IsViable(w: Map, center: Tile, existing: seq<Tile>, hasWood: Option<Tile -> bool>) returns (r: bool)
    ensures r <==> Viable(w, center, existing, hasWood)
  {
    for dy := -CLEAR_RADIUS to CLEAR_RADIUS + 1
      invariant forall t | Chebyshev(center, t) <= CLEAR_RADIUS && t.y < center.y + dy :: w.IsWalkable(t)
    {
      for dx := -CLEAR_RADIUS to CLEAR_RADIUS + 1
        invariant forall t | Chebyshev(center, t) <= CLEAR_RADIUS && t.y < center.y + dy :: w.IsWalkable(t)
        invariant forall t | Chebyshev(center, t) <= CLEAR_RADIUS && t.y == center.y + dy && t.x < center.x + dx ::
                    w.IsWalkable(t)
      {
        var t := Tile(center.x + dx, center.y + dy);
        if !w.IsWalkable(t) {
          assert Chebyshev(center, t) <= CLEAR_RADIUS;
          return false;
        }
      }
    }
    var far := FarEnough(center, existing);
    if !far {
      return false;
    }
    r := HasReachableForest(w, center, hasWood);
  }

  /** The first `n` walkable tiles of the ring, from place `k` on. */
  function Spawns(w: Map, ring: seq<Tile>, n: nat, k: nat): (r: seq<Tile>)
    requires k <= |ring|
    decreases |ring| - k
  {
    if k == |ring| || n == 0 then []
    else if w.IsWalkable(ring[k]) then [ring[k]] + Spawns(w, ring, n - 1, k + 1)
    else Spawns(w, ring, n, k + 1)
  }

  /** `out` are the walkable tiles of the ring from place `k` on, in their order and
      at the places `at`: the first `n`, or all if there are fewer. */
  ghost predicate Picks(w: Map, ring: seq<Tile>, n: nat, k: nat, out: seq<Tile>, at: seq<int>) {
    && |at| == |out| <= n
    && (forall i | 0 <= i < |at| :: k <= at[i] < |ring| && out[i] == ring[at[i]] && w.IsWalkable(out[i]))
    && (forall i, j | 0 <= i < j < |at| :: at[i] < at[j])
    && (forall m | k <= m < |ring| && w.IsWalkable(ring[m]) && (|out| < n || (n > 0 && m <= at[n - 1])) :: m in at)
  }

  lemma {:induction false} SpawnsPick(w: Map, ring: seq<Tile>, n: nat, k: nat) returns (at: seq<int>)
    requires k <= |ring|
    ensures Picks(w, ring, n, k, Spawns(w, ring, n, k), at)
    decreases |ring| - k
  {
    hide Picks;
    if k == |ring| || n == 0 {
      at := [];
      PicksNothing(w, ring, n, k);
    } else if w.IsWalkable(ring[k]) {
      var rest := SpawnsPick(w, ring, n - 1, k + 1);
      at := [k] + rest;
      PicksOneMore(w, ring, n, k, Spawns(w, ring, n - 1, k + 1), rest);
    } else {
      at := SpawnsPick(w, ring, n, k + 1);
      PicksPast(w, ring, n, k, Spawns(w, ring, n, k + 1), at);
    }
  }

  lemma PicksNothing(w: Map, ring: seq<Tile>, n: nat, k: nat)
    requires k == |ring| || n == 0
    ensures Picks(w, ring, n, k, [], [])
  {
  }

  lemma PicksOneMore(w: Map, ring: seq<Tile>, n: nat, k: nat, out: seq<Tile>, at: seq<int>)
    requires n > 0 && k < |ring| && w.IsWalkable(ring[k]) && Picks(w, ring, n - 1, k + 1, out, at)
    ensures Picks(w, ring, n, k, [ring[k]] + out, [k] + at)
  {
    var all := [k] + at;
    forall m | k <= m < |ring| && w.IsWalkable(ring[m]) && (|all| < n || m <= all[n - 1]) ensures m in all {
      if m > k {
        assert |at| > 0 && |at| == n - 1 ==> all[n - 1] == at[n - 2];
        assert m in at;
      } else {
        assert all[0] == m;
      }
    }
  }

  lemma PicksPast(w: Map, ring: seq<Tile>, n: nat, k: nat, out: seq<Tile>, at: seq<int>)
    requires k < |ring| && !w.IsWalkable(ring[k]) && Picks(w, ring, n, k + 1, out, at)
    ensures Picks(w, ring, n, k, out, at)
  {
  }

  method FindSpawns(w: Map, center: Tile, n: nat) returns (out: seq<Tile>)
    ensures exists at :: Picks(w, SpawnTilesAround(center), n, 0, out, at)
    ensures out == Spawns(w, SpawnTilesAround(center), n, 0)
  {
    hide Picks;
    out := [];
    var ring := SpawnTilesAround(center);
    for k := 0 to |ring|
      invariant |out| <= n
      invariant Spawns(w, ring, n, 0) == out + Spawns(w, ring, n - |out|, k)
    {
      if |out| == n {
        break;
      }
      if w.IsWalkable(ring[k]) {
        out := out + [ring[k]];
      }
    }
    ghost var at := SpawnsPick(w, ring, n, 0);
    assert out == Spawns(w, ring, n, 0);
    assert Picks(w, SpawnTilesAround(center), n, 0, out, at);
  }

  /** In clear ground the whole ring is free: a city has room for eight villagers. */
  lemma ClearRing(w: Map, center: Tile, n: nat)
    requires Clear(w, center)
    ensures forall t | t in SpawnTilesAround(center) :: w.IsWalkable(t)
    ensures |Spawns(w, SpawnTilesAround(center), n, 0)| == if n < 8 then n else 8
  {
    var ring := SpawnTilesAround(center);
    forall t | t in ring ensures w.IsWalkable(t) {
      assert Chebyshev(center, t) <= CLEAR_RADIUS;
    }
    AllSpawn(w, ring, n, 0);
  }

  lemma {:induction false} AllSpawn(w: Map, ring: seq<Tile>, n: nat, k: nat)
    requires k <= |ring| && forall i | k <= i < |ring| :: w.IsWalkable(ring[i])
    ensures |Spawns(w, ring, n, k)| == if n < |ring| - k then n else |ring| - k
    decreases |ring| - k
  {
    if k < |ring| && n > 0 {
      AllSpawn(w, ring, n - 1, k + 1);
    }
  }

  // ---------------------------------------------------------------------
  // The search for a site
  // ---------------------------------------------------------------------

  datatype Site = Site(center: Tile, minX: int, minY: int, maxX: int, maxY: int, spawns: seq<Tile>)

  datatype FoundingError = NoVillagers | NoSite

  /** How far apart the sampled tiles of a ring are: all of them up to ring 7. */
  function RingStep(ring: nat): (step: int)
    ensures step >= 1
  {
    ring / 8 + 1
  }

  /** The first `n` pairs of the upper and lower sides, from the left. */
  function RowPairs(cx: int, cy: int, ring: nat, n: nat): (r: seq<Tile>)
    ensures |r| == 2 * n
  {
    seq(2 * n, i => Tile(cx - ring + i / 2 * RingStep(ring), if i % 2 == 0 then cy - ring else cy + ring))
  }

  /** The first `n` pairs of the left and right sides below the upper corners. */
  function ColumnPairs(cx: int, cy: int, ring: nat, n: nat): (r: seq<Tile>)
    ensures |r| == 2 * n
  {
    seq(2 * n, i => Tile(if i % 2 == 0 then cx - ring else cx + ring, cy - ring + (i / 2 + 1) * RingStep(ring)))
  }

  /** A sample of the perimeter of a square ring, in its fixed order. */
  function Ring(cx: int, cy: int, ring: nat): seq<Tile> {
    if ring == 0 then [Tile(cx, cy)] else
    RowPairs(cx, cy, ring, 2 * ring / RingStep(ring) + 1) + ColumnPairs(cx, cy, ring, (2 * ring - 1) / RingStep(ring))
  }

  /** The tiles of a ring that are tried: those a whole number of steps away from
      the corner where their side begins. */
  predicate Sampled(start: Tile, t: Tile) {
    var ring := Chebyshev(start, t);
    if Abs(t.y - start.y) == ring
    then (t.x - start.x + ring) % RingStep(ring) == 0
    else (t.y - start.y + ring) % RingStep(ring) == 0
  }

  lemma MulSign(x: int, step: int)
    requires step >= 1
    ensures (x >= 1 ==> x * step >= step) && (x <= -1 ==> x * step <= -step)
  {
    if x >= 1 {
      assert (x - 1) * step >= 0;
    } else if x <= -1 {
      assert (-1 - x) * step >= 0;
    }
  }

  lemma DivideFits(k: int, step: int, n: nat)
    requires step >= 1
    ensures k * step <= n <==> k <= n / step
  {
    var q := n / step;
    assert n == q * step + n % step;
    assert k * step == q * step + (k - q) * step;
    MulSign(k - q, step);
  }

  lemma Multiple(k: int, step: int)
    requires step >= 1
    ensures k * step % step == 0
  {
    var q := k * step / step;
    assert (k - q) * step == k * step % step;
    MulSign(k - q, step);
  }

  /** The rows hold the tiles of the upper and lower sides at whole steps. */
  lemma InRows(cx: int, cy: int, ring: nat, t: Tile)
    ensures t in RowPairs(cx, cy, ring, 2 * ring / RingStep(ring) + 1) <==>
            && Abs(t.y - cy) == ring && cx - ring <= t.x <= cx + ring
            && (t.x - cx + ring) % RingStep(ring) == 0
  {
    var rows := RowPairs(cx, cy, ring, 2 * ring / RingStep(ring) + 1);
    if t in rows {
      var i :| 0 <= i < |rows| && rows[i] == t;
      RowTile(cx, cy, ring, i);
    }
    if Abs(t.y - cy) == ring && cx - ring <= t.x <= cx + ring && (t.x - cx + ring) % RingStep(ring) == 0 {
      RowPlace(cx, cy, ring, t);
    }
  }

  lemma RowTile(cx: int, cy: int, ring: nat, i: nat)
    requires i < 2 * (2 * ring / RingStep(ring) + 1)
    ensures var t := RowPairs(cx, cy, ring, 2 * ring / RingStep(ring) + 1)[i];
      && Abs(t.y - cy) == ring && cx - ring <= t.x <= cx + ring
      && (t.x - cx + ring) % RingStep(ring) == 0
  {
    var step, k := RingStep(ring), i / 2;
    DivideFits(k, step, 2 * ring);
    Multiple(k, step);
    MulSign(k, step);
  }

  lemma RowPlace(cx: int, cy: int, ring: nat, t: Tile)
    requires Abs(t.y - cy) == ring && cx - ring <= t.x <= cx + ring
    requires (t.x - cx + ring) % RingStep(ring) == 0
    ensures t in RowPairs(cx, cy, ring, 2 * ring / RingStep(ring) + 1)
  {
    var step, n := RingStep(ring), 2 * ring / RingStep(ring) + 1;
    var k := (t.x - cx + ring) / step;
    assert t.x == cx - ring + k * step && k >= 0;
    DivideFits(k, step, 2 * ring);
    var i := if t.y < cy then 2 * k else 2 * k + 1;
    assert i / 2 == k;
    assert RowPairs(cx, cy, ring, n)[i] == t;
  }

  lemma InColumns(cx: int, cy: int, ring: nat, t: Tile)
    requires ring > 0
    ensures t in ColumnPairs(cx, cy, ring, (2 * ring - 1) / RingStep(ring)) <==>
            && Abs(t.x - cx) == ring && cy - ring < t.y < cy + ring
            && (t.y - cy + ring) % RingStep(ring) == 0
  {
    var columns := ColumnPairs(cx, cy, ring, (2 * ring - 1) / RingStep(ring));
    if t in columns {
      var i :| 0 <= i < |columns| && columns[i] == t;
      ColumnTile(cx, cy, ring, i);
    }
    if Abs(t.x - cx) == ring && cy - ring < t.y < cy + ring && (t.y - cy + ring) % RingStep(ring) == 0 {
      ColumnPlace(cx, cy, ring, t);
    }
  }

  lemma ColumnTile(cx: int, cy: int, ring: nat, i: nat)
    requires ring > 0 && i < 2 * ((2 * ring - 1) / RingStep(ring))
    ensures var t := ColumnPairs(cx, cy, ring, (2 * ring - 1) / RingStep(ring))[i];
      && Abs(t.x - cx) == ring && cy - ring < t.y < cy + ring
      && (t.y - cy + ring) % RingStep(ring) == 0
  {
    var step, k := RingStep(ring), i / 2 + 1;
    DivideFits(k, step, 2 * ring - 1);
    Multiple(k, step);
    MulSign(k, step);
  }

  lemma ColumnPlace(cx: int, cy: int, ring: nat, t: Tile)
    requires ring > 0 && Abs(t.x - cx) == ring && cy - ring < t.y < cy + ring
    requires (t.y - cy + ring) % RingStep(ring) == 0
    ensures t in ColumnPairs(cx, cy, ring, (2 * ring - 1) / RingStep(ring))
  {
    var step, n := RingStep(ring), (2 * ring - 1) / RingStep(ring);
    var k := (t.y - cy + ring) / step;
    assert t.y == cy - ring + k * step && k >= 1;
    DivideFits(k, step, 2 * ring - 1);
    var i := if t.x < cx then 2 * (k - 1) else 2 * (k - 1) + 1;
    assert i / 2 + 1 == k;
    assert ColumnPairs(cx, cy, ring, n)[i] == t;
  }

  /** A ring holds exactly the sampled tiles at its distance. */
  lemma InRing(cx: int, cy: int, ring: nat, t: Tile)
    ensures t in Ring(cx, cy, ring) <==> Chebyshev(Tile(cx, cy), t) == ring && Sampled(Tile(cx, cy), t)
  {
    if ring > 0 {
      hide RowPairs, ColumnPairs;
      InRows(cx, cy, ring, t);
      InColumns(cx, cy, ring, t);
    }
  }

  lemma Shift<T>(a: seq<T>, b: seq<T>, c: seq<T>)
    ensures a + (b + c) == (a + b) + c
  {}

  method Rows(cx: int, cy: int, ring: nat) returns (tiles: seq<Tile>)
    ensures tiles == RowPairs(cx, cy, ring, 2 * ring / RingStep(ring) + 1)
  {
    tiles := [];
    var step, x := RingStep(ring), cx - ring;
    ghost var k := 0;
    while x <= cx + ring
      invariant x == cx - ring + k * step && k >= 0 && (k > 0 ==> (k - 1) * step <= 2 * ring)
      invariant tiles == RowPairs(cx, cy, ring, k)
      decreases cx + ring - x
    {
      tiles := tiles + [Tile(x, cy - ring), Tile(x, cy + ring)];
      x, k := x + step, k + 1;
    }
    DivideFits(k, step, 2 * ring);
    DivideFits(k - 1, step, 2 * ring);
  }

  method Columns(cx: int, cy: int, ring: nat) returns (tiles: seq<Tile>)
    requires ring > 0
    ensures tiles == ColumnPairs(cx, cy, ring, (2 * ring - 1) / RingStep(ring))
  {
    tiles := [];
    var step := RingStep(ring);
    var y := cy - ring + step;
    ghost var k := 0;
    while y < cy + ring
      invariant y == cy - ring + (k + 1) * step && k >= 0 && (k > 0 ==> k * step <= 2 * ring - 1)
      invariant tiles == ColumnPairs(cx, cy, ring, k)
      decreases cy + ring - y
    {
      tiles := tiles + [Tile(cx - ring, y), Tile(cx + ring, y)];
      y, k := y + step, k + 1;
    }
    DivideFits(k + 1, step, 2 * ring - 1);
    DivideFits(k, step, 2 * ring - 1);
  }

  method RingTiles(cx: int, cy: int, ring: nat) returns (tiles: seq<Tile>)
    ensures tiles == Ring(cx, cy, ring)
    ensures forall t :: t in tiles <==> Chebyshev(Tile(cx, cy), t) == ring && Sampled(Tile(cx, cy), t)
  {
    hide Sampled;
    forall t ensures t in Ring(cx, cy, ring) <==> Chebyshev(Tile(cx, cy), t) == ring && Sampled(Tile(cx, cy), t) {
      InRing(cx, cy, ring, t);
    }
    if ring == 0 {
      return [Tile(cx, cy)];
    }
    var rows := Rows(cx, cy, ring);
    var columns := Columns(cx, cy, ring);
    tiles := rows + columns;
  }

  /** The candidates of the rings from `ring` on, in the order they are tried. */
  function Candidates(cx: int, cy: int, ring: nat, maxRing: int): seq<Tile>
    decreases maxRing - ring
  {
    if ring > maxRing then [] else Ring(cx, cy, ring) + Candidates(cx, cy, ring + 1, maxRing)
  }

  ghost predicate Acceptable(w: Map, existing: seq<Tile>, villagers: nat, hasWood: Option<Tile -> bool>, t: Tile) {
    Viable(w, t, existing, hasWood) && |Spawns(w, SpawnTilesAround(t), villagers, 0)| >= villagers
  }

  /** `t` is the first acceptable one of the candidates. */
  ghost predicate IsFirst(
    w: Map, existing: seq<Tile>, villagers: nat, hasWood: Option<Tile -> bool>, candidates: seq<Tile>, t: Tile)
  {
    exists k | 0 <= k < |candidates| ::
      && candidates[k] == t && Acceptable(w, existing, villagers, hasWood, t)
      && forall j | 0 <= j < k :: !Acceptable(w, existing, villagers, hasWood, candidates[j])
  }

  ghost predicate NoneAcceptable(
    w: Map, existing: seq<Tile>, villagers: nat, hasWood: Option<Tile -> bool>, candidates: seq<Tile>)
  {
    forall j | 0 <= j < |candidates| :: !Acceptable(w, existing, villagers, hasWood, candidates[j])
  }

  function Start(w: Map, seed: nat): Tile
    requires w.width > 0 && w.height > 0
  {
    Tile(seed % w.width, seed / w.width % w.height)
  }

  /** The site around the first acceptable candidate. */
  ghost predicate IsSite(
    w: Map, existing: seq<Tile>, villagers: nat, hasWood: Option<Tile -> bool>, candidates: seq<Tile>, site: Site)
  {
    && IsFirst(w, existing, villagers, hasWood, candidates, site.center)
    && site.spawns == Spawns(w, SpawnTilesAround(site.center), villagers, 0)
    && site.minX == site.center.x - URBAN_RADIUS && site.minY == site.center.y - URBAN_RADIUS
    && site.maxX == site.center.x + URBAN_RADIUS && site.maxY == site.center.y + URBAN_RADIUS
  }

  /** All candidates, in the order of the spiral. */
  function Spiral(w: Map, seed: nat): seq<Tile>
    requires w.width > 0 && w.height > 0
  {
    Candidates(Start(w, seed).x, Start(w, seed).y, 0, if w.width > w.height then w.width else w.height)
  }

  lemma {:induction false} InCandidates(cx: int, cy: int, ring: nat, maxRing: int, t: Tile)
    ensures t in Candidates(cx, cy, ring, maxRing) <==>
            ring <= Chebyshev(Tile(cx, cy), t) <= maxRing && Sampled(Tile(cx, cy), t)
    decreases maxRing - ring
  {
    hide Ring, Sampled;
    if ring <= maxRing {
      InRing(cx, cy, ring, t);
      InCandidates(cx, cy, ring + 1, maxRing, t);
    }
  }

  /** Candidates are tried from the start outwards. */
  lemma {:induction false} Outwards(cx: int, cy: int, ring: nat, maxRing: int, i: nat, j: nat)
    requires i <= j < |Candidates(cx, cy, ring, maxRing)|
    ensures var c := Candidates(cx, cy, ring, maxRing);
      Chebyshev(Tile(cx, cy), c[i]) <= Chebyshev(Tile(cx, cy), c[j])
    decreases maxRing - ring
  {
    hide Ring, Sampled;
    var here, rest := Ring(cx, cy, ring), Candidates(cx, cy, ring + 1, maxRing);
    var c := Candidates(cx, cy, ring, maxRing);
    assert c == here + rest;
    if i < |here| {
      InRing(cx, cy, ring, c[i]);
      if j < |here| {
        InRing(cx, cy, ring, c[j]);
      } else {
        assert c[j] in rest;
        InCandidates(cx, cy, ring + 1, maxRing, c[j]);
      }
    } else {
      Outwards(cx, cy, ring + 1, maxRing, i - |here|, j - |here|);
    }
  }

  /** A tile of the world is tried exactly when it is sampled in its ring. */
  lemma InSpiral(w: Map, seed: nat, t: Tile)
    requires w.width > 0 && w.height > 0 && w.InBounds(t)
    ensures t in Spiral(w, seed) <==> Sampled(Start(w, seed), t)
  {
    hide Sampled, Candidates;
    InCandidates(Start(w, seed).x, Start(w, seed).y, 0, if w.width > w.height then w.width else w.height, t);
  }

  /** Acceptable and tried, and no other such tile is nearer to the start. */
  ghost predicate IsNearest(
    w: Map, existing: seq<Tile>, villagers: nat, hasWood: Option<Tile -> bool>, start: Tile, t: Tile)
  {
    && Acceptable(w, existing, villagers, hasWood, t) && Sampled(start, t)
    && forall o | Acceptable(w, existing, villagers, hasWood, o) && Sampled(start, o) ::
         Chebyshev(start, t) <= Chebyshev(start, o)
  }

  ghost predicate NoneSampled(w: Map, existing: seq<Tile>, villagers: nat, hasWood: Option<Tile -> bool>, start: Tile) {
    forall t | Sampled(start, t) :: !Acceptable(w, existing, villagers, hasWood, t)
  }

  lemma AcceptableInside(w: Map, existing: seq<Tile>, villagers: nat, hasWood: Option<Tile -> bool>, t: Tile)
    requires Acceptable(w, existing, villagers, hasWood, t)
    ensures w.InBounds(t)
  {
    assert Chebyshev(t, t) <= CLEAR_RADIUS;
    assert w.IsWalkable(t);
  }

  lemma NoneInSpiral(w: Map, existing: seq<Tile>, seed: nat, villagers: nat, hasWood: Option<Tile -> bool>)
    requires w.width > 0 && w.height > 0 && NoneAcceptable(w, existing, villagers, hasWood, Spiral(w, seed))
    ensures NoneSampled(w, existing, villagers, hasWood, Start(w, seed))
  {
    hide Acceptable, Sampled, Spiral;
    forall t | Sampled(Start(w, seed), t) ensures !Acceptable(w, existing, villagers, hasWood, t) {
      if Acceptable(w, existing, villagers, hasWood, t) {
        AcceptableInside(w, existing, villagers, hasWood, t);
        InSpiral(w, seed, t);
      }
    }
  }

  lemma FirstIsNearest(
    w: Map, existing: seq<Tile>, seed: nat, villagers: nat, hasWood: Option<Tile -> bool>, t: Tile)
    requires w.width > 0 && w.height > 0 && IsFirst(w, existing, villagers, hasWood, Spiral(w, seed), t)
    ensures IsNearest(w, existing, villagers, hasWood, Start(w, seed), t)
  {
    hide Acceptable, Sampled, Candidates;
    var start, c := Start(w, seed), Spiral(w, seed);
    var k :| 0 <= k < |c| && c[k] == t && forall j | 0 <= j < k :: !Acceptable(w, existing, villagers, hasWood, c[j]);
    AcceptableInside(w, existing, villagers, hasWood, t);
    InSpiral(w, seed, t);
    forall o | Acceptable(w, existing, villagers, hasWood, o) && Sampled(start, o)
      ensures Chebyshev(start, t) <= Chebyshev(start, o)
    {
      AcceptableInside(w, existing, villagers, hasWood, o);
      InSpiral(w, seed, o);
      var j :| 0 <= j < |c| && c[j] == o;
      Outwards(start.x, start.y, 0, if w.width > w.height then w.width else w.height, k, j);
    }
  }

  /** Looks for a site from a point derived from `seed` outwards. */
  method FindSite(w: Map, existing: seq<Tile>, seed: nat, villagers: int, hasWood: Option<Tile -> bool>)
    returns (r: Result<Site, FoundingError>)
    requires w.width > 0 && w.height > 0
    ensures r == Err(NoVillagers) <==> villagers <= 0
    ensures villagers > 0 && r.Ok? ==>
      && IsSite(w, existing, villagers, hasWood, Spiral(w, seed), r.value)
      && IsNearest(w, existing, villagers, hasWood, Start(w, seed), r.value.center)
    ensures villagers > 0 ==> (r.Err? <==> NoneSampled(w, existing, villagers, hasWood, Start(w, seed)))
  {
    if villagers <= 0 {
      return Err(NoVillagers);
    }
    hide IsFirst, IsNearest, NoneSampled, NoneAcceptable, Acceptable, Ring, Sampled, Spawns;
    var start := Start(w, seed);
    var maxRing := if w.width > w.height then w.width else w.height;
    ghost var tried: seq<Tile> := [];
    NoneYet(w, existing, villagers, hasWood);
    var ring := 0;
    while ring <= maxRing
      invariant 0 <= ring <= maxRing + 1
      invariant Spiral(w, seed) == tried + Candidates(start.x, start.y, ring, maxRing)
      invariant NoneAcceptable(w, existing, villagers, hasWood, tried)
    {
      var tiles := RingTiles(start.x, start.y, ring);
      ghost var rest := Candidates(start.x, start.y, ring + 1, maxRing);
      var found, site := TryRing(w, existing, villagers, hasWood, tiles);
      Shift(tried, tiles, rest);
      if found {
        FirstOfAll(w, existing, villagers, hasWood, tried, tiles, rest, site);
        FirstIsNearest(w, existing, seed, villagers, hasWood, site.center);
        NearestIsSampled(w, existing, villagers, hasWood, start, site.center);
        return Ok(site);
      }
      NoneOfBoth(w, existing, villagers, hasWood, tried, tiles);
      tried := tried + tiles;
      ring := ring + 1;
    }
    NoneInSpiral(w, existing, seed, villagers, hasWood);
    return Err(NoSite);
  }

  lemma NearestIsSampled(
    w: Map, existing: seq<Tile>, villagers: nat, hasWood: Option<Tile -> bool>, start: Tile, t: Tile)
    requires IsNearest(w, existing, villagers, hasWood, start, t)
    ensures !NoneSampled(w, existing, villagers, hasWood, start)
  {
    hide Acceptable, Sampled;
  }

  lemma NoneYet(w: Map, existing: seq<Tile>, villagers: nat, hasWood: Option<Tile -> bool>)
    ensures NoneAcceptable(w, existing, villagers, hasWood, [])
  {
  }

  lemma NoneOfBoth(w: Map, existing: seq<Tile>, villagers: nat, hasWood: Option<Tile -> bool>, tried: seq<Tile>,
      tiles: seq<Tile>)
    requires NoneAcceptable(w, existing, villagers, hasWood, tried)
        && NoneAcceptable(w, existing, villagers, hasWood, tiles)
    ensures NoneAcceptable(w, existing, villagers, hasWood, tried + tiles)
  {
    hide Acceptable;
  }

  method TryRing(w: Map, existing: seq<Tile>, villagers: nat, hasWood: Option<Tile -> bool>, tiles: seq<Tile>)
    returns (found: bool, site: Site)
    ensures found ==> IsSite(w, existing, villagers, hasWood, tiles, site)
    ensures !found ==> NoneAcceptable(w, existing, villagers, hasWood, tiles)
  {
    hide Viable, Spawns;
    site := Site(Tile(0, 0), 0, 0, 0, 0, []);
    for k := 0 to |tiles|
      invariant NoneAcceptable(w, existing, villagers, hasWood, tiles[..k])
    {
      var candidate := tiles[k];
      var viable := IsViable(w, candidate, existing, hasWood);
      if !viable {
        continue;
      }
      var spawns := FindSpawns(w, candidate, villagers);
      if |spawns| < villagers {
        continue;
      }
      assert forall j | 0 <= j < k :: !Acceptable(w, existing, villagers, hasWood, tiles[..k][j]);
      return true, Site(candidate, candidate.x - URBAN_RADIUS, candidate.y - URBAN_RADIUS,
                        candidate.x + URBAN_RADIUS, candidate.y + URBAN_RADIUS, spawns);
    }
    assert tiles[..|tiles|] == tiles;
    found := false;
  }

  lemma FirstOfAll(
    w: Map, existing: seq<Tile>, villagers: nat, hasWood: Option<Tile -> bool>,
    tried: seq<Tile>, tiles: seq<Tile>, rest: seq<Tile>, site: Site)
    requires NoneAcceptable(w, existing, villagers, hasWood, tried)
        && IsSite(w, existing, villagers, hasWood, tiles, site)
    ensures IsSite(w, existing, villagers, hasWood, tried + (tiles + rest), site)
  {
    hide Acceptable, Spawns;
    var t, all := site.center, tried + (tiles + rest);
    var k :| 0 <= k < |tiles| && tiles[k] == t && Acceptable(w, existing, villagers, hasWood, t)
             && forall j | 0 <= j < k :: !Acceptable(w, existing, villagers, hasWood, tiles[j]);
    forall j | 0 <= j < |tried| + k ensures !Acceptable(w, existing, villagers, hasWood, all[j]) {
      if j >= |tried| {
        assert all[j] == tiles[j - |tried|];
      }
    }
    assert all[|tried| + k] == t;
  }

  /** A candidate with clear ground is acceptable for at most eight villagers, so
      a player who starts with more never finds a site. */
  lemma RoomForEight(w: Map, existing: seq<Tile>, villagers: nat, hasWood: Option<Tile -> bool>, t: Tile)
    ensures Acceptable(w, existing, villagers, hasWood, t) <==> villagers <= 8 && Viable(w, t, existing, hasWood)
  {
    if Viable(w, t, existing, hasWood) {
      ClearRing(w, t, villagers);
    }
  }

  // ---------------------------------------------------------------------
  // What the sampling of the rings misses
  // ---------------------------------------------------------------------

  /** A wood of seven by seven tiles around `t`, in the middle of water. */
  function Meadow(width: nat, height: nat, t: Tile): Map {
    Map(width, height, o => if Chebyshev(o, t) <= CLEAR_RADIUS then Forest else Water, {})
  }

  predicate FitsInside(width: nat, height: nat, t: Tile) {
    CLEAR_RADIUS <= t.x < width - CLEAR_RADIUS && CLEAR_RADIUS <= t.y < height - CLEAR_RADIUS
  }

  lemma {:induction false} DistinctSize(q: seq<Tile>)
    requires forall i, j | 0 <= i < j < |q| :: q[i] != q[j]
    ensures |Elements(q)| == |q|
  {
    if |q| > 0 {
      var init, last := q[..|q| - 1], q[|q| - 1];
      DistinctSize(init);
      assert Elements(q) == Elements(init) + {last};
    } else {
      assert Elements(q) == {};
    }
  }

  lemma RingIsDistinct(t: Tile)
    ensures forall i, j | 0 <= i < j < 8 :: SpawnTilesAround(t)[i] != SpawnTilesAround(t)[j]
    ensures SpawnTilesAround(t)[0] == Plus(t, Tile(2, 0)) && SpawnTilesAround(t)[1] == Plus(t, Tile(-2, 0))
  {
  }

  lemma MeadowHasWood(width: nat, height: nat, t: Tile)
    requires FitsInside(width, height, t)
    ensures EnoughWood(Meadow(width, height, t), t, None)
  {
    hide IsWalk, SpawnTilesAround;
    RingIsDistinct(t);
    var w, ring := Meadow(width, height, t), SpawnTilesAround(t);
    var east, west := Plus(t, Tile(3, 0)), Plus(t, Tile(-3, 0));
    var q := ring + [east, west];
    forall i | 0 <= i < 8 ensures Wooded(w, None, q[i]) && Reachable(w, t, q[i]) && Chebyshev(t, q[i]) == SPAWN_RADIUS {
      assert ring[i] in ring;
      SpawnReachable(w, t, ring[i]);
    }
    assert Reachable(w, t, q[0]) && Reachable(w, t, q[1]);
    StepReachable(w, t, ring[0], east);
    StepReachable(w, t, ring[1], west);
    DistinctSize(q);
    assert WoodedAndReachable(w, t, None, Elements(q));
  }

  lemma MeadowHasOneSite(width: nat, height: nat, t: Tile, villagers: nat, o: Tile)
    requires FitsInside(width, height, t) && 1 <= villagers <= 8
    ensures Acceptable(Meadow(width, height, t), [], villagers, None, o) <==> o == t
  {
    hide EnoughWood;
    var w := Meadow(width, height, t);
    RoomForEight(w, [], villagers, None, o);
    if o == t {
      MeadowHasWood(width, height, t);
    } else if Clear(w, o) {
      var corner := Tile(if o.x < t.x then o.x - 3 else o.x + 3, if o.y < t.y then o.y - 3 else o.y + 3);
      assert Chebyshev(o, corner) <= CLEAR_RADIUS;
      assert w.IsWalkable(corner);
    }
  }

  /** The search is meant to cover the whole world if need be. It does not: where
      the only place for a city is around `t`, it is found exactly when `t` is sampled
      in its ring. */
  lemma OnlySiteFoundIff(width: nat, height: nat, seed: nat, t: Tile, villagers: nat)
    requires FitsInside(width, height, t) && 1 <= villagers <= 8
    ensures var w := Meadow(width, height, t);
      && Acceptable(w, [], villagers, None, t)
      && (NoneSampled(w, [], villagers, None, Start(w, seed)) <==> !Sampled(Start(w, seed), t))
  {
    hide Acceptable, Sampled;
    forall o ensures Acceptable(Meadow(width, height, t), [], villagers, None, o) <==> o == t {
      MeadowHasOneSite(width, height, t, villagers, o);
    }
  }

  /** Every tile up to ring 7 is tried; in every later ring some are not. */
  lemma SampledIff(start: Tile, ring: nat)
    ensures (forall t | Chebyshev(start, t) == ring :: Sampled(start, t)) <==> ring <= 7
  {
    if ring > 7 {
      var t := Tile(start.x - ring + 1, start.y + ring);
      assert Chebyshev(start, t) == ring && !Sampled(start, t);
    }
  }

  /** Whatever the place, the search from some seed starts at it. */
  lemma SomeSeedStartsAt(w: Map, t: Tile)
    requires w.width > 0 && w.height > 0 && w.InBounds(t)
    ensures Start(w, t.y * w.width + t.x) == t && Sampled(t, t)
  {
    hide Sampled;
    var seed := t.y * w.width + t.x;
    DivideIs(seed, w.width, t.y, t.x);
    DivideIs(t.y, w.height, 0, t.y);
    StartSampled(t);
  }

  lemma StartSampled(t: Tile)
    ensures Sampled(t, t)
  {
  }

  lemma DivideIs(n: int, d: int, q: int, r: int)
    requires d >= 1 && n == q * d + r && 0 <= r < d
    ensures n / d == q && n % d == r
  {
    var k := n / d;
    assert (k - q) * d == r - n % d;
    MulSign(k - q, d);
  }

  /** Some tile of the world is eight or more away. */
  predicate ReachesFar(width: nat, height: nat, t: Tile) {
    t.x >= 8 || t.y >= 8 || t.x + 8 < width || t.y + 8 < height
  }

  /** A tile of the world from which `t` is not tried. */
  lemma MissingStart(width: nat, height: nat, t: Tile) returns (start: Tile)
    requires FitsInside(width, height, t) && ReachesFar(width, height, t)
    ensures 0 <= start.x < width && 0 <= start.y < height && !Sampled(start, t)
  {
    start := if t.x >= 8 then Tile(t.x - 8, t.y + 1)
             else if t.x + 8 < width then Tile(t.x + 8, t.y + 1)
             else if t.y >= 8 then Tile(t.x + 1, t.y - 8)
             else Tile(t.x + 1, t.y + 8);
    assert Chebyshev(start, t) == 8 && RingStep(8) == 2;
  }

  /** There is a seed from which the only place for a city is missed, in a world of
      any size, exactly where the world reaches eight tiles or more from it. */
  lemma SomeSeedMissesIff(width: nat, height: nat, t: Tile, villagers: nat)
    requires FitsInside(width, height, t) && 1 <= villagers <= 8
    ensures var w := Meadow(width, height, t);
      (exists seed: nat :: NoneSampled(w, [], villagers, None, Start(w, seed))) <==> ReachesFar(width, height, t)
  {
    hide NoneSampled, Sampled, Acceptable, Start;
    var w := Meadow(width, height, t);
    if ReachesFar(width, height, t) {
      var start := MissingStart(width, height, t);
      SomeSeedStartsAt(w, start);
      var seed := start.y * w.width + start.x;
      NotNegative(start.y, w.width);
      OnlySiteFoundIff(width, height, seed, t, villagers);
      assert NoneSampled(w, [], villagers, None, Start(w, seed));
    }
    if seed: nat :| NoneSampled(w, [], villagers, None, Start(w, seed)) {
      OnlySiteFoundIff(width, height, seed, t, villagers);
      StartInside(w, seed);
      SampledIff(Start(w, seed), Chebyshev(Start(w, seed), t));
    }
  }

  lemma NotNegative(a: nat, b: nat)
    ensures a * b >= 0
  {
  }

  lemma StartInside(w: Map, seed: nat)
    requires w.width > 0 && w.height > 0
    ensures w.InBounds(Start(w, seed))
  {
  }

  // ---------------------------------------------------------------------
  // A site in plain numbers
  // ---------------------------------------------------------------------

  /** Neither outside the world nor mountain, water or built up. */
  predicate Free(w: Map, t: Tile) {
    && 0 <= t.x < w.width && 0 <= t.y < w.height
    && w.terrain(t) != Mountain && w.terrain(t) != Water && t !in w.blocked
  }

  /** One of the eight tiles two steps away, straight or diagonally. */
  predicate OnRing(center: Tile, t: Tile) {
    var dx, dy := t.x - center.x, t.y - center.y;
    (dx == -2 || dx == 0 || dx == 2) && (dy == -2 || dy == 0 || dy == 2) && (dx != 0 || dy != 0)
  }

  lemma RingMeans(center: Tile, t: Tile)
    ensures t in SpawnTilesAround(center) <==> OnRing(center, t)
    ensures var x, y := center.x, center.y;
      SpawnTilesAround(center)
      == [Tile(x + 2, y), Tile(x - 2, y), Tile(x, y + 2), Tile(x, y - 2),
          Tile(x + 2, y + 2), Tile(x - 2, y - 2), Tile(x + 2, y - 2), Tile(x - 2, y + 2)]
  {
  }

  /** No further than eight tiles from the centre, and outside the three by three. */
  predicate Around(center: Tile, t: Tile) {
    && center.x - 8 <= t.x <= center.x + 8 && center.y - 8 <= t.y <= center.y + 8
    && !(center.x - 1 <= t.x <= center.x + 1 && center.y - 1 <= t.y <= center.y + 1)
  }

  predicate Beside(a: Tile, b: Tile) {
    || (b.y == a.y && (b.x == a.x + 1 || b.x == a.x - 1))
    || (b.x == a.x && (b.y == a.y + 1 || b.y == a.y - 1))
  }

  /** A way on foot from the ring: up, down, left or right, over free tiles around. */
  ghost predicate Walks(w: Map, center: Tile, p: seq<Tile>) {
    && |p| > 0 && OnRing(center, p[0])
    && (forall i | 0 <= i < |p| :: Free(w, p[i]) && Around(center, p[i]))
    && (forall i | 0 < i < |p| :: Beside(p[i - 1], p[i]))
  }

  ghost predicate WalksTo(w: Map, center: Tile, t: Tile) {
    exists p :: Walks(w, center, p) && p[|p| - 1] == t
  }

  ghost predicate Stocked(w: Map, center: Tile, hasWood: Option<Tile -> bool>, t: Tile) {
    w.terrain(t) == Forest && (hasWood == None || hasWood.value(t)) && WalksTo(w, center, t)
  }

  ghost predicate TenStocked(w: Map, center: Tile, hasWood: Option<Tile -> bool>) {
    exists s: set<Tile> :: |s| >= 10 && forall t | t in s :: Stocked(w, center, hasWood, t)
  }

  lemma GroundMeans(w: Map, center: Tile, t: Tile)
    ensures Ground(w, center, t) <==> Free(w, t) && Around(center, t)
    ensures w.IsWalkable(t) <==> Free(w, t)
    ensures forall u :: FourAdjacent(t, u) <==> Beside(t, u)
  {
  }

  lemma WalkMeans(w: Map, center: Tile, p: seq<Tile>)
    ensures IsWalk(w, center, p) <==> Walks(w, center, p)
  {
    hide Ground, Free, Around, FourAdjacent, Beside, OnRing, SpawnTilesAround;
    if |p| > 0 {
      RingMeans(center, p[0]);
      forall i | 0 <= i < |p|
        ensures Ground(w, center, p[i]) <==> Free(w, p[i]) && Around(center, p[i])
        ensures i > 0 ==> (FourAdjacent(p[i - 1], p[i]) <==> Beside(p[i - 1], p[i]))
      {
        GroundMeans(w, center, p[i]);
        if i > 0 {
          GroundMeans(w, center, p[i - 1]);
        }
      }
    }
  }

  lemma ReachMeans(w: Map, center: Tile, t: Tile)
    ensures Reachable(w, center, t) <==> WalksTo(w, center, t)
    ensures WalksTo(w, center, t) ==> Free(w, t)
  {
    hide Free, Around, Beside, OnRing, Ground, FourAdjacent, SpawnTilesAround;
    forall p ensures IsWalk(w, center, p) <==> Walks(w, center, p) {
      WalkMeans(w, center, p);
    }
  }

  lemma WoodMeans(w: Map, center: Tile, hasWood: Option<Tile -> bool>)
    ensures EnoughWood(w, center, hasWood) <==> TenStocked(w, center, hasWood)
  {
    hide WalksTo, Reachable;
    forall t ensures Wooded(w, hasWood, t) && Reachable(w, center, t) <==> Stocked(w, center, hasWood, t) {
      ReachMeans(w, center, t);
    }
    if s: set<Tile> :| |s| >= 10 && forall t | t in s :: Stocked(w, center, hasWood, t) {
      assert WoodedAndReachable(w, center, hasWood, s);
    }
  }

  /** A city may stand where the seven by seven tiles around are free, every other city
      is 24 tiles away or more on one axis, and ten tiles of forest with wood left can
      be walked to. */
  lemma ViableMeans(w: Map, center: Tile, existing: seq<Tile>, hasWood: Option<Tile -> bool>)
    ensures Viable(w, center, existing, hasWood) <==>
      && (forall t: Tile | center.x - 3 <= t.x <= center.x + 3 && center.y - 3 <= t.y <= center.y + 3 :: Free(w, t))
      && (forall o | o in existing ::
            o.x <= center.x - 24 || center.x + 24 <= o.x || o.y <= center.y - 24 || center.y + 24 <= o.y)
      && TenStocked(w, center, hasWood)
  {
    hide EnoughWood, TenStocked, Free;
    WoodMeans(w, center, hasWood);
    forall t: Tile ensures w.IsWalkable(t) <==> Free(w, t) {
      GroundMeans(w, center, t);
    }
    forall t: Tile
      ensures Chebyshev(center, t) <= CLEAR_RADIUS <==>
        center.x - 3 <= t.x <= center.x + 3 && center.y - 3 <= t.y <= center.y + 3
    {
    }
  }

  /** On the upper or lower side of the square around the start. */
  predicate InRowSides(start: Tile, t: Tile) {
    t.y == start.y - Chebyshev(start, t) || t.y == start.y + Chebyshev(start, t)
  }

  /** The order in which the tiles of one ring are tried: the upper and lower sides
      first, in pairs from the left with the upper one first, and then the other two,
      in pairs from the top with the left one first. */
  predicate TriedBefore(start: Tile, t: Tile, u: Tile) {
    if InRowSides(start, t) then InRowSides(start, u) ==> t.x < u.x || (t.x == u.x && t.y < u.y)
    else !InRowSides(start, u) && (t.y < u.y || (t.y == u.y && t.x < u.x))
  }

  function Steps(k: nat, step: int): int {
    k * step
  }

  ghost predicate IsWholeSteps(n: int, step: int) {
    exists k: nat :: Steps(k, step) == n
  }

  lemma WholeSteps(n: int, step: int)
    requires step >= 1 && n >= 0
    ensures IsWholeSteps(n, step) <==> n % step == 0
  {
    if k: nat :| Steps(k, step) == n {
      Multiple(k, step);
    }
    if n % step == 0 {
      var k := n / step;
      assert Steps(k, step) == n;
    }
  }

  /** Of the upper and lower sides, and of the left and right ones, one tile in every so
      many is tried: all of them up to ring 7, every other one up to ring 15, and so on. */
  lemma SampledMeans(start: Tile, t: Tile)
    ensures var ring := Chebyshev(start, t);
      Sampled(start, t) <==>
        IsWholeSteps(ring + if InRowSides(start, t) then t.x - start.x else t.y - start.y, ring / 8 + 1)
  {
    var ring := Chebyshev(start, t);
    WholeSteps(ring + if InRowSides(start, t) then t.x - start.x else t.y - start.y, ring / 8 + 1);
  }

  lemma RingOrder(cx: int, cy: int, ring: nat, i: nat, j: nat)
    requires i < j < |Ring(cx, cy, ring)|
    ensures TriedBefore(Tile(cx, cy), Ring(cx, cy, ring)[i], Ring(cx, cy, ring)[j])
  {
    var step, start := RingStep(ring), Tile(cx, cy);
    if ring > 0 {
      var n, m := 2 * ring / step + 1, (2 * ring - 1) / step;
      var rows, columns := RowPairs(cx, cy, ring, n), ColumnPairs(cx, cy, ring, m);
      if j < 2 * n {
        RowTile(cx, cy, ring, i);
        RowTile(cx, cy, ring, j);
        PairOrder(i, j, step);
      } else if i >= 2 * n {
        ColumnTile(cx, cy, ring, i - 2 * n);
        ColumnTile(cx, cy, ring, j - 2 * n);
        PairOrder(i - 2 * n, j - 2 * n, step);
        assert ((i - 2 * n) / 2 + 1) * step == (i - 2 * n) / 2 * step + step;
        assert ((j - 2 * n) / 2 + 1) * step == (j - 2 * n) / 2 * step + step;
      } else {
        RowTile(cx, cy, ring, i);
        ColumnTile(cx, cy, ring, j - 2 * n);
      }
    }
  }

  lemma PairOrder(i: nat, j: nat, step: int)
    requires i < j && step >= 1
    ensures i / 2 * step < j / 2 * step || (i / 2 == j / 2 && i % 2 == 0 && j % 2 == 1)
  {
    if i / 2 < j / 2 {
      MulSign(j / 2 - i / 2, step);
      assert (j / 2 - i / 2) * step == j / 2 * step - i / 2 * step;
    }
  }

  lemma {:induction false} SpiralOrder(cx: int, cy: int, ring: nat, maxRing: int, i: nat, j: nat)
    requires i < j < |Candidates(cx, cy, ring, maxRing)|
    ensures var t, u := Candidates(cx, cy, ring, maxRing)[i], Candidates(cx, cy, ring, maxRing)[j];
      var start := Tile(cx, cy);
      Chebyshev(start, t) == Chebyshev(start, u) ==> TriedBefore(start, t, u)
    decreases maxRing - ring
  {
    hide Ring, Sampled, TriedBefore;
    var here, rest := Ring(cx, cy, ring), Candidates(cx, cy, ring + 1, maxRing);
    var c := Candidates(cx, cy, ring, maxRing);
    assert c == here + rest;
    if j < |here| {
      RingOrder(cx, cy, ring, i, j);
    } else if i >= |here| {
      SpiralOrder(cx, cy, ring + 1, maxRing, i - |here|, j - |here|);
    } else {
      InRing(cx, cy, ring, c[i]);
      InCandidates(cx, cy, ring + 1, maxRing, c[j]);
    }
  }

  /** Where the search starts: the seed counted through the world row by row, over and
      over again. */
  lemma StartMeans(w: Map, seed: nat)
    requires w.width > 0 && w.height > 0
    ensures var t := Start(w, seed);
      0 <= t.x < w.width && 0 <= t.y < w.height && exists k: nat :: seed == (k * w.height + t.y) * w.width + t.x
  {
    var q := seed / w.width;
    assert seed == q * w.width + seed % w.width && q == q / w.height * w.height + q % w.height;
  }

  /** The site found is the nearest to the start of all that are acceptable and sampled,
      and the first tried of those as near. */
  lemma SiteIsFirst(w: Map, existing: seq<Tile>, seed: nat, villagers: nat, hasWood: Option<Tile -> bool>, site: Site)
    requires w.width > 0 && w.height > 0 && IsSite(w, existing, villagers, hasWood, Spiral(w, seed), site)
    ensures var start, t := Start(w, seed), site.center;
      forall o | Acceptable(w, existing, villagers, hasWood, o) && Sampled(start, o) && o != t ::
        Chebyshev(start, t) < Chebyshev(start, o)
        || (Chebyshev(start, t) == Chebyshev(start, o) && TriedBefore(start, t, o))
  {
    hide Acceptable, Sampled, Candidates, TriedBefore, Spawns;
    var start, t, c := Start(w, seed), site.center, Spiral(w, seed);
    var k :| 0 <= k < |c| && c[k] == t && Acceptable(w, existing, villagers, hasWood, t)
             && forall j | 0 <= j < k :: !Acceptable(w, existing, villagers, hasWood, c[j]);
    FirstIsNearest(w, existing, seed, villagers, hasWood, t);
    forall o | Acceptable(w, existing, villagers, hasWood, o) && Sampled(start, o) && o != t
      ensures Chebyshev(start, t) < Chebyshev(start, o)
           || (Chebyshev(start, t) == Chebyshev(start, o) && TriedBefore(start, t, o))
    {
      AcceptableInside(w, existing, villagers, hasWood, o);
      InSpiral(w, seed, o);
      var j :| 0 <= j < |c| && c[j] == o;
      SpiralOrder(start.x, start.y, 0, if w.width > w.height then w.width else w.height, k, j);
    }
  }

  /** It is three by three tiles, and its villagers are born on the first tiles of the
      ring. */
  lemma SiteShape(w: Map, existing: seq<Tile>, villagers: nat, hasWood: Option<Tile -> bool>,
                  candidates: seq<Tile>, site: Site)
    requires IsSite(w, existing, villagers, hasWood, candidates, site)
    ensures var x, y := site.center.x, site.center.y;
      && (site.minX, site.minY, site.maxX, site.maxY) == (x - 1, y - 1, x + 1, y + 1)
      && villagers <= 8
      && site.spawns == [Tile(x + 2, y), Tile(x - 2, y), Tile(x, y + 2), Tile(x, y - 2),
                         Tile(x + 2, y + 2), Tile(x - 2, y - 2), Tile(x + 2, y - 2), Tile(x - 2, y + 2)][..villagers]
  {
    hide Acceptable, Viable, Spawns;
    var t := site.center;
    RoomForEight(w, existing, villagers, hasWood, t);
    assert Clear(w, t) by { ViableIsClear(w, existing, hasWood, t); }
    BornInOrder(w, t, villagers);
    RingMeans(t, t);
  }

  lemma ViableIsClear(w: Map, existing: seq<Tile>, hasWood: Option<Tile -> bool>, t: Tile)
    requires Viable(w, t, existing, hasWood)
    ensures Clear(w, t)
  {
  }

  lemma BornInOrder(w: Map, center: Tile, n: nat)
    requires n <= 8 && Clear(w, center)
    ensures Spawns(w, SpawnTilesAround(center), n, 0) == SpawnTilesAround(center)[..n]
  {
    ClearRing(w, center, n);
    AllInOrder(w, SpawnTilesAround(center), n, 0);
  }

  lemma {:induction false} AllInOrder(w: Map, ring: seq<Tile>, n: nat, k: nat)
    requires k + n <= |ring| && forall t | t in ring :: w.IsWalkable(t)
    ensures Spawns(w, ring, n, k) == ring[k..k + n]
    decreases n
  {
    if n > 0 {
      AllInOrder(w, ring, n - 1, k + 1);
    }
  }
}
