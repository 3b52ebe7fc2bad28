// Safe zones: boxes cut down to the terrain of their type, indexed tile by tile,
// and the index kept up to date when a wall is built.

module SafeZone {
  import opened Wrappers
  import opened World
  import opened Raster
  import Seqs

  datatype ZoneType = DenseForest | Cavern | UnknownZone(name: string)

  /** The index holds ids in thirty-two bits; larger ones are rejected first. */
  const MAX_ZONE_ID := 0xFFFF_FFFF

  datatype Zone = Zone(id: int, name: string, kind: ZoneType, minX: int, minY: int, maxX: int, maxY: int) {
    predicate Contains(x: int, y: int) {
      minX <= x <= maxX && minY <= y <= maxY
    }
  }

  function ZoneId(z: Zone): int {
    z.id
  }

  // ---------------------------------------------------------------------
  // Which tiles
  // ---------------------------------------------------------------------

  predicate MountainAt(m: Map, t: Tile, dx: int, dy: int) {
    (dx != 0 || dy != 0) && m.TerrainAt(Tile(t.x + dx, t.y + dy)) == Mountain
  }

  predicate NextToMountain(m: Map, t: Tile) {
    exists dx, dy :: -1 <= dx <= 1 && -1 <= dy <= 1 && MountainAt(m, t, dx, dy)
  }

  predicate SatisfiesTerrain(m: Map, kind: ZoneType, t: Tile) {
    match kind
    case DenseForest => m.TerrainAt(t) == Forest
    case Cavern => m.TerrainAt(t).Walkable() && NextToMountain(m, t)
    case UnknownZone(_) => false
  }

  predicate IsMember(m: Map, kind: ZoneType, t: Tile) {
    SatisfiesTerrain(m, kind, t) && !m.IsBlocked(t)
  }

  /** Whether a tile would belong to a zone, looking at its neighbours one by one. */
  method Member(m: Map, kind: ZoneType, x: int, y: int) returns (b: bool)
    ensures b == IsMember(m, kind, Tile(x, y))
  {
    var satisfies := false;
    var terrain := m.TerrainAt(Tile(x, y));
    if kind.DenseForest? {
      satisfies := terrain == Forest;
    } else if kind.Cavern? && terrain.Walkable() {
      satisfies := AnyMountain(m, Tile(x, y));
    }
    b := satisfies && !m.IsBlocked(Tile(x, y));
  }

  method AnyMountain(m: Map, t: Tile) returns (b: bool)
    ensures b == NextToMountain(m, t)
  {
    for dy := -1 to 2
      invariant forall ex, ey :: -1 <= ex <= 1 && -1 <= ey < dy ==> !MountainAt(m, t, ex, ey)
    {
      for dx := -1 to 2
        invariant forall ex, ey :: -1 <= ex <= 1 && -1 <= ey < dy ==> !MountainAt(m, t, ex, ey)
        invariant forall ex :: -1 <= ex < dx ==> !MountainAt(m, t, ex, dy)
      {
        if dx == 0 && dy == 0 {
          continue;
        }
        if m.TerrainAt(Tile(t.x + dx, t.y + dy)) == Mountain {
          assert MountainAt(m, t, dx, dy);
          return true;
        }
      }
    }
    return false;
  }

  /** A refuge can be walked on, and it is never under a building. */
  lemma MembersAreWalkable(m: Map, kind: ZoneType, t: Tile)
    requires IsMember(m, kind, t)
    ensures m.IsWalkable(t)
  {
  }

  /** Inside the world, and forest, or ground to walk on with a mountain among the
      eight tiles around it. */
  ghost predicate Fitting(m: Map, kind: ZoneType, t: Tile) {
    && 0 <= t.x < m.width && 0 <= t.y < m.height
    && ((kind == DenseForest && m.terrain(t) == Forest)
        || (kind == Cavern && m.terrain(t) != Mountain && m.terrain(t) != Water && BelowMountain(m, t)))
  }

  ghost predicate BelowMountain(m: Map, t: Tile) {
    exists u: Tile :: 0 <= u.x < m.width && 0 <= u.y < m.height && m.terrain(u) == Mountain && Chebyshev(t, u) == 1
  }

  lemma MemberMeans(m: Map, kind: ZoneType, t: Tile)
    ensures SatisfiesTerrain(m, kind, t) <==> Fitting(m, kind, t)
    ensures IsMember(m, kind, t) <==> Fitting(m, kind, t) && t !in m.blocked
  {
    if BelowMountain(m, t) {
      var u: Tile :| 0 <= u.x < m.width && 0 <= u.y < m.height && m.terrain(u) == Mountain && Chebyshev(t, u) == 1;
      assert MountainAt(m, t, u.x - t.x, u.y - t.y);
    }
    if NextToMountain(m, t) {
      var dx, dy :| -1 <= dx <= 1 && -1 <= dy <= 1 && MountainAt(m, t, dx, dy);
      assert Chebyshev(t, Tile(t.x + dx, t.y + dy)) == 1;
    }
  }

  function SideOf(m: Map, kind: ZoneType): Tile -> Side {
    (t: Tile) => if !SatisfiesTerrain(m, kind, t) then Outside else if m.IsBlocked(t) then Built else Inside
  }

  function LayerOf(m: Map): Zone -> Layer {
    (z: Zone) => Layer(z.id, z.minX, z.minY, z.maxX, z.maxY, SideOf(m, z.kind))
  }

  function LayersOf(m: Map, zones: seq<Zone>): seq<Layer> {
    Seqs.Map(zones, LayerOf(m))
  }

  // ---------------------------------------------------------------------
  // Which zones
  // ---------------------------------------------------------------------

  datatype Reason = IdOutOfRange | UnknownType | UnorderedLimits | OutsideWorld | DuplicateId

  datatype Rejection = Rejection(zoneID: int, reason: Reason)

  function Validate(z: Zone, width: int, height: int): Option<Reason> {
    if z.id < 1 || z.id > MAX_ZONE_ID then Some(IdOutOfRange)
    else if z.kind.UnknownZone? then Some(UnknownType)
    else if z.minX > z.maxX || z.minY > z.maxY then Some(UnorderedLimits)
    else if z.minX < 0 || z.minY < 0 || z.maxX >= width || z.maxY >= height then Some(OutsideWorld)
    else None
  }

  function Refusal(accepted: seq<Zone>, z: Zone, width: int, height: int): Option<Reason> {
    if Validate(z, width, height).Some? then Validate(z, width, height)
    else if exists a :: a in accepted && a.id == z.id then Some(DuplicateId)
    else None
  }

  /** The zones of a list in order of id that enter the index. */
  function Accepted(zones: seq<Zone>, width: int, height: int): seq<Zone> {
    if |zones| == 0 then [] else
    var rest := Accepted(zones[..|zones| - 1], width, height);
    if Refusal(rest, zones[|zones| - 1], width, height).None? then rest + [zones[|zones| - 1]] else rest
  }

  function Rejected(zones: seq<Zone>, width: int, height: int): seq<Rejection> {
    if |zones| == 0 then [] else
    var init, last := zones[..|zones| - 1], zones[|zones| - 1];
    var reason := Refusal(Accepted(init, width, height), last, width, height);
    Rejected(init, width, height) + if reason.Some? then [Rejection(last.id, reason.value)] else []
  }

  /** The id fits the index. */
  predicate Numbered(z: Zone) {
    1 <= z.id < 0x1_0000_0000
  }

  predicate Straight(z: Zone) {
    z.minX <= z.maxX && z.minY <= z.maxY
  }

  /** Nothing is wrong with a zone of a known type whose id fits, with ordered limits
      inside the world; otherwise what is told is the first of these to fail. */
  lemma ReasonMeans(z: Zone, width: int, height: int)
    ensures Validate(z, width, height) == None <==> Sound(z, width, height)
    ensures match Validate(z, width, height)
            case None => Sound(z, width, height)
            case Some(IdOutOfRange) => !Numbered(z)
            case Some(UnknownType) => Numbered(z) && z.kind != DenseForest && z.kind != Cavern
            case Some(UnorderedLimits) => Numbered(z) && (z.kind == DenseForest || z.kind == Cavern) && !Straight(z)
            case Some(OutsideWorld) =>
              Numbered(z) && (z.kind == DenseForest || z.kind == Cavern) && Straight(z) && !Sound(z, width, height)
            case Some(DuplicateId) => false
  {
  }

  predicate Sound(z: Zone, width: int, height: int) {
    && Numbered(z) && (z.kind == DenseForest || z.kind == Cavern)
    && 0 <= z.minX <= z.maxX < width && 0 <= z.minY <= z.maxY < height
  }

  /** A sound zone before the k-th of the list has its id. */
  ghost predicate Taken(zones: seq<Zone>, width: int, height: int, k: nat) {
    k < |zones| && exists j :: 0 <= j < k && Sound(zones[j], width, height) && zones[j].id == zones[k].id
  }

  /** The first sound zone of each id enters the index, and no other zone does. */
  lemma {:induction false} EntryMeans(zones: seq<Zone>, width: int, height: int, z: Zone)
    ensures z in Accepted(zones, width, height) <==>
      exists k :: 0 <= k < |zones| && zones[k] == z && Sound(z, width, height) && !Taken(zones, width, height, k)
    ensures |Accepted(zones, width, height)| + |Rejected(zones, width, height)| == |zones|
  {
    hide Validate, Sound, Taken, Refusal;
    if |zones| > 0 {
      var init, n := zones[..|zones| - 1], |zones| - 1;
      EntryMeans(init, width, height, z);
      forall k | 0 <= k < n
        ensures init[k] == zones[k] && (Taken(init, width, height, k) <==> Taken(zones, width, height, k))
      {
        SameTaken(zones, width, height, k);
      }
      LastEntry(zones, width, height);
      ReasonMeans(zones[n], width, height);
    }
  }

  /** All others are turned away, the sound ones as duplicates and the rest for their own
      fault, each once and in order. */
  lemma {:induction false} RejectionMeans(zones: seq<Zone>, width: int, height: int, r: Rejection)
    ensures r in Rejected(zones, width, height) <==>
      exists k :: 0 <= k < |zones| && zones[k].id == r.zoneID && TurnedAway(zones, width, height, k, r.reason)
  {
    hide Validate, Sound, Taken, Accepted, Refusal;
    if |zones| > 0 {
      var init, n := zones[..|zones| - 1], |zones| - 1;
      RejectionMeans(init, width, height, r);
      forall k | 0 <= k < n
        ensures init[k] == zones[k] && (Taken(init, width, height, k) <==> Taken(zones, width, height, k))
      {
        SameTaken(zones, width, height, k);
      }
      LastEntry(zones, width, height);
      ReasonMeans(zones[n], width, height);
    }
  }

  lemma SameTaken(zones: seq<Zone>, width: int, height: int, k: nat)
    requires k < |zones| - 1
    ensures Taken(zones[..|zones| - 1], width, height, k) <==> Taken(zones, width, height, k)
  {
    hide Sound;
  }

  ghost predicate TurnedAway(zones: seq<Zone>, width: int, height: int, k: nat, reason: Reason)
    requires k < |zones|
  {
    if Sound(zones[k], width, height) then reason == DuplicateId && Taken(zones, width, height, k)
    else Validate(zones[k], width, height) == Some(reason)
  }

  lemma LastEntry(zones: seq<Zone>, width: int, height: int)
    requires |zones| > 0
    ensures var init, n := zones[..|zones| - 1], |zones| - 1;
      Refusal(Accepted(init, width, height), zones[n], width, height)
      == if !Sound(zones[n], width, height) then Validate(zones[n], width, height)
         else if Taken(zones, width, height, n) then Some(DuplicateId) else None
  {
    hide Validate, Sound;
    var init, n := zones[..|zones| - 1], |zones| - 1;
    ReasonMeans(zones[n], width, height);
    if Taken(zones, width, height, n) {
      var j :| 0 <= j < n && Sound(zones[j], width, height) && zones[j].id == zones[n].id;
      assert init[j] == zones[j];
      ReasonMeans(zones[j], width, height);
      ValidIsAccepted(init, width, height, init[j]);
    }
    AcceptedIsSound(init, width, height);
  }

  lemma {:induction false} AcceptedIsSound(zones: seq<Zone>, width: int, height: int)
    ensures forall a :: a in Accepted(zones, width, height) ==>
      Sound(a, width, height) && exists j :: 0 <= j < |zones| && zones[j] == a
  {
    hide Validate, Sound;
    if |zones| > 0 {
      var init, n := zones[..|zones| - 1], |zones| - 1;
      AcceptedIsSound(init, width, height);
      ReasonMeans(zones[n], width, height);
      forall j | 0 <= j < n ensures init[j] == zones[j] {
      }
    }
  }

  /** Accepted zones are valid, and have one id each, in order. */
  lemma {:induction false} AcceptedAscend(zones: seq<Zone>, width: int, height: int)
    requires Seqs.SortedBy(zones, ZoneId)
    ensures var zs := Accepted(zones, width, height);
      && (forall z :: z in zs ==> z in zones && Validate(z, width, height).None?)
      && (forall j, k :: 0 <= j < k < |zs| ==> zs[j].id < zs[k].id)
  {
    if |zones| > 0 {
      var init, last := zones[..|zones| - 1], zones[|zones| - 1];
      AcceptedAscend(init, width, height);
      var rest := Accepted(init, width, height);
      assert zones == init + [last];
      forall j | 0 <= j < |rest| ensures rest[j].id <= last.id && rest[j] in rest {
        assert rest[j] in init;
        var k :| 0 <= k < |init| && init[k] == rest[j];
        assert ZoneId(zones[k]) <= ZoneId(zones[|zones| - 1]);
      }
    }
  }

  /** Every valid zone is accepted, unless its id has been taken. */
  lemma {:induction false} ValidIsAccepted(zones: seq<Zone>, width: int, height: int, z: Zone)
    requires z in zones && Validate(z, width, height).None?
    ensures exists a :: a in Accepted(zones, width, height) && a.id == z.id
  {
    var init, last := zones[..|zones| - 1], zones[|zones| - 1];
    assert zones == init + [last];
    if z in init {
      ValidIsAccepted(init, width, height, z);
      var a :| a in Accepted(init, width, height) && a.id == z.id;
      assert a in Accepted(zones, width, height);
    } else if Refusal(Accepted(init, width, height), last, width, height).None? {
      assert last in Accepted(zones, width, height);
    } else {
      var a :| a in Accepted(init, width, height) && a.id == z.id;
      assert a in Accepted(zones, width, height);
    }
  }

  lemma LayersAscend(m: Map, zones: seq<Zone>)
    requires forall z :: z in zones ==> Validate(z, m.width, m.height).None?
    requires forall j, k :: 0 <= j < k < |zones| ==> zones[j].id < zones[k].id
    ensures |LayersOf(m, zones)| == |zones| && forall k :: 0 <= k < |zones| ==>
        LayersOf(m, zones)[k] == LayerOf(m)(zones[k])
    ensures Ascending(LayersOf(m, zones)) && forall l :: l in LayersOf(m, zones) ==> l.Fits(m.width, m.height)
  {
    Seqs.InMap(zones, LayerOf(m));
    forall k | 0 <= k < |zones| ensures zones[k].id > 0 && LayerOf(m)(zones[k]).Fits(m.width, m.height) {
      assert zones[k] in zones;
    }
  }

  lemma CoversIsMember(m: Map, z: Zone, t: Tile)
    ensures LayerOf(m)(z).Covers(t) <==> z.Contains(t.x, t.y) && IsMember(m, z.kind, t)
  {
  }

  // ---------------------------------------------------------------------
  // Walls
  // ---------------------------------------------------------------------

  predicate InRect(t: Tile, minX: int, minY: int, maxX: int, maxY: int) {
    minX <= t.x <= maxX && minY <= t.y <= maxY
  }

  /** A wall takes its tiles away from whoever had them, and changes no others:
      the first claim that the others leave stays the first. */
  lemma {:induction false} OwnerAfterWall(m: Map, zones: seq<Zone>, minX: int, minY: int, maxX: int, maxY: int, t: Tile)
    ensures Owner(LayersOf(m.Wall(minX, minY, maxX, maxY), zones), t)
         == (if InRect(t, minX, minY, maxX, maxY) then 0 else Owner(LayersOf(m, zones), t))
  {
    if |zones| > 0 {
      var walled, init, last := m.Wall(minX, minY, maxX, maxY), zones[..|zones| - 1], zones[|zones| - 1];
      OwnerAfterWall(m, init, minX, minY, maxX, maxY, t);
      OwnerStep(m, zones, t);
      OwnerStep(walled, zones, t);
      CoversIsMember(m, last, t);
      CoversIsMember(walled, last, t);
      BlockedAfterWall(m, minX, minY, maxX, maxY, t);
      TerrainAfterWall(m, minX, minY, maxX, maxY, last.kind, t);
    }
  }

  datatype Rect = Rect(minX: int, minY: int, maxX: int, maxY: int) {
    predicate Has(t: Tile) {
      InRect(t, minX, minY, maxX, maxY)
    }
  }

  function Walled(m: Map, walls: seq<Rect>): Map {
    if |walls| == 0 then m else
    var w := walls[|walls| - 1];
    Walled(m, walls[..|walls| - 1]).Wall(w.minX, w.minY, w.maxX, w.maxY)
  }

  /** However many cities are founded, and in whatever order, a tile keeps the zone
      it was first given until a wall covers it, and never gets another. */
  lemma {:induction false} OwnerAfterWalls(m: Map, zones: seq<Zone>, walls: seq<Rect>, t: Tile)
    ensures Owner(LayersOf(Walled(m, walls), zones), t)
         == (if exists w :: w in walls && w.Has(t) then 0 else Owner(LayersOf(m, zones), t))
  {
    if |walls| > 0 {
      var init, w := walls[..|walls| - 1], walls[|walls| - 1];
      assert walls == init + [w];
      OwnerAfterWalls(m, zones, init, t);
      assert Walled(m, walls) == Walled(m, init).Wall(w.minX, w.minY, w.maxX, w.maxY);
      assert (exists v :: v in walls && v.Has(t)) <==> w.Has(t) || exists v :: v in init && v.Has(t);
      OwnerAfterWall(Walled(m, init), zones, w.minX, w.minY, w.maxX, w.maxY, t);
    }
  }

  lemma OwnerStep(m: Map, zones: seq<Zone>, t: Tile)
    requires |zones| > 0
    ensures var init, last := zones[..|zones| - 1], zones[|zones| - 1];
      Owner(LayersOf(m, zones), t)
      == (if Owner(LayersOf(m, init), t) != 0 then Owner(LayersOf(m, init), t)
          else if LayerOf(m)(last).Covers(t) then last.id else 0)
  {
    var layers := LayersOf(m, zones);
    Seqs.InMap(zones, LayerOf(m));
    assert layers[..|layers| - 1] == LayersOf(m, zones[..|zones| - 1]);
  }

  lemma BlockedAfterWall(m: Map, minX: int, minY: int, maxX: int, maxY: int, t: Tile)
    ensures m.Wall(minX, minY, maxX, maxY).IsBlocked(t) <==>
      m.IsBlocked(t) || (minX <= t.x <= maxX && minY <= t.y <= maxY)
  {
    var wall := set x, y | minX <= x <= maxX && minY <= y <= maxY :: Tile(x, y);
    if InRect(t, minX, minY, maxX, maxY) {
      assert Tile(t.x, t.y) in wall;
    }
  }

  lemma TerrainAfterWall(m: Map, minX: int, minY: int, maxX: int, maxY: int, kind: ZoneType, t: Tile)
    ensures SatisfiesTerrain(m.Wall(minX, minY, maxX, maxY), kind, t) <==> SatisfiesTerrain(m, kind, t)
  {
    var walled := m.Wall(minX, minY, maxX, maxY);
    assert forall dx, dy :: MountainAt(walled, t, dx, dy) == MountainAt(m, t, dx, dy);
  }

  // ---------------------------------------------------------------------
  // The index
  // ---------------------------------------------------------------------

  /** The first tile of each zone's built-up part, and how many there are. */
  function UrbanOf(layers: seq<Layer>): seq<Overlap> {
    if |layers| == 0 then [] else
    var last := layers[|layers| - 1];
    var tally := Tally(Seqs.Filter(Cells(last), IsBuilt(last)), 0, last.id);
    UrbanOf(layers[..|layers| - 1]) + if tally.Some? then [tally.value] else []
  }

  /** What of a zone's terrain is built up. */
  ghost function BuiltUp(m: Map, z: Zone): set<Tile> {
    set x, y | z.minX <= x <= z.maxX && z.minY <= y <= z.maxY
            && Fitting(m, z.kind, Tile(x, y)) && Tile(x, y) in m.blocked :: Tile(x, y)
  }

  /** Of every zone with some of its terrain built up it is told how much, and where
      that begins. */
  lemma {:induction false} UrbanMeans(m: Map, zones: seq<Zone>, o: Overlap)
    ensures o in UrbanOf(LayersOf(m, zones)) <==>
      o.kept == 0 && exists z :: z in zones && z.id == o.discarded && SumsUp(o, BuiltUp(m, z))
  {
    hide SumsUp, Cells, Tally, SatisfiesTerrain, Fitting;
    if |zones| > 0 {
      var init, z := zones[..|zones| - 1], zones[|zones| - 1];
      var l := LayerOf(m)(z);
      UrbanMeans(m, init, o);
      assert zones == init + [z];
      UrbanMore(LayersOf(m, init), l);
      UrbanOfOne(m, z, o);
    }
  }

  lemma UrbanOfOne(m: Map, z: Zone, o: Overlap)
    ensures Tally(Seqs.Filter(Cells(LayerOf(m)(z)), IsBuilt(LayerOf(m)(z))), 0, z.id) == Some(o) <==>
      o.kept == 0 && o.discarded == z.id && SumsUp(o, BuiltUp(m, z))
  {
    hide SumsUp, Tally, SatisfiesTerrain, Fitting;
    var p := IsBuilt(LayerOf(m)(z));
    TallyMeans(z.minX, z.minY, z.maxX, z.maxY, p, 0, z.id, o);
    forall t ensures p(t) <==> Fitting(m, z.kind, t) && t in m.blocked {
      MemberMeans(m, z.kind, t);
    }
    assert TilesWhere(z.minX, z.minY, z.maxX, z.maxY, p) == BuiltUp(m, z);
  }

  lemma NoneAfter(zones: seq<Zone>)
    requires |zones| > 0 && Seqs.SortedBy(zones, ZoneId)
    ensures Seqs.SortedBy(zones[..|zones| - 1], ZoneId)
    ensures forall z :: z in zones[..|zones| - 1] ==> z.id <= zones[|zones| - 1].id
  {
    var init := zones[..|zones| - 1];
    forall z | z in init ensures z.id <= zones[|zones| - 1].id {
      var k :| 0 <= k < |init| && init[k] == z;
      assert ZoneId(zones[k]) <= ZoneId(zones[|zones| - 1]);
    }
  }

  /** Zones are turned away in order of id. */
  lemma {:induction false} RejectedInOrder(zones: seq<Zone>, width: int, height: int)
    requires Seqs.SortedBy(zones, ZoneId)
    ensures var rejected := Rejected(zones, width, height);
      forall j, k :: 0 <= j < k < |rejected| ==> rejected[j].zoneID <= rejected[k].zoneID
  {
    hide Refusal, Accepted, Seqs.SortedBy, TurnedAway;
    if |zones| > 0 {
      var init, z := zones[..|zones| - 1], zones[|zones| - 1];
      NoneAfter(zones);
      RejectedInOrder(init, width, height);
      var before := Rejected(init, width, height);
      forall j | 0 <= j < |before| ensures before[j].zoneID <= z.id {
        RejectionMeans(init, width, height, before[j]);
        var k :| 0 <= k < |init| && init[k].id == before[j].zoneID;
        assert init[k] in init;
      }
    }
  }

  /** Built-up parts are told in order of id. */
  lemma {:induction false} UrbanInOrder(m: Map, zones: seq<Zone>)
    requires Seqs.SortedBy(zones, ZoneId)
    ensures var urban := UrbanOf(LayersOf(m, zones));
      forall j, k :: 0 <= j < k < |urban| ==> urban[j].discarded <= urban[k].discarded
  {
    hide UrbanOf, LayersOf, SumsUp, Seqs.SortedBy;
    if |zones| == 0 {
      NoUrban(m);
    } else {
      var init, z := zones[..|zones| - 1], zones[|zones| - 1];
      NoneAfter(zones);
      UrbanInOrder(m, init);
      assert zones == init + [z];
      var before := UrbanOf(LayersOf(m, init));
      OneMoreUrban(m, init, z);
      forall j | 0 <= j < |before| ensures before[j].discarded <= z.id {
        assert before[j] in before;
        UrbanMeans(m, init, before[j]);
      }
    }
  }

  lemma NoUrban(m: Map)
    ensures UrbanOf(LayersOf(m, [])) == []
  {
  }

  lemma OneMoreUrban(m: Map, zones: seq<Zone>, z: Zone)
    ensures var more := UrbanOf(LayersOf(m, zones + [z]));
      || more == UrbanOf(LayersOf(m, zones))
      || exists o :: more == UrbanOf(LayersOf(m, zones)) + [o] && o.discarded == z.id
  {
    assert (zones + [z])[..|zones|] == zones;
    UrbanMore(LayersOf(m, zones), LayerOf(m)(z));
  }

  datatype Report = Report(overlaps: seq<Overlap>, rejected: seq<Rejection>, urban: seq<Overlap>)

  datatype IndexError = BadWorld

  /** Tiles of the world that a table gives to `id`. */
  function OwnedTile(width: int, height: int, f: Tile -> int, id: int): Tile -> bool {
    (t: Tile) => 0 <= t.x < width && 0 <= t.y < height && id != 0 && f(t) == id
  }

  ghost predicate NotedLosses(lost: map<(int, int), Overlap>, width: int, height: int, f: Tile -> int,
      swept: seq<Tile>) {
    && (forall key :: key in lost ==> key.0 == 0)
    && (forall id {:trigger OwnedTile(width, height, f, id)} ::
          Entry(lost, 0, id) == Tally(Seqs.Filter(swept, OwnedTile(width, height, f, id)), 0, id))
  }

  /** The losses listed are those of every zone in the swept tiles, in order. */
  ghost predicate ListsLosses(list: seq<Overlap>, width: int, height: int, f: Tile -> int, swept: seq<Tile>) {
    && Sorted(list)
    && (forall o :: o in list <==>
          o.kept == 0 && Tally(Seqs.Filter(swept, OwnedTile(width, height, f, o.discarded)), 0, o.discarded) == Some(o))
  }

  lemma LossMore(lost: map<(int, int), Overlap>, width: int, height: int, f: Tile -> int, swept: seq<Tile>, t: Tile)
    requires NotedLosses(lost, width, height, f, swept)
    ensures if 0 <= t.x < width && 0 <= t.y < height && f(t) != 0
      then NotedLosses(lost[(0, f(t)) := Count(Entry(lost, 0, f(t)), 0, f(t), t).value], width, height, f, swept + [t])
      else NotedLosses(lost, width, height, f, swept + [t])
  {
    forall id ensures Tally(Seqs.Filter(swept + [t], OwnedTile(width, height, f, id)), 0, id)
                   == (if OwnedTile(width, height, f, id)(t) then Count(Entry(lost, 0, id), 0, id, t)
                       else Entry(lost, 0, id)) {
      TallyMore(swept, t, OwnedTile(width, height, f, id), 0, id);
    }
  }

  lemma LossNone(width: int, height: int, f: Tile -> int)
    ensures NotedLosses(map[], width, height, f, [])
  {
  }

  lemma LossesList(list: seq<Overlap>, lost: map<(int, int), Overlap>, width: int, height: int, f: Tile -> int,
      swept: seq<Tile>)
    requires NotedLosses(lost, width, height, f, swept) && Sorted(list)
    requires forall o :: o in list <==> (o.kept, o.discarded) in lost && lost[(o.kept, o.discarded)] == o
    ensures ListsLosses(list, width, height, f, swept)
  {
    forall o: Overlap ensures o in list <==>
      o.kept == 0 && Tally(Seqs.Filter(swept, OwnedTile(width, height, f, o.discarded)), 0, o.discarded) == Some(o) {
      assert Entry(lost, 0, o.discarded)
          == Tally(Seqs.Filter(swept, OwnedTile(width, height, f, o.discarded)), 0, o.discarded);
    }
  }

  lemma LossesKeyed(lost: map<(int, int), Overlap>, width: int, height: int, f: Tile -> int, swept: seq<Tile>)
    requires NotedLosses(lost, width, height, f, swept)
    ensures Keyed(lost)
  {
    forall key | key in lost ensures (lost[key].kept, lost[key].discarded) == key {
      assert Entry(lost, 0, key.1) == Tally(Seqs.Filter(swept, OwnedTile(width, height, f, key.1)), 0, key.1);
    }
  }

  /** What a table holds when the sweep of a rectangle has come to (x, y). */
  function Cleared(f: Tile -> int, minX: int, minY: int, maxX: int, y: int, x: int): Tile -> int {
    (t: Tile) => if minX <= t.x <= maxX && minY <= t.y && (t.y < y || (t.y == y && t.x < x)) then 0 else f(t)
  }

  class Index {
    const canvas: Canvas
    const ordered: seq<Zone>
    const byID: map<int, Zone>

    /** The table is what building the index on `m` would give. */
    ghost predicate IndexOf(m: Map)
      reads canvas.tiles
    {
      && canvas.Valid() && canvas.width == m.width && canvas.height == m.height
      && (forall z :: z in ordered ==> Validate(z, m.width, m.height).None?)
      && (forall j, k :: 0 <= j < k < |ordered| ==> ordered[j].id < ordered[k].id)
      && (forall z :: z in ordered ==> z.id in byID && byID[z.id] == z)
      && canvas.Shows(OwnerOf(LayersOf(m, ordered)))
    }

    constructor (c: Canvas, zs: seq<Zone>, ids: map<int, Zone>)
      ensures canvas == c && ordered == zs && byID == ids
    {
      canvas, ordered, byID := c, zs, ids;
    }

    lemma OwnerHere(m: Map, t: Tile)
      requires IndexOf(m)
      ensures Owner(LayersOf(m, ordered), t) == 0 ==>
        forall z :: z in ordered ==> !(z.Contains(t.x, t.y) && IsMember(m, z.kind, t))
      ensures Owner(LayersOf(m, ordered), t) != 0 ==>
        exists z :: z in ordered && z.id == Owner(LayersOf(m, ordered), t) && z.Contains(t.x, t.y)
            && IsMember(m, z.kind, t)
      ensures Owner(LayersOf(m, ordered), t) != 0 ==>
        forall z :: z in ordered && z.Contains(t.x, t.y) && IsMember(m, z.kind, t) ==>
            Owner(LayersOf(m, ordered), t) <= z.id
    {
      hide Owner, LayersOf, Ascending, IsMember;
      var layers := LayersOf(m, ordered);
      LayersAscend(m, ordered);
      OwnerIsLeast(layers, t);
      forall z | z in ordered ensures LayerOf(m)(z) in layers
        && (LayerOf(m)(z).Covers(t) <==> z.Contains(t.x, t.y) && IsMember(m, z.kind, t)) {
        CoversIsMember(m, z, t);
        var k :| 0 <= k < |ordered| && ordered[k] == z;
        assert layers[k] == LayerOf(m)(z);
      }
      if Owner(layers, t) != 0 {
        var l :| l in layers && l.id == Owner(layers, t) && l.Covers(t);
        var k :| 0 <= k < |layers| && layers[k] == l;
        assert ordered[k] in ordered && LayerOf(m)(ordered[k]) == l;
      }
    }

    /** The tile belongs to the zone, which is the first to claim it. */
    ghost predicate BelongsTo(m: Map, id: int, t: Tile) {
      && (exists z :: z in ordered && z.id == id && z.Contains(t.x, t.y) && IsMember(m, z.kind, t))
      && forall z :: z in ordered && z.Contains(t.x, t.y) && IsMember(m, z.kind, t) ==> id <= z.id
    }

    /** What a zone has in a rectangle. */
    ghost function Within(m: Map, minX: int, minY: int, maxX: int, maxY: int, id: int): set<Tile> {
      set x, y | minX <= x <= maxX && minY <= y <= maxY && BelongsTo(m, id, Tile(x, y)) :: Tile(x, y)
    }

    /** The losses listed are, for every zone with tiles in the rectangle, how many
        they are and where they begin. */
    lemma LossesMean(m: Map, list: seq<Overlap>, minX: int, minY: int, maxX: int, maxY: int, o: Overlap)
      requires IndexOf(m)
      requires ListsLosses(list, m.width, m.height, OwnerOf(LayersOf(m, ordered)), Sweep(minX, minY, maxX, maxY))
      ensures o in list <==> o.kept == 0 && SumsUp(o, Within(m, minX, minY, maxX, maxY, o.discarded))
    {
      hide SumsUp, Tally, Owner, LayersOf, IsMember, Sweep;
      var id := o.discarded;
      var p := OwnedTile(m.width, m.height, OwnerOf(LayersOf(m, ordered)), id);
      TallyMeans(minX, minY, maxX, maxY, p, 0, id, o);
      forall t ensures p(t) <==> BelongsTo(m, id, t) {
        OwnerHere(m, t);
        Positive(m, t);
      }
      assert TilesWhere(minX, minY, maxX, maxY, p) == Within(m, minX, minY, maxX, maxY, id);
    }

    lemma Positive(m: Map, t: Tile)
      requires IndexOf(m)
      ensures forall z :: z in ordered ==> z.id > 0 && (z.Contains(t.x, t.y) ==> m.InBounds(t))
    {
    }

    /** The zone of the least id whose box contains the tile and of which the tile
        is a member; none outside the world. */
    method ZoneAt(ghost m: Map, x: int, y: int) returns (r: Option<Zone>)
      requires IndexOf(m)
      ensures r.Some? ==> r.value in ordered && r.value.Contains(x, y) && IsMember(m, r.value.kind, Tile(x, y))
      ensures r.Some? ==> forall z :: z in ordered && z.Contains(x, y) && IsMember(m, z.kind, Tile(x, y)) ==>
          r.value.id <= z.id
      ensures r.None? ==> forall z :: z in ordered ==> !(z.Contains(x, y) && IsMember(m, z.kind, Tile(x, y)))
    {
      hide Owner, LayersOf, IsMember;
      if x < 0 || y < 0 || x >= canvas.width || y >= canvas.height {
        return None;
      }
      var u := Tile(x, y);
      OwnerHere(m, u);
      canvas.InTable(u);
      var id := canvas.tiles[y * canvas.width + x];
      assert id == canvas.At(u) == OwnerOf(LayersOf(m, ordered))(u);
      r := if id != 0 && id in byID then Some(byID[id]) else None;
    }

    /** One tile of the rectangle to be taken out. */
    method ExcludeTile(ghost f: Tile -> int, minX: int, minY: int, maxX: int, t: Tile,
                       ghost swept: seq<Tile>, lost: map<(int, int), Overlap>)
      returns (after: map<(int, int), Overlap>)
      requires canvas.Valid() && minX <= t.x <= maxX && minY <= t.y
      requires canvas.Shows(Cleared(f, minX, minY, maxX, t.y, t.x))
      requires NotedLosses(lost, canvas.width, canvas.height, f, swept)
      modifies canvas.tiles
      ensures canvas.Shows(Cleared(f, minX, minY, maxX, t.y, t.x + 1))
      ensures NotedLosses(after, canvas.width, canvas.height, f, swept + [t])
    {
      hide NotedLosses;
      after := lost;
      LossMore(lost, canvas.width, canvas.height, f, swept, t);
      if t.x < 0 || t.y < 0 || t.x >= canvas.width || t.y >= canvas.height {
        return;
      }
      var id := canvas.At(t);
      assert id == f(t);
      if id == 0 {
        return;
      }
      canvas.Put(t, 0);
      after := lost[(0, id) := Count(Entry(lost, 0, id), 0, id, t).value];
    }

    method Clear(ghost f: Tile -> int, minX: int, minY: int, maxX: int, maxY: int)
        returns (lost: map<(int, int), Overlap>)
      requires canvas.Valid() && canvas.Shows(f)
      modifies canvas.tiles
      ensures canvas.Shows(t => if InRect(t, minX, minY, maxX, maxY) then 0 else f(t))
      ensures NotedLosses(lost, canvas.width, canvas.height, f, Sweep(minX, minY, maxX, maxY))
    {
      hide NotedLosses;
      lost := map[];
      LossNone(canvas.width, canvas.height, f);
      var y := minY;
      while y <= maxY
        invariant minY <= y && (y <= maxY + 1 || y == minY)
        invariant canvas.Shows(Cleared(f, minX, minY, maxX, y, minX))
        invariant NotedLosses(lost, canvas.width, canvas.height, f, Rows(minX, maxX, minY, y))
      {
        ghost var above := Rows(minX, maxX, minY, y);
        assert above + Row(y, minX, minX) == above;
        var x := minX;
        while x <= maxX
          invariant minX <= x && (x <= maxX + 1 || x == minX)
          invariant canvas.Shows(Cleared(f, minX, minY, maxX, y, x))
          invariant NotedLosses(lost, canvas.width, canvas.height, f, above + Row(y, minX, x))
        {
          lost := ExcludeTile(f, minX, minY, maxX, Tile(x, y), above + Row(y, minX, x), lost);
          assert above + Row(y, minX, x) + [Tile(x, y)] == above + Row(y, minX, x + 1);
          x := x + 1;
        }
        RowDone(y, minX, maxX, x);
        y := y + 1;
      }
      RowsDone(minX, maxX, minY, maxY, y);
    }

    lemma RowDone(y: int, minX: int, maxX: int, x: int)
      requires x > maxX && (x <= maxX + 1 || x == minX)
      ensures Row(y, minX, x) == Row(y, minX, maxX + 1)
    {
    }

    lemma RowsDone(minX: int, maxX: int, minY: int, maxY: int, y: int)
      requires y > maxY && (y <= maxY + 1 || y == minY)
      ensures Rows(minX, maxX, minY, y) == Sweep(minX, minY, maxX, maxY)
    {
    }

    /** Taking a rectangle out leaves the index that would be built with that
        rectangle walled up, and lists what each zone lost to it. */
    method Exclude(ghost m: Map, minX: int, minY: int, maxX: int, maxY: int) returns (lost: seq<Overlap>)
      requires IndexOf(m)
      modifies canvas.tiles
      ensures IndexOf(m.Wall(minX, minY, maxX, maxY))
      ensures ListsLosses(lost, m.width, m.height, OwnerOf(LayersOf(m, ordered)), Sweep(minX, minY, maxX, maxY))
    {
      hide NotedLosses, Owner, LayersOf, Validate;
      ghost var f := OwnerOf(LayersOf(m, ordered));
      var table := Clear(f, minX, minY, maxX, maxY);
      LossesKeyed(table, m.width, m.height, f, Sweep(minX, minY, maxX, maxY));
      lost := SortedOverlaps(table);
      LossesList(lost, table, m.width, m.height, f, Sweep(minX, minY, maxX, maxY));
      forall t: Tile ensures OwnerOf(LayersOf(m.Wall(minX, minY, maxX, maxY), ordered))(t)
                          == (if InRect(t, minX, minY, maxX, maxY) then 0 else f(t)) {
        OwnerAfterWall(m, ordered, minX, minY, maxX, maxY, t);
      }
    }
  }

  // ---------------------------------------------------------------------
  // Building
  // ---------------------------------------------------------------------

  /** Builds the index. Only a world without tiles is an error; everything else
      that is wrong is reported. */
  method BuildIndex(zones: seq<Zone>, m: Map) returns (r: Result<Index, IndexError>, report: Report)
    ensures m.width <= 0 || m.height <= 0 ==> r == Err(BadWorld) && report == Report([], [], [])
    ensures 0 < m.width && 0 < m.height ==>
      var sorted := Seqs.SortBy(zones, ZoneId);
      && r.Ok? && fresh(r.value.canvas.tiles) && r.value.IndexOf(m)
      && r.value.ordered == Accepted(sorted, m.width, m.height)
      && report.rejected == Rejected(sorted, m.width, m.height)
      && Reports(report.overlaps, LayersOf(m, r.value.ordered))
      && report.urban == UrbanOf(LayersOf(m, r.value.ordered))
  {
    hide Seqs.SortBy, Reports, Owner, Noted, Accepted, Rejected, LayersOf, UrbanOf, Validate;
    if m.width <= 0 || m.height <= 0 {
      return Err(BadWorld), Report([], [], []);
    }
    var sorted := Seqs.SortBy(zones, ZoneId);
    Seqs.SortIsSorted(zones, ZoneId);
    var canvas := new Canvas(m.width, m.height);
    var ordered, byID, rejected, urban := PaintZones(canvas, sorted, m);
    AcceptedAscend(sorted, m.width, m.height);
    NotedIsKeyed(canvas.conflicts, LayersOf(m, ordered));
    var overlaps := SortedOverlaps(canvas.conflicts);
    ListingReports(overlaps, canvas.conflicts, LayersOf(m, ordered));
    var index := new Index(canvas, ordered, byID);
    r, report := Ok(index), Report(overlaps, rejected, urban);
  }

  ghost predicate Tabled(zones: seq<Zone>, byID: map<int, Zone>) {
    && (forall z :: z in zones ==> z.id in byID && byID[z.id] == z)
    && (forall id :: id in byID ==> exists z :: z in zones && z.id == id)
  }

  method PaintZones(canvas: Canvas, zones: seq<Zone>, m: Map)
    returns (ordered: seq<Zone>, byID: map<int, Zone>, rejected: seq<Rejection>, urban: seq<Overlap>)
    requires canvas.Valid() && canvas.width == m.width && canvas.height == m.height
    requires canvas.Shows(t => 0) && canvas.conflicts == map[] && Seqs.SortedBy(zones, ZoneId)
    modifies canvas, canvas.tiles
    ensures ordered == Accepted(zones, m.width, m.height) && rejected == Rejected(zones, m.width, m.height)
    ensures Tabled(ordered, byID) && urban == UrbanOf(LayersOf(m, ordered))
    ensures canvas.Shows(OwnerOf(LayersOf(m, ordered)))
    ensures Noted(canvas.conflicts, LayersOf(m, ordered), |LayersOf(m, ordered)|)
  {
    hide Owner, Noted, Accepted, Rejected, UrbanOf, LayersOf, Tabled, Seqs.SortedBy, Validate;
    ordered, byID, rejected, urban := [], map[], [], [];
    Start(canvas, zones, m);
    for k := 0 to |zones|
      invariant ordered == Accepted(zones[..k], m.width, m.height)
      invariant rejected == Rejected(zones[..k], m.width, m.height)
      invariant Tabled(ordered, byID) && urban == UrbanOf(LayersOf(m, ordered))
      invariant canvas.Shows(OwnerOf(LayersOf(m, ordered)))
      invariant Noted(canvas.conflicts, LayersOf(m, ordered), |LayersOf(m, ordered)|)
    {
      var z := zones[k];
      NextZone(zones, k, m, byID);
      var reason := Validate(z, m.width, m.height);
      if reason.Some? {
        rejected := rejected + [Rejection(z.id, reason.value)];
        continue;
      }
      if z.id in byID {
        rejected := rejected + [Rejection(z.id, DuplicateId)];
        continue;
      }
      ZoneFits(zones, k, m);
      ghost var layers := LayersOf(m, ordered);
      var layer := LayerOf(m)(z);
      var built := canvas.PaintNext(layers, layer);
      UrbanMore(layers, layer);
      TabledMore(ordered, byID, z);
      byID := byID[z.id := z];
      ordered := ordered + [z];
      if built.Some? {
        urban := urban + [built.value];
      }
    }
    assert zones[..|zones|] == zones;
  }

  lemma Start(canvas: Canvas, zones: seq<Zone>, m: Map)
    requires canvas.Valid() && canvas.Shows(t => 0) && canvas.conflicts == map[]
    ensures Accepted(zones[..0], m.width, m.height) == [] && Rejected(zones[..0], m.width, m.height) == []
    ensures Tabled([], map[]) && LayersOf(m, []) == [] && UrbanOf([]) == []
    ensures canvas.Shows(OwnerOf([])) && Noted(canvas.conflicts, [], 0)
  {
  }

  /** What one more zone adds to the lists. */
  lemma NextZone(zones: seq<Zone>, k: nat, m: Map, byID: map<int, Zone>)
    requires k < |zones| && Tabled(Accepted(zones[..k], m.width, m.height), byID)
    ensures var before, z := Accepted(zones[..k], m.width, m.height), zones[k];
      var reason := if Validate(z, m.width, m.height).Some? then Validate(z, m.width, m.height)
                    else if z.id in byID then Some(DuplicateId) else None;
      && Accepted(zones[..k + 1], m.width, m.height) == (if reason.None? then before + [z] else before)
      && Rejected(zones[..k + 1], m.width, m.height)
         == Rejected(zones[..k], m.width, m.height) + (if reason.Some? then [Rejection(z.id, reason.value)] else [])
  {
    hide Validate;
    assert zones[..k + 1][..k] == zones[..k];
  }

  lemma ZoneFits(zones: seq<Zone>, k: nat, m: Map)
    requires k < |zones| && Seqs.SortedBy(zones, ZoneId)
    requires Accepted(zones[..k + 1], m.width, m.height) == Accepted(zones[..k], m.width, m.height) + [zones[k]]
    ensures var layers := LayersOf(m, Accepted(zones[..k], m.width, m.height));
      && Ascending(layers + [LayerOf(m)(zones[k])]) && LayerOf(m)(zones[k]).Fits(m.width, m.height)
      && LayersOf(m, Accepted(zones[..k + 1], m.width, m.height)) == layers + [LayerOf(m)(zones[k])]
  {
    hide Accepted, Validate;
    var all := Accepted(zones[..k + 1], m.width, m.height);
    PrefixSorted(zones, k + 1);
    AcceptedAscend(zones[..k + 1], m.width, m.height);
    LayersAscend(m, all);
    var before := Accepted(zones[..k], m.width, m.height);
    assert all[..|all| - 1] == before && all[|all| - 1] == zones[k];
    assert LayersOf(m, all)[|all| - 1] in LayersOf(m, all);
  }

  lemma PrefixSorted(zones: seq<Zone>, n: nat)
    requires n <= |zones| && Seqs.SortedBy(zones, ZoneId)
    ensures Seqs.SortedBy(zones[..n], ZoneId)
  {
  }

  lemma UrbanMore(layers: seq<Layer>, layer: Layer)
    ensures var tally := Tally(Seqs.Filter(Cells(layer), IsBuilt(layer)), 0, layer.id);
      UrbanOf(layers + [layer]) == UrbanOf(layers) + if tally.Some? then [tally.value] else []
  {
    assert (layers + [layer])[..|layers|] == layers;
  }

  lemma TabledMore(zones: seq<Zone>, byID: map<int, Zone>, z: Zone)
    requires Tabled(zones, byID) && z.id !in byID
    ensures Tabled(zones + [z], byID[z.id := z])
  {
  }
}
