// Timed polylines: a position is a function of a path and a time.

module Movement {
  import opened World
  import opened Wrappers

  datatype Waypoint = Waypoint(x: int, y: int, tMs: int) {
    function Tile(): Tile {
      World.Tile(x, y)
    }
  }

  type TimedPath = seq<Waypoint>

  datatype MoveError = EmptyPath | BadBase | InvalidOrigin | NotContiguous | NotMonotonic | NotWalkable | CutsCorner

  // ---------------------------------------------------------------------
  // Durations
  // ---------------------------------------------------------------------

  const SQRT2_NUM := 1414214
  const SQRT2_DEN := 1000000

  /** Time to enter a tile, rounded to the nearest millisecond, twice on a diagonal. */
  function StepDurationMs(baseMsPerTile: int, costUnits: int, diagonal: bool): int {
    if costUnits <= 0 then 0 else
    var straight := (baseMsPerTile * costUnits + COST_BASE / 2) / COST_BASE;
    var ms := if diagonal then (straight * SQRT2_NUM + SQRT2_DEN / 2) / SQRT2_DEN else straight;
    if ms < 1 then 1 else ms
  }

  function DurationMs(p: TimedPath): int {
    if |p| == 0 then 0 else p[|p| - 1].tMs
  }

  /** The duration of a step before any rounding. */
  function ExactStepMs(baseMsPerTile: int, costUnits: int, diagonal: bool): real {
    (baseMsPerTile * costUnits) as real / 10.0 * (if diagonal then 1.414214 else 1.0)
  }

  /** A step into a tile with a cost takes time, and its two roundings and the
      minimum of one millisecond move it by at most 5/4 ms. */
  lemma StepAccuracy(baseMsPerTile: int, costUnits: int, diagonal: bool)
    requires baseMsPerTile > 0 && costUnits > 0
    ensures var ms, exact := StepDurationMs(baseMsPerTile, costUnits, diagonal),
        ExactStepMs(baseMsPerTile, costUnits, diagonal);
            ms >= 1 && -1.25 <= ms as real - exact <= 1.25
  {
    var n := baseMsPerTile * costUnits;
    assert n > 0 by {
      assert n >= baseMsPerTile * 1;
    }
    RoundingAccuracy(n, diagonal);
  }

  lemma RoundingAccuracy(n: int, diagonal: bool)
    requires n > 0
    ensures var straight := (n + 5) / 10;
            var ms := if diagonal then (straight * SQRT2_NUM + 500000) / SQRT2_DEN else straight;
            var shown := if ms < 1 then 1 else ms;
            var exact := n as real / 10.0 * (if diagonal then 1.414214 else 1.0);
            -1.25 <= shown as real - exact <= 1.25
  {
    var straight := (n + 5) / 10;
    assert -5 <= 10 * straight - n <= 5;
    if diagonal {
      var ms := (straight * SQRT2_NUM + 500000) / SQRT2_DEN;
      assert -500000 <= SQRT2_DEN * ms - straight * SQRT2_NUM <= 500000;
    }
  }

  /** A step without a cost takes no time. Any other takes the number `straight` of
      milliseconds nearest to the exact one, halves upwards; over a corner the number
      nearest to 1.414214 times as many; and never less than one. */
  lemma StepRounds(baseMsPerTile: int, costUnits: int, straight: int, diagonal: int)
    requires 10 * straight - 5 <= baseMsPerTile * costUnits < 10 * straight + 5
    requires 1000000 * diagonal - 500000 <= 1414214 * straight < 1000000 * diagonal + 500000
    ensures costUnits <= 0 ==> forall d :: StepDurationMs(baseMsPerTile, costUnits, d) == 0
    ensures costUnits > 0 ==>
      && StepDurationMs(baseMsPerTile, costUnits, false) == (if straight < 1 then 1 else straight)
      && StepDurationMs(baseMsPerTile, costUnits, true) == (if diagonal < 1 then 1 else diagonal)
  {
    var n := baseMsPerTile * costUnits;
    assert (n + 5) / 10 == straight;
    assert (straight * 1414214 + 500000) / 1000000 == diagonal;
  }

  // ---------------------------------------------------------------------
  // Building
  // ---------------------------------------------------------------------

  function StepMs(tiles: seq<Tile>, grid: Grid, base: int, i: int): int
    requires 0 < i < |tiles|
  {
    StepDurationMs(base, grid.cost(tiles[i].x, tiles[i].y), IsDiagonalTo(tiles[i - 1], tiles[i]))
  }

  /** When tile `i` is reached. */
  function ReachedAt(tiles: seq<Tile>, grid: Grid, base: int, i: int): int
    requires 0 <= i < |tiles|
  {
    if i == 0 then 0 else ReachedAt(tiles, grid, base, i - 1) + StepMs(tiles, grid, base, i)
  }

  function Waypoints(tiles: seq<Tile>, grid: Grid, base: int): (p: TimedPath)
    ensures |p| == |tiles|
    ensures forall i | 0 <= i < |p| :: p[i] == Waypoint(tiles[i].x, tiles[i].y, ReachedAt(tiles, grid, base, i))
  {
    seq(|tiles|, i requires 0 <= i < |tiles| => Waypoint(tiles[i].x, tiles[i].y, ReachedAt(tiles, grid, base, i)))
  }

  function BuildStepError(tiles: seq<Tile>, grid: Grid, i: int): Option<MoveError>
    requires 0 < i < |tiles|
  {
    if !IsAdjacent(tiles[i - 1], tiles[i]) then Some(NotContiguous)
    else if !grid.Walkable(tiles[i]) then Some(NotWalkable)
    else None
  }

  /** The first error met from step `i` on. */
  function BuildError(tiles: seq<Tile>, grid: Grid, i: int): Option<MoveError>
    requires 0 < i <= |tiles|
    decreases |tiles| - i
  {
    if i == |tiles| then None
    else if BuildStepError(tiles, grid, i).Some? then BuildStepError(tiles, grid, i)
    else BuildError(tiles, grid, i + 1)
  }

  function Built(tiles: seq<Tile>, grid: Grid, base: int): Result<TimedPath, MoveError> {
    if |tiles| == 0 then Err(EmptyPath)
    else if base <= 0 then Err(BadBase)
    else if BuildError(tiles, grid, 1).Some? then Err(BuildError(tiles, grid, 1).value)
    else Ok(Waypoints(tiles, grid, base))
  }

  /** Step `i` leads to a free tile beside the one before it. */
  ghost predicate StepFine(tiles: seq<Tile>, grid: Grid, i: int)
    requires 0 < i < |tiles|
  {
    var a, b := tiles[i - 1], tiles[i];
    -1 <= a.x - b.x <= 1 && -1 <= a.y - b.y <= 1 && a != b && grid.walkable(b.x, b.y)
  }

  /** Step `i` is the first that is not fine, and `kind` says why. */
  ghost predicate StepFails(tiles: seq<Tile>, grid: Grid, i: int, kind: MoveError) {
    && 0 < i < |tiles| && !StepFine(tiles, grid, i) && (forall j | 0 < j < i :: StepFine(tiles, grid, j))
    && kind == (if -1 <= tiles[i - 1].x - tiles[i].x <= 1 && -1 <= tiles[i - 1].y - tiles[i].y <= 1
                   && tiles[i - 1] != tiles[i] then NotWalkable else NotContiguous)
  }

  lemma {:induction false} BuildErrorMeans(tiles: seq<Tile>, grid: Grid, i: int)
    requires 0 < i <= |tiles| && forall j | 0 < j < i :: StepFine(tiles, grid, j)
    ensures BuildError(tiles, grid, i).None? <==> forall j | 0 < j < |tiles| :: StepFine(tiles, grid, j)
    ensures BuildError(tiles, grid, i).Some? ==> exists j :: StepFails(tiles, grid, j, BuildError(tiles, grid, i).value)
    decreases |tiles| - i
  {
    if i < |tiles| {
      if BuildStepError(tiles, grid, i).None? {
        BuildErrorMeans(tiles, grid, i + 1);
      } else {
        assert StepFails(tiles, grid, i, BuildStepError(tiles, grid, i).value);
      }
    }
  }

  /** The polyline keeps the tiles in order; each step starts when the one before
      ends and takes its own time, from zero on. */
  ghost predicate Times(tiles: seq<Tile>, grid: Grid, base: int, p: TimedPath) {
    && |p| == |tiles| && (|p| > 0 ==> p[0].tMs == 0)
    && (forall i | 0 <= i < |p| :: p[i].x == tiles[i].x && p[i].y == tiles[i].y)
    && forall i | 0 < i < |p| ::
         p[i].tMs - p[i - 1].tMs
         == StepDurationMs(base, grid.cost(tiles[i].x, tiles[i].y),
                           tiles[i - 1].x != tiles[i].x && tiles[i - 1].y != tiles[i].y)
  }

  /** What the builder answers: a polyline for a base that is positive and steps that
      are all fine, else the first of what is wrong. */
  ghost predicate Builds(tiles: seq<Tile>, grid: Grid, base: int, r: Result<TimedPath, MoveError>) {
    && (r.Ok? <==> |tiles| > 0 && base > 0 && forall i | 0 < i < |tiles| :: StepFine(tiles, grid, i))
    && (r.Ok? ==> Times(tiles, grid, base, r.value))
    && (r == Err(EmptyPath) <==> |tiles| == 0)
    && (r == Err(BadBase) <==> |tiles| > 0 && base <= 0)
    && (r.Err? && |tiles| > 0 && base > 0 ==> exists i :: StepFails(tiles, grid, i, r.error))
  }

  lemma BuiltMeans(tiles: seq<Tile>, grid: Grid, base: int)
    ensures Builds(tiles, grid, base, Built(tiles, grid, base))
  {
    hide StepDurationMs, StepFine, StepFails;
    if |tiles| > 0 && base > 0 {
      BuildErrorMeans(tiles, grid, 1);
      NoBuildKind(tiles, grid);
      var p := Waypoints(tiles, grid, base);
      forall i | 0 < i < |p|
        ensures p[i].tMs - p[i - 1].tMs
             == StepDurationMs(base, grid.cost(tiles[i].x, tiles[i].y),
                               tiles[i - 1].x != tiles[i].x && tiles[i - 1].y != tiles[i].y)
      {
        assert p[i].tMs == ReachedAt(tiles, grid, base, i - 1) + StepMs(tiles, grid, base, i);
      }
    }
  }

  lemma NoBuildKind(tiles: seq<Tile>, grid: Grid)
    requires |tiles| > 0
    ensures BuildError(tiles, grid, 1) != Some(EmptyPath) && BuildError(tiles, grid, 1) != Some(BadBase)
  {
    BuildErrorMeans(tiles, grid, 1);
    if BuildError(tiles, grid, 1).Some? {
      var i :| StepFails(tiles, grid, i, BuildError(tiles, grid, 1).value);
    }
  }

  method BuildTimedPath(tiles: seq<Tile>, grid: Grid, baseMsPerTile: int) returns (r: Result<TimedPath, MoveError>)
    ensures r == Built(tiles, grid, baseMsPerTile)
  {
    hide StepDurationMs, Waypoints, IsAdjacent, IsDiagonalTo;
    if |tiles| == 0 {
      return Err(EmptyPath);
    }
    if baseMsPerTile <= 0 {
      return Err(BadBase);
    }
    var path := [Waypoint(tiles[0].x, tiles[0].y, 0)];
    var acc := 0;
    for i := 1 to |tiles|
      invariant |path| == i && acc == ReachedAt(tiles, grid, baseMsPerTile, i - 1)
      invariant forall j | 0 <= j < i :: path[j] == Waypoints(tiles, grid, baseMsPerTile)[j]
      invariant BuildError(tiles, grid, 1) == BuildError(tiles, grid, i)
    {
      var prev, cur := tiles[i - 1], tiles[i];
      if !IsAdjacent(prev, cur) {
        return Err(NotContiguous);
      }
      if !grid.walkable(cur.x, cur.y) {
        return Err(NotWalkable);
      }
      var units := grid.cost(cur.x, cur.y);
      acc := acc + StepDurationMs(baseMsPerTile, units, IsDiagonalTo(prev, cur));
      path := path + [Waypoint(cur.x, cur.y, acc)];
      assert path[i] == Waypoints(tiles, grid, baseMsPerTile)[i];
    }
    assert path == Waypoints(tiles, grid, baseMsPerTile);
    return Ok(path);
  }

  lemma {:induction false} BuildErrorNone(tiles: seq<Tile>, grid: Grid, i: int)
    requires 0 < i <= |tiles|
    ensures BuildError(tiles, grid, i).None? <==> forall j | i <= j < |tiles| :: BuildStepError(tiles, grid, j).None?
    decreases |tiles| - i
  {
    if i < |tiles| {
      BuildErrorNone(tiles, grid, i + 1);
    }
  }

  lemma StepTakesTime(base: int, costUnits: int, diagonal: bool)
    ensures StepDurationMs(base, costUnits, diagonal) > 0 <==> costUnits > 0
  {}

  function ExactMs(tiles: seq<Tile>, grid: Grid, base: int, i: int): real
    requires 0 <= i < |tiles|
  {
    if i == 0 then 0.0 else
    ExactMs(tiles, grid, base, i - 1)
    + ExactStepMs(base, grid.cost(tiles[i].x, tiles[i].y), IsDiagonalTo(tiles[i - 1], tiles[i]))
  }

  /** Rounding each step keeps a whole route within 5/4 ms a step of the exact sum. */
  lemma {:induction false} DurationAccuracy(tiles: seq<Tile>, grid: Grid, base: int, i: int)
    requires base > 0 && 0 <= i < |tiles|
    requires forall j | 0 < j < |tiles| :: grid.cost(tiles[j].x, tiles[j].y) > 0
    ensures -1.25 * i as real
         <= ReachedAt(tiles, grid, base, i) as real - ExactMs(tiles, grid, base, i)
         <= 1.25 * i as real
    ensures ReachedAt(tiles, grid, base, i) >= i
  {
    if i > 0 {
      DurationAccuracy(tiles, grid, base, i - 1);
      StepAccuracy(base, grid.cost(tiles[i].x, tiles[i].y), IsDiagonalTo(tiles[i - 1], tiles[i]));
    }
  }

  // ---------------------------------------------------------------------
  // Validating
  // ---------------------------------------------------------------------

  /** The diagonal step into waypoint `i` has a corner that is not walkable. */
  predicate CutsCornerAt(p: TimedPath, grid: Grid, i: int)
    requires 0 < i < |p|
  {
    && p[i - 1].x != p[i].x && p[i - 1].y != p[i].y
    && (!grid.walkable(p[i - 1].x, p[i].y) || !grid.walkable(p[i].x, p[i - 1].y))
  }

  function WaypointError(p: TimedPath, grid: Option<Grid>, i: int): Option<MoveError>
    requires 0 <= i < |p|
  {
    if grid.Some? && !grid.value.walkable(p[i].x, p[i].y) then Some(NotWalkable)
    else if i == 0 then None
    else if p[i].tMs <= p[i - 1].tMs then Some(NotMonotonic)
    else if !IsAdjacent(p[i - 1].Tile(), p[i].Tile()) then Some(NotContiguous)
    else if grid.Some? && CutsCornerAt(p, grid.value, i) then Some(CutsCorner)
    else None
  }

  function FirstError(p: TimedPath, grid: Option<Grid>, i: int): Option<MoveError>
    requires 0 <= i <= |p|
    decreases |p| - i
  {
    if i == |p| then None
    else if WaypointError(p, grid, i).Some? then WaypointError(p, grid, i)
    else FirstError(p, grid, i + 1)
  }

  function Verdict(p: TimedPath, grid: Option<Grid>): Option<MoveError> {
    if |p| == 0 then Some(EmptyPath)
    else if p[0].tMs != 0 then Some(InvalidOrigin)
    else FirstError(p, grid, 0)
  }

  method CheckCorner(p: TimedPath, i: int, grid: Option<Grid>) returns (e: Option<MoveError>)
    requires 0 < i < |p|
    ensures e == if grid.Some? && CutsCornerAt(p, grid.value, i) then Some(CutsCorner) else None
  {
    if grid.None? {
      return None;
    }
    var prev, cur := p[i - 1], p[i];
    if prev.x == cur.x || prev.y == cur.y {
      return None;
    }
    if !grid.value.walkable(prev.x, cur.y) || !grid.value.walkable(cur.x, prev.y) {
      return Some(CutsCorner);
    }
    return None;
  }

  /** Different tiles, at most one apart on either axis. */
  ghost predicate Touch(a: Waypoint, b: Waypoint) {
    -1 <= a.x - b.x <= 1 && -1 <= a.y - b.y <= 1 && (a.x != b.x || a.y != b.y)
  }

  ghost predicate Free(grid: Option<Grid>, x: int, y: int) {
    grid.Some? ==> grid.value.walkable(x, y)
  }

  /** The two tiles beside a diagonal step are free. */
  ghost predicate CornersFree(grid: Option<Grid>, a: Waypoint, b: Waypoint) {
    a.x != b.x && a.y != b.y ==> Free(grid, a.x, b.y) && Free(grid, b.x, a.y)
  }

  /** Waypoint `i` is free, and comes after the one before it in time and beside it
      in space, with no corner cut. */
  ghost predicate Fine(p: TimedPath, grid: Option<Grid>, i: int)
    requires 0 <= i < |p|
  {
    && Free(grid, p[i].x, p[i].y)
    && (i > 0 ==> p[i - 1].tMs < p[i].tMs && Touch(p[i - 1], p[i]) && CornersFree(grid, p[i - 1], p[i]))
  }

  /** What a path has to be. */
  ghost predicate Travels(p: TimedPath, grid: Option<Grid>) {
    |p| > 0 && p[0].tMs == 0 && forall i | 0 <= i < |p| :: Fine(p, grid, i)
  }

  /** `kind` is what fails first at waypoint `i`, and nothing fails before it. */
  ghost predicate FailsFirst(p: TimedPath, grid: Option<Grid>, i: int, kind: MoveError) {
    && 0 <= i < |p| && !Fine(p, grid, i) && (forall j | 0 <= j < i :: Fine(p, grid, j))
    && kind == (if !Free(grid, p[i].x, p[i].y) then NotWalkable
                else if p[i].tMs <= p[i - 1].tMs then NotMonotonic
                else if !Touch(p[i - 1], p[i]) then NotContiguous
                else CutsCorner)
  }

  /** A verdict of no error means exactly a path that travels; any other is the
      first error of all. */
  lemma VerdictMeans(p: TimedPath, grid: Option<Grid>)
    ensures Verdict(p, grid).None? <==> Travels(p, grid)
    ensures Verdict(p, grid) == Some(EmptyPath) <==> |p| == 0
    ensures Verdict(p, grid) == Some(InvalidOrigin) <==> |p| > 0 && p[0].tMs != 0
    ensures Verdict(p, grid).Some? && |p| > 0 && p[0].tMs == 0 ==>
              exists i :: FailsFirst(p, grid, i, Verdict(p, grid).value)
  {
    if |p| > 0 && p[0].tMs == 0 {
      FirstErrorMeans(p, grid, 0);
    }
  }

  lemma {:induction false} FirstErrorMeans(p: TimedPath, grid: Option<Grid>, i: int)
    requires 0 <= i <= |p| && forall j | 0 <= j < i :: Fine(p, grid, j)
    ensures FirstError(p, grid, i).None? <==> forall j | 0 <= j < |p| :: Fine(p, grid, j)
    ensures FirstError(p, grid, i).Some? ==> exists j :: FailsFirst(p, grid, j, FirstError(p, grid, i).value)
    decreases |p| - i
  {
    hide Fine, FailsFirst, WaypointError;
    if i < |p| {
      WaypointMeans(p, grid, i);
      if WaypointError(p, grid, i).None? {
        FirstErrorMeans(p, grid, i + 1);
      } else {
        assert FailsFirst(p, grid, i, WaypointError(p, grid, i).value);
      }
    }
  }

  lemma WaypointMeans(p: TimedPath, grid: Option<Grid>, i: int)
    requires 0 <= i < |p| && forall j | 0 <= j < i :: Fine(p, grid, j)
    ensures WaypointError(p, grid, i).None? <==> Fine(p, grid, i)
    ensures WaypointError(p, grid, i).Some? ==> FailsFirst(p, grid, i, WaypointError(p, grid, i).value)
  {
  }

  method Validate(p: TimedPath, grid: Option<Grid>) returns (e: Option<MoveError>)
    ensures e.None? <==> Travels(p, grid)
    ensures e == Some(EmptyPath) <==> |p| == 0
    ensures e == Some(InvalidOrigin) <==> |p| > 0 && p[0].tMs != 0
    ensures e.Some? && |p| > 0 && p[0].tMs == 0 ==> exists i :: FailsFirst(p, grid, i, e.value)
    ensures e == Verdict(p, grid)
  {
    VerdictMeans(p, grid);
    hide Travels, FailsFirst;
    if |p| == 0 {
      return Some(EmptyPath);
    }
    if p[0].tMs != 0 {
      return Some(InvalidOrigin);
    }
    for i := 0 to |p|
      invariant FirstError(p, grid, 0) == FirstError(p, grid, i)
    {
      if grid.Some? && !grid.value.walkable(p[i].x, p[i].y) {
        return Some(NotWalkable);
      }
      if i == 0 {
        continue;
      }
      if p[i].tMs <= p[i - 1].tMs {
        return Some(NotMonotonic);
      }
      if !IsAdjacent(p[i - 1].Tile(), p[i].Tile()) {
        return Some(NotContiguous);
      }
      e := CheckCorner(p, i, grid);
      if e.Some? {
        return;
      }
    }
    return None;
  }

  /** What may have changed about waypoint `i` of a path checked from `from` on. */
  function RemainingErrorAt(p: TimedPath, from: int, grid: Grid, i: int): Option<MoveError>
    requires 0 <= i < |p|
  {
    if !grid.walkable(p[i].x, p[i].y) then Some(NotWalkable)
    else if i > from && i > 0 && CutsCornerAt(p, grid, i) then Some(CutsCorner)
    else None
  }

  function RemainingError(p: TimedPath, from: int, grid: Grid, i: int): Option<MoveError>
    requires 0 <= i
    decreases |p| - i
  {
    if i >= |p| then None
    else if RemainingErrorAt(p, from, grid, i).Some? then RemainingErrorAt(p, from, grid, i)
    else RemainingError(p, from, grid, i + 1)
  }

  function VerdictFrom(p: TimedPath, from: int, grid: Grid): Option<MoveError> {
    var start := if from < 0 then 0 else from;
    RemainingError(p, start, grid, start)
  }

  /** Waypoint `i` is still free, and so are the corners of the step into it, if that
      step is still to come. */
  ghost predicate StillFine(p: TimedPath, start: int, grid: Grid, i: int)
    requires 0 <= start <= i < |p|
  {
    grid.walkable(p[i].x, p[i].y) && (i > start ==> CornersFree(Some(grid), p[i - 1], p[i]))
  }

  ghost predicate FailsFrom(p: TimedPath, start: int, grid: Grid, i: int, kind: MoveError) {
    && 0 <= start <= i < |p| && !StillFine(p, start, grid, i)
    && (forall j | start <= j < i :: StillFine(p, start, grid, j))
    && kind == if grid.walkable(p[i].x, p[i].y) then CutsCorner else NotWalkable
  }

  lemma {:induction false} RemainingErrorMeans(p: TimedPath, start: int, grid: Grid, i: int)
    requires 0 <= start <= i && forall j | start <= j < i && j < |p| :: StillFine(p, start, grid, j)
    ensures RemainingError(p, start, grid, i).None? <==> forall j | start <= j < |p| :: StillFine(p, start, grid, j)
    ensures RemainingError(p, start, grid, i).Some? ==>
              exists j :: FailsFrom(p, start, grid, j, RemainingError(p, start, grid, i).value)
    decreases |p| - i
  {
    if i < |p| {
      if RemainingErrorAt(p, start, grid, i).None? {
        RemainingErrorMeans(p, start, grid, i + 1);
      } else {
        assert FailsFrom(p, start, grid, i, RemainingErrorAt(p, start, grid, i).value);
      }
    }
  }

  method ValidateFrom(p: TimedPath, from: int, grid: Grid) returns (e: Option<MoveError>)
    ensures e == VerdictFrom(p, from, grid)
    ensures var start := if from < 0 then 0 else from;
      && (e.None? <==> forall i | start <= i < |p| :: StillFine(p, start, grid, i))
      && (e.Some? ==> exists i :: FailsFrom(p, start, grid, i, e.value))
  {
    RemainingErrorMeans(p, if from < 0 then 0 else from, grid, if from < 0 then 0 else from);
    hide StillFine, FailsFrom;
    var start := from;
    if start < 0 {
      start := 0;
    }
    var i := start;
    while i < |p|
      invariant start <= i
      invariant VerdictFrom(p, from, grid) == RemainingError(p, start, grid, i)
    {
      if !grid.walkable(p[i].x, p[i].y) {
        return Some(NotWalkable);
      }
      if i != start {
        e := CheckCorner(p, i, Some(grid));
        if e.Some? {
          return;
        }
      }
      i := i + 1;
    }
    return None;
  }

  lemma {:induction false} FirstErrorNone(p: TimedPath, grid: Option<Grid>, i: int)
    requires 0 <= i <= |p|
    ensures FirstError(p, grid, i).None? <==> forall j | i <= j < |p| :: WaypointError(p, grid, j).None?
    decreases |p| - i
  {
    if i < |p| {
      FirstErrorNone(p, grid, i + 1);
    }
  }

  lemma {:induction false} RemainingErrorNone(p: TimedPath, from: int, grid: Grid, i: int)
    requires 0 <= i
    ensures RemainingError(p, from, grid, i).None? <==> forall j | i <= j < |p| ::
        RemainingErrorAt(p, from, grid, j).None?
    decreases |p| - i
  {
    if i < |p| {
      RemainingErrorNone(p, from, grid, i + 1);
    }
  }

  // ---------------------------------------------------------------------
  // Position at a time
  // ---------------------------------------------------------------------

  ghost predicate Increasing(p: TimedPath) {
    |p| > 0 && p[0].tMs == 0 && forall i, j | 0 <= i < j < |p| :: p[i].tMs < p[j].tMs
  }

  /** The last of the first `n + 1` waypoints that `elapsed` has reached, at least the origin. */
  ghost function Reached(p: TimedPath, elapsed: real, n: int): (k: int)
    requires 0 <= n < |p|
    ensures 0 <= k <= n && (k > 0 ==> p[k].tMs as real <= elapsed)
    ensures forall j | k < j <= n :: p[j].tMs as real > elapsed
  {
    if n == 0 || p[n].tMs as real <= elapsed then n else Reached(p, elapsed, n - 1)
  }

  /** The index of a path at a time, -1 if it is empty. */
  ghost function Index(p: TimedPath, elapsed: real): int {
    if |p| == 0 then -1 else Reached(p, elapsed, |p| - 1)
  }

  ghost function Position(p: TimedPath, elapsed: real): Tile {
    if |p| == 0 then Tile(0, 0) else p[Index(p, elapsed)].Tile()
  }

  method IndexAt(p: TimedPath, elapsedMs: int) returns (k: int)
    ensures |p| == 0 ==> k == -1
    ensures |p| > 0 ==> 0 <= k < |p|
    ensures Increasing(p) ==> k == Index(p, elapsedMs as real)
  {
    if |p| == 0 {
      return -1;
    }
    if elapsedMs <= 0 {
      return 0;
    }
    if elapsedMs >= p[|p| - 1].tMs {
      return |p| - 1;
    }
    var lo, hi := 0, |p| - 1;
    while lo < hi
      invariant 0 <= lo <= hi < |p|
      invariant Increasing(p) ==> p[lo].tMs <= elapsedMs && forall j | hi < j < |p| :: elapsedMs < p[j].tMs
    {
      var mid := (lo + hi + 1) / 2;
      if p[mid].tMs <= elapsedMs {
        lo := mid;
      } else {
        hi := mid - 1;
      }
    }
    return lo;
  }

  method PositionAt(p: TimedPath, elapsedMs: int) returns (t: Tile)
    ensures |p| == 0 ==> t == Tile(0, 0)
    ensures Increasing(p) ==> t == Position(p, elapsedMs as real)
  {
    if |p| == 0 {
      return Tile(0, 0);
    }
    if elapsedMs <= 0 {
      return p[0].Tile();
    }
    if elapsedMs >= p[|p| - 1].tMs {
      return p[|p| - 1].Tile();
    }
    var lo, hi := 0, |p| - 1;
    while lo < hi
      invariant 0 <= lo <= hi < |p|
      invariant Increasing(p) ==> p[lo].tMs <= elapsedMs && forall j | hi < j < |p| :: elapsedMs < p[j].tMs
    {
      var mid := (lo + hi + 1) / 2;
      if p[mid].tMs <= elapsedMs {
        lo := mid;
      } else {
        hi := mid - 1;
      }
    }
    return p[lo].Tile();
  }

  /** The client's copy, which is also asked about fractions of a millisecond. */
  method WaypointIndexAt(p: TimedPath, elapsedMs: real) returns (k: int)
    ensures |p| == 0 ==> k == -1
    ensures |p| > 0 ==> 0 <= k < |p|
    ensures Increasing(p) ==> k == Index(p, elapsedMs)
  {
    if |p| == 0 {
      return -1;
    }
    if elapsedMs <= 0.0 {
      return 0;
    }
    if elapsedMs >= p[|p| - 1].tMs as real {
      return |p| - 1;
    }
    var lo, hi := 0, |p| - 1;
    while lo < hi
      invariant 0 <= lo <= hi < |p|
      invariant Increasing(p) ==>
        p[lo].tMs as real <= elapsedMs && forall j | hi < j < |p| :: elapsedMs < p[j].tMs as real
    {
      var mid := (lo + hi + 1) / 2;
      if p[mid].tMs as real <= elapsedMs {
        lo := mid;
      } else {
        hi := mid - 1;
      }
    }
    return lo;
  }

  method AuthoritativePosition(p: TimedPath, startTimeMs: real, serverTimeMs: real) returns (t: Tile)
    ensures |p| == 0 ==> t == Tile(0, 0)
    ensures Increasing(p) ==> t == Position(p, serverTimeMs - startTimeMs)
  {
    if |p| == 0 {
      return Tile(0, 0);
    }
    var elapsed := serverTimeMs - startTimeMs;
    if elapsed <= 0.0 {
      return p[0].Tile();
    }
    if elapsed >= p[|p| - 1].tMs as real {
      return p[|p| - 1].Tile();
    }
    var index := WaypointIndexAt(p, elapsed);
    return p[index].Tile();
  }

  /** The index never goes back as time passes. */
  lemma IndexMonotone(p: TimedPath, a: real, b: real)
    requires Increasing(p) && a <= b
    ensures Index(p, a) <= Index(p, b)
  {}

  lemma IndexAtReached(p: TimedPath, k: int)
    requires Increasing(p) && 0 <= k < |p|
    ensures Index(p, p[k].tMs as real) == k
  {}

  // ---------------------------------------------------------------------
  // Movements
  // ---------------------------------------------------------------------

  datatype Movement = Movement(path: TimedPath, startTimeMs: int, arrivalTimeMs: int) {
    predicate HasArrived(nowMs: int) {
      nowMs >= arrivalTimeMs
    }

    function RemainingMs(nowMs: int): int {
      if arrivalTimeMs - nowMs > 0 then arrivalTimeMs - nowMs else 0
    }
  }

  function New(path: TimedPath, startTimeMs: int): Movement {
    Movement(path, startTimeMs, startTimeMs + DurationMs(path))
  }

  /** A unit has arrived exactly when no time remains, which is when it stands on
      the last waypoint; where that is also the first, from the start on. */
  lemma ArrivedAtTheEnd(path: TimedPath, startTimeMs: int, nowMs: int)
    requires |path| == 0 || Increasing(path)
    ensures var m := New(path, startTimeMs);
            && (m.HasArrived(nowMs) <==> m.RemainingMs(nowMs) == 0)
            && (|path| <= 1 ==> (m.HasArrived(nowMs) <==> nowMs >= startTimeMs))
            && (|path| > 1 ==> (m.HasArrived(nowMs) <==> Index(path, (nowMs - startTimeMs) as real) == |path| - 1))
  {
    if |path| > 0 {
      var k := Index(path, (nowMs - startTimeMs) as real);
      assert k < |path| - 1 ==> path[|path| - 1].tMs as real > (nowMs - startTimeMs) as real;
    }
  }

  /** A path without errors has strictly increasing times from zero. */
  lemma {:induction false} ValidIsIncreasing(p: TimedPath, grid: Option<Grid>)
    requires Verdict(p, grid).None?
    ensures Increasing(p)
  {
    FirstErrorNone(p, grid, 0);
    forall i, j | 0 <= i < j < |p| ensures p[i].tMs < p[j].tMs {
      TimesGrow(p, grid, i, j);
    }
  }

  lemma {:induction false} TimesGrow(p: TimedPath, grid: Option<Grid>, i: int, j: int)
    requires 0 <= i < j < |p| && forall k | 0 <= k < |p| :: WaypointError(p, grid, k).None?
    ensures p[i].tMs < p[j].tMs
    decreases j
  {
    assert WaypointError(p, grid, j).None?;
    if i < j - 1 {
      TimesGrow(p, grid, i, j - 1);
    }
  }

  /** When the world changes under a movement, the re-check of what remains passes
      exactly when every tile the unit occupies from now on is walkable and no
      step still to come cuts a corner. */
  lemma RecheckIsExact(p: TimedPath, now: real, grid: Grid)
    requires Increasing(p)
    ensures VerdictFrom(p, Index(p, now), grid).None? <==>
            && (forall t: real | now <= t :: grid.Walkable(Position(p, t)))
            && (forall i | Index(p, now) < i < |p| :: !CutsCornerAt(p, grid, i))
  {
    var from := Index(p, now);
    RemainingErrorNone(p, from, grid, from);
    if VerdictFrom(p, from, grid).None? {
      forall t: real | now <= t ensures grid.Walkable(Position(p, t)) {
        IndexMonotone(p, now, t);
        assert RemainingErrorAt(p, from, grid, Index(p, t)).None?;
      }
      forall i | from < i < |p| ensures !CutsCornerAt(p, grid, i) {
        assert RemainingErrorAt(p, from, grid, i).None?;
      }
    }
    if (forall t: real | now <= t :: grid.Walkable(Position(p, t)))
       && (forall i | from < i < |p| :: !CutsCornerAt(p, grid, i)) {
      forall j | from <= j < |p| ensures RemainingErrorAt(p, from, grid, j).None? {
        var t := if j == from then now else p[j].tMs as real;
        IndexAtReached(p, j);
        assert grid.Walkable(Position(p, t));
      }
    }
  }
}
