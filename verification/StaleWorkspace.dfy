// What the wrap-around of the generation counter can do to the pathfinder: a run of
// queries on one workspace, from its creation on, whose last answer is wrong.

module StaleWorkspace {
  import opened World
  import opened Wrappers
  import Heap
  import opened BestFirst
  import opened GridGraph
  import opened Workspace
  import opened AStar

  const LIMITS := Limits(10, 10)

  /** Three tiles in a row, the middle one blocked: nothing leads anywhere. */
  const BLOCKED := Grid(3, 1, (x, y) => y == 0 && (x == 0 || x == 2), (x, y) => 1, 1)

  const PAIR := Grid(2, 1, (x, y) => y == 0 && 0 <= x < 2, (x, y) => 1, 1)

  const OPEN := Grid(3, 1, (x, y) => y == 0 && 0 <= x < 3, (x, y) => 1, 1)

  lemma NoWayOut(from: Tile, to: Tile)
    requires {from, to} == {Tile(0, 0), Tile(2, 0)}
    ensures Searches(BLOCKED, from, to, LIMITS)
    ensures Searched(BLOCKED, from, to, LIMITS.maxNodes).last.closed == {from.x}
  {
    hide Run, GraphOf;
    var G := GraphOf(BLOCKED, from, to);
    Ends(BLOCKED, from, to);
    assert TileOf(3, from.x) == from;
    forall k | 0 <= k < DIRECTIONS ensures G.next(G.start, k) < 0 {
      MoveInDirection(BLOCKED, from, to, G.start, from, k);
    }
    IsolatedRun(G, LIMITS.maxNodes);
  }

  lemma OpenHasPath()
    ensures Searches(OPEN, Tile(2, 0), Tile(1, 0), LIMITS) && Path(OPEN, Tile(2, 0), Tile(1, 0), LIMITS).Ok?
  {
    hide Path;
    var r := [Tile(2, 0), Tile(1, 0)];
    assert Passable(OPEN, r[0], r[1]);
    assert IsRoute(OPEN, r, Tile(2, 0), Tile(1, 0));
    PathDecidesReachability(OPEN, Tile(2, 0), Tile(1, 0), LIMITS);
  }

  /** The counter has come to `n` in queries of three tiles, the last of which closed
      the third one. */
  ghost predicate Counted(m: Marks, n: nat) {
    if n == 0 then m == EMPTY else
    NoneNewer(m) && m.generation == n && |m.stamp| == 3 && m.stamp[2] == m.closed[2] == n
  }

  /** The counter starts again at `n` under a third entry that was never cleared. */
  ghost predicate LeftOver(m: Marks, n: nat) {
    && m.generation == n && |m.stamp| == |m.closed| == 3 && m.closed[2] == MAX_GENERATION
    && m.stamp[0] <= n && m.stamp[1] <= n && m.closed[0] <= n && m.closed[1] <= n
    && (m.stamp[2] <= n || m.stamp[2] == MAX_GENERATION)
  }

  lemma CountsOn(m: Marks, m': Marks, n: nat)
    requires Counted(m, n) && n < MAX_GENERATION && Query(m, m', 3) && ClosedIn(m') == {2}
    ensures Counted(m', n + 1)
  {
    var start :| Took(m', start);
    assert start in ClosedIn(m');
  }

  lemma CountedStarts(m: Marks, n: nat, size: nat)
    requires Counted(m, n) && n <= MAX_GENERATION
    ensures StartsFresh(m, size)
  {
    ResetFresh(m, size);
  }

  lemma Wraps(m: Marks, m': Marks)
    requires Counted(m, MAX_GENERATION) && Query(m, m', 2)
    ensures LeftOver(m', 1)
  {
  }

  lemma LeftOverStarts(m: Marks, n: nat)
    requires LeftOver(m, n) && n + 1 < MAX_GENERATION
    ensures StartsFresh(m, 3)
  {
  }

  lemma StaysLeftOver(m: Marks, m': Marks, n: nat)
    requires LeftOver(m, n) && n + 1 < MAX_GENERATION && Query(m, m', 3) && ClosedIn(m') == {0}
    ensures LeftOver(m', n + 1)
  {
    assert 2 !in ClosedIn(m');
  }

  lemma ThenTaken(m: Marks)
    requires LeftOver(m, MAX_GENERATION - 1)
    ensures StartTaken(m, 3, 2)
  {
  }

  /** Queries of three tiles until the counter has come to its end. */
  method CountUp(default: Limits, ws: Workspace)
    requires default.maxNodes > 0 && ws.Valid() && ws.AllMarks() == EMPTY
    modifies ws.Repr()
    ensures ws.Valid() && fresh(ws.Repr() - old(ws.Repr())) && Counted(ws.AllMarks(), MAX_GENERATION)
  {
    hide Query, Searches, Searched, Path, StartsFresh, StartTaken, ClosedIn, Answers, Effective;
    hide Heap.Ordered, Marked, Reset, Fresh;
    var left, right := Tile(0, 0), Tile(2, 0);
    NoWayOut(right, left);
    Own(default);
    for n := 0 to MAX_GENERATION
      invariant ws.Valid() && fresh(ws.Repr() - old(ws.Repr())) && Counted(ws.AllMarks(), n)
    {
      hide Counted;
      ghost var before := ws.AllMarks();
      CountedStarts(before, n, 3);
      var r := FindPath(default, ws, BLOCKED, right, left, LIMITS);
      Marked3(before, ws.AllMarks(), right, left, r);
      CountsOn(before, ws.AllMarks(), n);
    }
  }

  /** The query of two tiles in which it wraps. */
  method Wrap(default: Limits, ws: Workspace)
    requires default.maxNodes > 0 && ws.Valid() && Counted(ws.AllMarks(), MAX_GENERATION)
    modifies ws.Repr()
    ensures ws.Valid() && fresh(ws.Repr() - old(ws.Repr())) && LeftOver(ws.AllMarks(), 1)
  {
    hide Query, Searched, Path, StartsFresh, StartTaken, ClosedIn, Effective, Counted, LeftOver;
    ghost var last := ws.AllMarks();
    CountedStarts(last, MAX_GENERATION, 2);
    Own(default);
    var _ := FindPath(default, ws, PAIR, Tile(0, 0), Tile(1, 0), LIMITS);
    Wraps(last, ws.AllMarks());
  }

  /** One query of three tiles that passes by the entry. */
  method PassBy(default: Limits, ws: Workspace, n: nat)
    requires default.maxNodes > 0 && ws.Valid() && LeftOver(ws.AllMarks(), n) && n + 1 < MAX_GENERATION
    modifies ws.Repr()
    ensures ws.Valid() && fresh(ws.Repr() - old(ws.Repr())) && LeftOver(ws.AllMarks(), n + 1)
  {
    hide Query, Searches, Searched, Path, StartsFresh, StartTaken, ClosedIn, Answers, Effective, LeftOver;
    hide Heap.Ordered, Marked, Reset, Fresh;
    var left, right := Tile(0, 0), Tile(2, 0);
    Own(default);
    ghost var before := ws.AllMarks();
    LeftOverStarts(before, n);
    var r := FindPath(default, ws, BLOCKED, left, right, LIMITS);
    Marked3(before, ws.AllMarks(), left, right, r);
    StaysLeftOver(before, ws.AllMarks(), n);
  }

  /** Queries of three tiles until the counter is next to the entry that was left. */
  method CountAgain(default: Limits, ws: Workspace)
    requires default.maxNodes > 0 && ws.Valid() && LeftOver(ws.AllMarks(), 1)
    modifies ws.Repr()
    ensures ws.Valid() && fresh(ws.Repr() - old(ws.Repr())) && LeftOver(ws.AllMarks(), MAX_GENERATION - 1)
  {
    hide LeftOver, Heap.Ordered;
    for n := 1 to MAX_GENERATION - 1
      invariant ws.Valid() && fresh(ws.Repr() - old(ws.Repr())) && LeftOver(ws.AllMarks(), n)
    {
      PassBy(default, ws, n);
    }
  }

  lemma Own(default: Limits)
    ensures Effective(LIMITS, default) == LIMITS
  {
  }

  /** Where nothing leads anywhere, a query closes its start and nothing else. */
  lemma Marked3(m: Marks, m': Marks, from: Tile, to: Tile, r: Result<seq<Tile>, PathError>)
    requires {from, to} == {Tile(0, 0), Tile(2, 0)} && StartsFresh(m, 3)
    requires Answers(m, m', BLOCKED, from, to, LIMITS, r)
    ensures Query(m, m', 3) && ClosedIn(m') == {from.x}
  {
    hide Query, Searches, Searched, Path, StartsFresh, StartTaken, ClosedIn;
    NoWayOut(from, to);
  }

  /** The whole run. The counter comes to its end in queries of three tiles and wraps
      in one of two tiles, which clears two entries out of three. Further queries of
      three tiles count up to the entry that was left. The next one starts there, next
      to its goal, and is answered that there is no path. */
  method Mislead(default: Limits) returns (r: Result<seq<Tile>, PathError>)
    requires default.maxNodes > 0
    ensures Path(OPEN, Tile(2, 0), Tile(1, 0), LIMITS).Ok?
    ensures r == Err(PathNotFound)
  {
    hide Counted, LeftOver, Query, Searches, Searched, Path, StartsFresh, StartTaken, ClosedIn, Effective;
    var ws := new Workspace();
    CountUp(default, ws);
    Wrap(default, ws);
    CountAgain(default, ws);
    ThenTaken(ws.AllMarks());
    OpenHasPath();
    Own(default);
    r := FindPath(default, ws, OPEN, Tile(2, 0), Tile(1, 0), LIMITS);
  }
}
