# Empires Online: the authoritative core, verified

A model in Dafny of the deterministic core of the game server of Empires Online,
of the rate limiter of its web server and of the client's copy of the position
function, with proofs of what the code and its documentation promise. Integer
code is modelled on unbounded integers, code that changes state is imperative
here too, and every method is proved against a specification about which the
lemmas speak. `dafny verify dfyconfig.toml` checks all of it.

| file | what it models |
|---|---|
| `World.dfy`, `Wrappers.dfy`, `Seqs.dfy` | tiles, terrain, grids and maps; results; folds and sorting |
| `Heap.dfy`, `Workspace.dfy`, `BestFirst.dfy`, `GridGraph.dfy`, `AStar.dfy`, `StaleWorkspace.dfy` | the pathfinder: its heap, its recycled arrays, the search it refines, the grid as a graph, and what a stale array does to it |
| `Movement.dfy`, `Journey.dfy` | timed polylines, and pathfinding, timing and re-checking taken together |
| `QueueProtocol.dfy`, `QueueInvariant.dfy`, `QueueProgress.dfy`, `PersistenceQueue.dfy` | the partitioned persistence queue as a protocol of threads, its invariant, its progress, and its methods |
| `Founding.dfy`, `WoodRoads.dfy` | choosing a site for a city, and what a founded city keeps |
| `EventLog.dfy`, `EventLogPaging.dfy` | classifying, grouping and paging the event log |
| `LoadCheck.dfy`, `LoadChecker.dfy`, `LoadCheckRepairs.dfy`, `LoadCheckFixpoint.dfy` | the check of the durable state at start-up: specification, passes, what becomes of each row, fixpoint |
| `Raster.dfy`, `Territory.dfy`, `TerritorySet.dfy`, `SafeZone.dfy` | the dense indexes of territories and safe zones |
| `Loop.dfy` | the schedule of the game loop and the numbers of its ticks across crashes |
| `RateLimit.dfy` | both token buckets, and the table of keys of the web server |
| `Idempotency.dfy` | commands by request id over interleaved connections |
| `Hub.dfy` | the subscription index |
| `Task.dfy`, `Deposit.dfy`, `Gathering.dfy` | gathering tasks, tile deposits, and both over whole runs |

Calls into parts that are not modelled are parameters: the grid that the
pathfinder takes is any record of functions, the hash that spreads keys over the
partitions is any function into them, the outcome of a write attempt, the
readings of the clock and the firing of timers are given as sequences, and how a
text id of an owner is read is a function of the input.

## Where the code and its intentions part

Each of these is a lemma, with the exact condition where there is one.

- The wrap-around of the workspace generation is described as a full clearing
  (`astar.go:232`), but it clears only the entries in use. On one grid size, or
  sizes that never shrink, this is harmless (`AlwaysFresh`, `AnswerAll`). A reset
  leaves stamps newer than the counter exactly where `ResetNoneNewer` says, and
  later queries are sure to start fresh exactly where there are none
  (`StaysFreshIff`). Two sizes are enough to get there from a new workspace
  (`WrapLeavesStale`), and then a query whose own start counts as closed is
  answered that there is no path, whatever the grid (`FindPath`). `Mislead` is such
  a run of the pathfinder, query by query, up to the wrong answer.
- The builder of timed paths checks less than the validator: it accepts a cut
  corner, an unwalkable origin and a step without a cost
  (`BuiltIsValidIffClean`). Paths from the pathfinder have none of these.
- The search for a site is meant to cover the whole world if need be
  (`site.go:72-73`). It samples the rings beyond the seventh (`SampledIff`), so it
  fails if and only if no sampled tile is acceptable (`FindSite`), and can miss the
  only place there is (`OnlySiteFoundIff`), from some seed wherever the world
  reaches eight tiles from it (`SomeSeedMissesIff`).
- A city with more than eight initial villagers would never find a site, since
  only the eight tiles of the ring are tried (`RoomForEight`).
- The check at start-up promises its repair lists in order of id
  (`loadcheck.go:97`). The unit repairs come from two passes and can be out of
  order (`UnitRepairsInOrder`, `UnitRepairsOutOfOrder`).
- That check counts conquered territories before it frees those of players who
  do not exist. One pass is a fixpoint exactly when no city was counted
  territories for such a player, which the foreign key of the owner guarantees
  (`SecondRunFindsNothing`, `OwnedCitiesSettle`, `OrphanCityNeedsTwoRuns`).
- The start-up configuration requires ticks of whole milliseconds. For tick
  numbers never to repeat it is enough that a tick lasts at least one; below
  that the derived tick is always zero (`NoTickTwice`, `ShortPeriodRepeats`).
- The web limiter assumes that a forgotten key has recovered its bucket
  (`rateLimit.ts:24-27`, `rateLimit.ts:54-55`). Forgetting is harmless exactly when
  that is so (`ForgettingIsHarmlessIff`), which holds where keys come no faster than
  some other bucket lets them (`PacedForgettingIsHarmless`) and not in general
  (`ForgettingBreaksTheBoundIff`). The names of users do come behind a global bucket,
  but by a second reading of the clock, after the body has been read; the keys of
  sessions are charged before the global bucket is asked.
- The refill of a bucket follows the clock forward only. The bound by the length of
  a window holds where the clock does not go back in it; in general the bound is by
  its moves forward (`ForwardBound`, `ForwardIsSpan`, `ClockBackRefillsTwice`).
- A subscription does not check that its session is registered. The index holds
  registered sessions only for as long as no other one subscribes (`Subscribe`).
- A claim on the store of request ids is two commands, set-if-absent and read.
  A reservation released in between is taken for one never made, and the same
  request can then run twice (`ReleaseWhileLooking`, `CarelessTwice`). With claims as
  good as atomic it cannot (`AtMostOnce`).

## Model

| member | source | states |
|---|---|---|
| World.CostsMean | services/game-server/internal/game/world/tile.go:57-104 | exactly the terrains that can be walked on cost something: forest 1.6, a hill 1.8 and a road 0.6 times as much as grassland, the road the least |
| Heap.RootIsLeast | services/game-server/internal/pathfinding/astar.go:292-307 | in an ordered heap no entry precedes the root in (f, h, y, x) |
| Heap.LessMeans | services/game-server/internal/pathfinding/astar.go:292-307 | the order of two nodes is that of their numbers f, h, y and x, the first to differ deciding |
| Heap.SiftUpStep | services/game-server/internal/pathfinding/astar.go:311-322 | swapping an entry with a greater parent moves the only possible disorder up to the parent |
| Heap.SiftDownStep | services/game-server/internal/pathfinding/astar.go:324-348 | swapping an entry with its least child moves the only possible disorder down to that child |
| Heap.NodeHeap.Push | services/game-server/internal/pathfinding/astar.go:311-322 | the heap stays ordered and holds exactly one entry more, the new one |
| Heap.NodeHeap.Pop | services/game-server/internal/pathfinding/astar.go:324-348 | removes exactly the root, which is a least entry, and leaves the rest ordered |
| Workspace.ResetFresh | services/game-server/internal/pathfinding/astar.go:218-240 | after a reset nothing in the part in use counts as visited or closed, if no stamp was newer than the generation |
| Workspace.ResetNoneNewer | services/game-server/internal/pathfinding/astar.go:234-238 | a reset leaves no newer stamp if and only if the counter does not wrap under a larger array with live stamps beyond the part it clears |
| Workspace.AnsweredWithin | services/game-server/internal/pathfinding/astar.go:205-240 | a query, or one that fails before it searches, starts fresh and leaves the marks so that the next one can |
| Workspace.AlwaysFresh | services/game-server/internal/pathfinding/astar.go:205-240 | every query of a recycled workspace starts fresh: on a fixed grid size, or sizes that grow, however many queries and wraps came before, and on any sizes until the first wrap |
| Workspace.StaysFreshIff | services/game-server/internal/pathfinding/astar.go:231-238 | for arrays of two tiles or more, later queries are sure to start fresh if and only if no stamp is newer than the generation: every newer one comes back as visited in some run of queries that each visit and close their start |
| Workspace.WrapLeavesStale | services/game-server/internal/pathfinding/astar.go:231-238 | from a new workspace, queries of three tiles up to the end of the counter, one of two tiles that wraps it, and queries of three tiles again come to a query that starts with a tile already visited |
| Workspace.Workspace.ResetFor | services/game-server/internal/pathfinding/astar.go:218-240 | the arrays become the reset marks with an empty open list, and stand for an empty search where nothing is marked |
| Workspace.Workspace.ClearMarks | services/game-server/internal/pathfinding/astar.go:234-238 | clears exactly the first entries of both stamp arrays |
| Workspace.Workspace.SetG | services/game-server/internal/pathfinding/astar.go:242-245 | the tile gets its cost, and the rest of the search stays |
| Workspace.Workspace.Discover | services/game-server/internal/pathfinding/astar.go:156-162 | the tile gets its cost and its parent, and its node enters the open list |
| Workspace.Workspace.GIfSet | services/game-server/internal/pathfinding/astar.go:249-254 | answers a cost exactly for the tiles discovered in this query |
| Workspace.Workspace.Close | services/game-server/internal/pathfinding/astar.go:258-260 | the tile joins the closed set of this query |
| Workspace.Workspace.IsClosed | services/game-server/internal/pathfinding/astar.go:258-260 | tells whether the tile is closed in this query |
| GridGraph.HeuristicConsistent | services/game-server/internal/pathfinding/astar.go:175-184 | the octile estimate never drops by more than the cost of a step, is never negative and is zero at the goal, where every cost is at least the declared minimum |
| GridGraph.StepCostMeans | services/game-server/internal/pathfinding/astar.go:147-153 | an edge costs 1000 and a corner 1414 times the cost of the tile entered |
| GridGraph.EstimateMeans | services/game-server/internal/pathfinding/astar.go:171-184 | over open ground the estimate is exactly what the cheapest route costs |
| GridGraph.MoveInDirection | services/game-server/internal/pathfinding/astar.go:128-165 | the k-th neighbour is a move of the graph exactly when the unit may step there, at the cost and estimate of the code |
| GridGraph.RouteIsPath | services/game-server/internal/pathfinding/astar.go:124-165 | every route over the grid is a path of the graph that is searched |
| GridGraph.PathIsRoute | services/game-server/internal/pathfinding/astar.go:124-165 | every path of the graph is a route: walkable, 8-adjacent, no cut corners, at the same cost |
| BestFirst.TreeExpand | services/game-server/internal/pathfinding/astar.go:122-165 | looking at the neighbours of a closed tile keeps the search tree: parents discovered, costs exact |
| BestFirst.RelaxMeans | services/game-server/internal/pathfinding/astar.go:122-165 | looking at one neighbour changes its cost and parent alone, and only if it is open and new or comes out strictly cheaper; its node then enters the open list |
| BestFirst.PathClosed | services/game-server/internal/pathfinding/astar.go:98-168 | once nothing is open, every path from the start stays inside the closed set |
| BestFirst.FrontierBound | services/game-server/internal/pathfinding/astar.go:98-168 | while the goal is not closed, the least open estimate bounds the cost of every path to it from below |
| BestFirst.ClosePopTight | services/game-server/internal/pathfinding/astar.go:108-112 | closing the least node keeps the closed costs least, so that a closed tile never needs to be reopened |
| BestFirst.TraceStep | services/game-server/internal/pathfinding/astar.go:266-279 | along the parents from a discovered tile costs strictly drop, so the walk back to the start ends, with a path of that cost |
| BestFirst.StartIsClosed | services/game-server/internal/pathfinding/astar.go:93-113 | every search visits and closes its start |
| BestFirst.RunSound | services/game-server/internal/pathfinding/astar.go:98-168 | whatever the limit, a run ends with a sound tree: found means reached, exhausted means no path at all, over the limit means that many tiles were closed |
| BestFirst.RunOptimal | services/game-server/internal/pathfinding/astar.go:98-168 | with a consistent estimate the cost of the path found is least among all paths to the goal |
| BestFirst.LimitMeans | services/game-server/internal/pathfinding/astar.go:116-119 | a limit stops a search exactly if it expands more tiles than that, and does not change it otherwise |
| AStar.Visit | services/game-server/internal/pathfinding/astar.go:124-165 | one neighbour is relaxed as the naive search relaxes it: skipped at the edge, when closed, unwalkable, cutting a corner, free of cost or no better |
| AStar.StepInto | services/game-server/internal/pathfinding/astar.go:133-154 | answers the cost of a step exactly when the step is allowed |
| AStar.ExpandTile | services/game-server/internal/pathfinding/astar.go:122-165 | looks at all eight neighbours, in the fixed order |
| AStar.LeastIsUnique | services/game-server/internal/pathfinding/astar.go:292-307 | the order is total on the nodes of a search, so the heap and a scan for the minimum take the same node |
| AStar.Reconstruct | services/game-server/internal/pathfinding/astar.go:266-279 | returns the tiles from start to goal along the parents, in order |
| AStar.Turn | services/game-server/internal/pathfinding/astar.go:108-165 | one turn: stale node dropped, goal or limit stops, or a tile is closed once and expanded; the naive search makes the same turn |
| AStar.Explore | services/game-server/internal/pathfinding/astar.go:98-168 | the heap search over the workspace stops as, and where, the naive search does |
| AStar.FindPath | services/game-server/internal/pathfinding/astar.go:51-169 | where nothing counts as visited, the answer is the function Path of grid, endpoints and limits only, errors included, and the marks stand for the search of Path; where its own start counts as closed, the answer is that there is no path, whatever the grid |
| AStar.EndpointsDecide | services/game-server/internal/pathfinding/astar.go:62-78 | which error the endpoints give, in order: one of them outside, a start and then a goal nobody can stand on, more than the distance apart on either axis; every path that is found is within the distance |
| AStar.LimitsMean | services/game-server/internal/pathfinding/astar.go:30-60 | a query has its own limits where they are positive, else the configured ones, else 50000 tiles and a distance of 256 |
| AStar.LimitDecides | services/game-server/internal/pathfinding/astar.go:116-119 | the limit of a query never changes a path: the answer is the one without it, or too long exactly if that one expands more tiles |
| StaleWorkspace.Mislead | services/game-server/internal/pathfinding/astar.go:51-169 | a whole run of the pathfinder on one workspace, from its creation on, wraps the counter on a smaller grid and ends with the answer that there is no path between two neighbouring free tiles |
| AStar.AnswerAll | services/game-server/internal/pathfinding/astar.go:197-240 | one recycled workspace answers a whole sequence of queries, each as Path says: on one grid size, on sizes that never shrink, or on any sizes until the counter wraps |
| AStar.FoundIsRoute | services/game-server/internal/pathfinding/astar.go:51-169 | a returned path is a route from one endpoint to the other |
| AStar.NotFoundMeansNoRoute | services/game-server/internal/pathfinding/astar.go:168-168 | not found means that no route exists, whatever the costs and limits |
| AStar.FoundIsOptimal | services/game-server/internal/pathfinding/astar.go:51-169 | no route costs less than the returned one, where the grid keeps its promise of a least cost |
| AStar.OverLimitMeansSmallLimit | services/game-server/internal/pathfinding/astar.go:117-119 | the limit is only met if it is below the number of tiles of the grid: each is expanded at most once |
| AStar.PathDecidesReachability | services/game-server/internal/pathfinding/astar.go:51-169 | with room for the whole grid a path is returned if and only if the endpoints pass the checks and some route joins them |
| Movement.StepAccuracy | services/game-server/internal/domain/movement/path.go:145-158 | a step with a cost takes at least 1 ms and is within 5/4 ms of its exact duration |
| Movement.StepRounds | services/game-server/internal/domain/movement/path.go:141-158 | a step takes the nearest whole number of milliseconds, halves upwards, over a corner that of 1.414214 times as many, and at least one; without a cost none |
| Movement.DurationAccuracy | services/game-server/internal/domain/movement/path.go:145-189 | the duration of a route is within 5/4 ms a step of the exact sum |
| Movement.BuildTimedPath | services/game-server/internal/domain/movement/path.go:164-189 | the polyline with accumulated times, or the first error in order |
| Movement.BuiltMeans | services/game-server/internal/domain/movement/path.go:160-189 | the builder accepts a route if and only if it is not empty and every step is to a walkable neighbour; its waypoints are the tiles, each at the sum of the times of the steps to it |
| Movement.Validate | services/game-server/internal/domain/movement/path.go:197-226 | no error if and only if the path is not empty, starts at time 0, has strictly increasing times and adjacent waypoints, and with a grid stands on walkable tiles and cuts no corner; otherwise the kind that fails first at the least index where anything fails |
| Movement.VerdictMeans | services/game-server/internal/domain/movement/path.go:197-226 | the same of the verdict that the other results speak of |
| Movement.CheckCorner | services/game-server/internal/domain/movement/path.go:253-265 | an error exactly for a diagonal step with an unwalkable corner |
| Movement.ValidateFrom | services/game-server/internal/domain/movement/path.go:232-248 | no error if and only if every waypoint from the index on is on a walkable tile and no step there cuts a corner; otherwise the first to fail |
| Movement.IndexAt | services/game-server/internal/domain/movement/path.go:98-118 | the last waypoint reached at a time, clamped at both ends |
| Movement.PositionAt | services/game-server/internal/domain/movement/path.go:74-94 | the tile of the last waypoint reached at a time |
| Movement.WaypointIndexAt | apps/web/src/state/interpolation.ts:91-105 | the copy of the client selects the same waypoint as the server, also between milliseconds |
| Movement.AuthoritativePosition | apps/web/src/state/interpolation.ts:44-58 | the position of the client is the one the server derives from the same path and time |
| Movement.IndexMonotone | services/game-server/internal/domain/movement/path.go:98-118 | the index never goes back as time grows |
| Movement.ArrivedAtTheEnd | services/game-server/internal/domain/movement/movement.go:58-90 | a unit has arrived exactly when no time remains, which is when it stands on the last waypoint, or from the start on if there is only one |
| Movement.ValidIsIncreasing | services/game-server/internal/domain/movement/path.go:197-226 | a path without errors has strictly increasing times from zero |
| Movement.RecheckIsExact | services/game-server/internal/domain/movement/path.go:228-265 | the re-check from the current index passes if and only if every tile occupied from now on is walkable and no remaining diagonal cuts a corner |
| Journey.BuiltIsValidIffClean | services/game-server/internal/domain/movement/path.go:164-226 | what the builder accepts passes the validator if and only if the origin is walkable, every step has a cost and no corner is cut |
| Journey.BuilderAcceptsCutCorner | services/game-server/internal/domain/movement/path.go:164-189 | the builder accepts a route that cuts a corner, which the validator rejects |
| Journey.FoundPathIsValid | services/game-server/internal/domain/movement/path.go:160-226 | every path of the pathfinder becomes a valid polyline on the same grid, from its first tile to its last |
| Journey.ValidIsRoute | services/game-server/internal/domain/movement/path.go:160-226 | what builder and validator accept inside the world is a route of the pathfinder |
| Journey.ValidIsFound | services/game-server/internal/domain/movement/path.go:160-226 | the pathfinder never says that there is no way to the end of a journey that is valid, and never finds a dearer one |
| Journey.JourneyStaysSafe | services/game-server/internal/domain/movement/path.go:228-248 | a journey that passes the re-check on a changed grid stays on walkable tiles until it arrives where it was sent |
| QueueInvariant.KeepReceive | services/game-server/internal/persistence/queue.go:234-242 | taking the next job of a partition keeps the invariant of the protocol |
| QueueInvariant.KeepArrive | services/game-server/internal/persistence/queue.go:243-246 | arriving at the barrier of a pair keeps the invariant |
| QueueInvariant.KeepPass | services/game-server/internal/persistence/queue.go:245-252 | passing the barrier once both have arrived keeps the invariant: only the lead runs |
| QueueInvariant.KeepAttempt | services/game-server/internal/persistence/queue.go:256-291 | an attempt, failed or not, retried or last, keeps the invariant |
| QueueInvariant.KeepSendSecond | services/game-server/internal/persistence/queue.go:167-169 | the second send of a pair keeps the invariant |
| QueueInvariant.KeepDropped | services/game-server/internal/persistence/queue.go:173-182 | dropping a job that does not fit, with its compensation, keeps the invariant |
| QueueInvariant.KeepAccepted | services/game-server/internal/persistence/queue.go:129-170 | accepting a job keeps the invariant |
| QueueInvariant.KeepStep | services/game-server/internal/persistence/queue.go:129-291 | every step of every thread keeps the invariant |
| QueueInvariant.MutualExclusion | services/game-server/internal/persistence/queue.go:26-31 | jobs that share a key, in either position, never run at the same time |
| QueueInvariant.RunsInOrder | services/game-server/internal/persistence/queue.go:26-31 | whoever runs was submitted no earlier than any job with a shared key that was attempted before it |
| QueueProgress.RunsAreOrdered | services/game-server/internal/persistence/queue.go:128-169 | over every run, attempts of jobs that share a key are in submission order, retries included, and never two at a time |
| QueueProgress.OldestHeadsItsLanes | services/game-server/internal/persistence/queue.go:234-252 | the oldest unfinished job is preceded only by finished ones in both of its partitions |
| QueueProgress.NeverStuck | services/game-server/internal/persistence/queue.go:234-254 | in every reachable state with anything pending some thread can take a step |
| QueueProgress.StepUsesWork | services/game-server/internal/persistence/queue.go:234-291 | every step of the queue itself strictly lowers a measure of the work left |
| QueueProgress.QueueDrains | services/game-server/internal/persistence/queue.go:211-231 | once submissions stop and every run returns, the queue drains within the work that was left |
| QueueProgress.DrainedIsSettled | services/game-server/internal/persistence/queue.go:211-231 | a drained queue owes nothing: every job has come to an end |
| QueueProgress.ClosedQueueStops | services/game-server/internal/persistence/queue.go:223-231 | a closed queue that cannot go on has drained, and its workers have stopped |
| QueueProgress.SecondSendNeverBlocks | services/game-server/internal/persistence/queue.go:154-170 | the second half of a pair always finds room |
| QueueProgress.SubmitIsAllOrNothing | services/game-server/internal/persistence/queue.go:129-170 | a job enters every partition of its keys or none, and in the latter case is compensated |
| QueueProgress.JobsAreInPlace | services/game-server/internal/persistence/queue.go:129-170 | over every run each accepted job goes to the partitions of its keys, the first one first, jobs without a key take the partitions in turn, and the queue is open until it is closed |
| QueueProgress.ThreeEnds | services/game-server/internal/persistence/queue.go:173-182 | every job is open or has exactly one end: success within the attempts, one compensation after all of them failed, or one compensation without a run |
| QueueProgress.EndsAreFinal | services/game-server/internal/persistence/queue.go:256-291 | no later step changes how a job ended |
| PersistenceQueue.Queue.Submit | services/game-server/internal/persistence/queue.go:129-152 | does what the protocol does for a submission: round robin without a key, one partition or two, drop when full |
| PersistenceQueue.Queue.SubmitPair | services/game-server/internal/persistence/queue.go:156-170 | puts both halves in, the lead in the first partition, or drops the job |
| PersistenceQueue.Queue.DropFull | services/game-server/internal/persistence/queue.go:173-182 | compensates once, if there is a compensation, and touches no partition |
| PersistenceQueue.Queue.TryOnce | services/game-server/internal/persistence/queue.go:259-285 | one attempt is the attempt of the protocol, and says whether it was the last |
| PersistenceQueue.Queue.Run | services/game-server/internal/persistence/queue.go:256-291 | attempts until the first success or the limit, compensates exactly after the limit, and leaves other jobs alone |
| Founding.HasReachableForest | services/game-server/internal/game/founding/site.go:121-157 | true if and only if at least ten distinct wooded forest tiles are joined in four directions to the spawn ring within the radius-8 square, outside the 3x3 |
| Founding.FarEnough | services/game-server/internal/game/founding/site.go:161-168 | true exactly when every other city is at least the minimum distance away |
| Founding.IsViable | services/game-server/internal/game/founding/site.go:98-114 | true exactly when the ground is clear, the others are far and there is wood within reach |
| Founding.ViableMeans | services/game-server/internal/game/founding/site.go:98-168 | a city may stand if and only if the seven by seven tiles are free, every other city is 24 tiles away or more on one axis, and at least ten tiles of forest with wood can be walked to in four directions within eight tiles of it, outside the three by three |
| Founding.FindSpawns | services/game-server/internal/game/founding/site.go:171-182 | the walkable tiles of the ring in its order, each once: the first n, or all of them if there are fewer |
| Founding.RingTiles | services/game-server/internal/game/founding/site.go:186-202 | exactly the tiles at this distance that are a whole number of steps from the corner where their side begins, each at its place in a closed formula of the order |
| Founding.SampledMeans | services/game-server/internal/game/founding/site.go:186-202 | along its side a tile is tried if and only if it is a whole number of steps from the corner, a step being one tile up to ring 7, two up to ring 15, and so on |
| Founding.FindSite | services/game-server/internal/game/founding/site.go:64-95 | the acceptable sampled tile nearest to the start, the first in spiral order among equals, or an error if and only if no sampled tile is acceptable |
| Founding.StartMeans | services/game-server/internal/game/founding/site.go:69-70 | the search starts at the tile that the seed counts to, row by row through the world, over and over |
| Founding.SiteIsFirst | services/game-server/internal/game/founding/site.go:72-94 | every other acceptable sampled place is further from the start, or as far and later in its ring: sides above and below in pairs from the left, then left and right from the top |
| Founding.SiteShape | services/game-server/internal/game/founding/site.go:80-93 | the site is three by three tiles, and its villagers are born on the first tiles of the ring, in its order |
| Founding.InSpiral | services/game-server/internal/game/founding/site.go:72-78 | a tile of the world is tried if and only if it is sampled in its ring |
| Founding.SampledIff | services/game-server/internal/game/founding/site.go:186-202 | a whole ring is tried if and only if it is one of the first seven |
| Founding.OnlySiteFoundIff | services/game-server/internal/game/founding/site.go:72-94 | for a world of any size where only one place can hold a city, the search finds it if and only if it is sampled: it does not cover the whole world |
| Founding.SomeSeedMissesIff | services/game-server/internal/game/founding/site.go:69-94 | some seed misses the only place for a city if and only if the world reaches eight tiles or more from it |
| Founding.RoomForEight | services/game-server/internal/game/founding/site.go:171-182 | a viable candidate is acceptable for at most eight villagers: with more no site is ever found |
| WoodRoads.GroundSurvives | services/game-server/internal/game/founding/site.go:161-168 | walls of any cities kept apart leave the ground within eight tiles of a centre as it was |
| WoodRoads.ReachableStaysServed | services/game-server/internal/game/founding/site.go:97-168 | what was within reach stays within reach of every villager, after the own wall and all others |
| WoodRoads.CityKeepsItsWood | services/game-server/internal/httpapi/founding.go:222-238 | over any sequence of foundings each city keeps at least ten wooded tiles to which the pathfinder never answers that there is no path, and finds none that costs more than it must |
| EventLog.ClassifyIsPrivate | services/game-server/internal/domain/eventlog/eventlog.go:203-316 | a row speaks only to its two players, about each other, and never tells a player of their own treaty or trade order, old rows included |
| EventLog.WhoIsTold | services/game-server/internal/domain/eventlog/eventlog.go:203-316 | for every kind of row exactly who is told of it and as what: the loss to its player and the gain to the counterpart, claims to the owner, orders to the player who did not give them, endings to both |
| EventLog.Notices | services/game-server/internal/domain/eventlog/eventlog.go:323-343 | the notices are exactly those of a table of kinds that notify live |
| EventLog.Builder.constructor | services/game-server/internal/domain/eventlog/eventlog.go:398-406 | an empty page of at least one entry |
| EventLog.Builder.Add | services/game-server/internal/domain/eventlog/eventlog.go:411-472 | takes the row into its group, a new entry or none, and refuses it exactly when it needs an entry beyond the page size |
| EventLog.OpenedTells | services/game-server/internal/domain/eventlog/eventlog.go:434-472 | the entry that a row opens has the kind told to the viewer, the other player, and the place, name, amount and time of the row |
| EventLog.OpenedDeal | services/game-server/internal/domain/eventlog/eventlog.go:434-472 | the entry has the treaty and when it breaks, the territory, and of a trade what the viewer gives and gets, whichever side they are on |
| EventLog.OpenedMine | services/game-server/internal/domain/eventlog/eventlog.go:434-472 | an entry is marked as an offer of the viewer exactly if it is an offer that expired and the viewer had made it |
| EventLog.AlikeIff | services/game-server/internal/domain/eventlog/eventlog.go:369-396 | two rows are of one entry if and only if they are the same news about the same player and type of unit, both seen or both not; of a treaty also about the same treaty, of an offer that expired also of the same side; and no two trades or territories ever are |
| EventLogPaging.AddKeeps | services/game-server/internal/domain/eventlog/eventlog.go:411-472 | every entry keeps summing up a group of alike rows, newest first and close in time, as large as that allows, and every telling row stands in exactly one group |
| EventLogPaging.SpanMeans | services/game-server/internal/domain/eventlog/eventlog.go:418-432 | the first and last times of an entry are those of the earliest and the latest of its rows |
| EventLogPaging.OneRowEach | services/game-server/internal/domain/eventlog/eventlog.go:369-396 | trades and territories are never grouped |
| EventLogPaging.OneSideOfTheCursor | services/game-server/internal/domain/eventlog/eventlog.go:369-396 | all rows of an entry are on the same side of the seen cursor |
| EventLogPaging.PageProgress | services/game-server/internal/persistence/postgres/eventlog.go:88-115 | a page takes at least one row, and the next one starts right below what it took |
| EventLogPaging.PagingLosesNothing | services/game-server/internal/persistence/postgres/eventlog.go:80-115 | whatever the viewer sees between pages, the pages take every row exactly once and in order, none is too long, in each every telling row stands behind exactly one entry, and together they count all rows and all that was pillaged |
| LoadChecker.Check | services/game-server/internal/game/loadcheck/loadcheck.go:121-133 | the passes together give exactly the result specified: rows, findings in order, repair and delete lists |
| LoadCheckRepairs.UnitsMean | services/game-server/internal/game/loadcheck/loadcheck.go:171-246 | exactly the units of the catalogue enter, each with the status that garrison rows and tasks leave it, the health in range nearest to its own, and everything else as it was |
| LoadCheckRepairs.TasksMean | services/game-server/internal/game/loadcheck/loadcheck.go:389-421 | a task stays if and only if it passes its row check and its unit is of the catalogue, without a garrison row, and works if the task does; the units of all others are listed for deletion |
| LoadCheckRepairs.GarrisonsMean | services/game-server/internal/game/loadcheck/loadcheck.go:223-246 | a garrison row stays if and only if its unit exists |
| LoadCheckRepairs.ControlsMean | services/game-server/internal/game/loadcheck/loadcheck.go:437-481 | a control is contested if and only if it is claimed, freed if and only if its player does not exist, dated now if owned without a date, and one version further and listed exactly if that changed it |
| LoadCheckRepairs.CitiesMean | services/game-server/internal/game/loadcheck/loadcheck.go:285-382 | of each city exactly the population, the limit and the marks of presence are corrected: units and trainings counted, era plus five a house and five a conquest, now for a missing date; a city is listed exactly if that changes it |
| LoadCheckRepairs.FindingsMean | services/game-server/internal/game/loadcheck/loadcheck.go:171-481 | the findings are exactly those that the rows call for, each of its rule, with its policy, its severity and its entity |
| LoadCheckRepairs.ListsInOrder | services/game-server/internal/game/loadcheck/loadcheck.go:97-106 | whatever order the rows come in, all lists but that of the unit repairs are in order of id |
| LoadCheckRepairs.FindingsInOrder | services/game-server/internal/game/loadcheck/loadcheck.go:121-133 | findings come in the order of the passes, and of one pass by id |
| LoadChecker.Checker.CheckUnit | services/game-server/internal/game/loadcheck/loadcheck.go:177-221 | one unit: unknown types excluded, status from the garrison rows, health clamped, terrain checked, noted once |
| LoadChecker.Checker.Units | services/game-server/internal/game/loadcheck/loadcheck.go:171-246 | all units in order of id, and the garrison rows of units that do not exist |
| LoadChecker.Checker.DropTasks | services/game-server/internal/game/loadcheck/loadcheck.go:389-421 | keeps exactly the tasks of admitted units outside garrisons that are valid and agree with their unit |
| LoadChecker.Checker.StopIdlers | services/game-server/internal/game/loadcheck/loadcheck.go:423-431 | stops exactly the units that work without a task at work |
| LoadChecker.Checker.CountPopulation | services/game-server/internal/game/loadcheck/loadcheck.go:285-300 | counts for each city its units, the excluded ones too, and its productions in progress |
| LoadChecker.Checker.CountConquered | services/game-server/internal/domain/territory/claim.go:114-137 | counts the territories held by the player that do not contain the centre of the city |
| LoadChecker.Checker.CheckCity | services/game-server/internal/game/loadcheck/loadcheck.go:319-380 | one city: population, limit and marks of presence corrected, noted once |
| LoadChecker.Checker.Cities | services/game-server/internal/game/loadcheck/loadcheck.go:285-382 | all cities in order of id |
| LoadChecker.Checker.Civilizations | services/game-server/internal/game/loadcheck/loadcheck.go:264-283 | a finding for each civilization that is not valid and each city whose own is not in the catalogue; none without a catalogue |
| LoadChecker.Checker.CheckControl | services/game-server/internal/game/loadcheck/loadcheck.go:442-480 | one control: contested aligned, orphaned owner freed, capture dated, version raised once |
| LoadChecker.Checker.Controls | services/game-server/internal/game/loadcheck/loadcheck.go:437-481 | all controls, in place and in order of id |
| LoadCheckFixpoint.UnitsAreSound | services/game-server/internal/game/loadcheck/loadcheck.go:171-246 | in the output a unit is garrisoned if and only if it has a row, works if and only if it has a task at work, and its health is within the catalogue |
| LoadCheckFixpoint.TasksAreSound | services/game-server/internal/game/loadcheck/loadcheck.go:389-421 | every task left is valid and belongs to an admitted unit outside any garrison |
| LoadCheckFixpoint.CitiesAreSound | services/game-server/internal/game/loadcheck/loadcheck.go:285-382 | populations are exact, limits are era plus houses plus conquests, and marks agree with presence |
| LoadCheckFixpoint.ControlsAreSound | services/game-server/internal/game/loadcheck/loadcheck.go:437-481 | contested if and only if claimed, player owners exist, and owned territories are dated |
| LoadCheckFixpoint.UnitRepairsAreChanges | services/game-server/internal/game/loadcheck/loadcheck.go:157-165 | the unit repairs are exactly the units whose row changed, each once |
| LoadCheckFixpoint.UnitRepairsInOrder | services/game-server/internal/game/loadcheck/loadcheck.go:97-106 | the list, meant to be in order of id, is so if and only if no unit that only the task pass idles has a lower id than one repaired before |
| LoadCheckFixpoint.UnitRepairsOutOfOrder | services/game-server/internal/game/loadcheck/loadcheck.go:423-431 | a unit over its greatest health and a lower one that works at nothing give a list out of order |
| LoadCheckFixpoint.PopulationStays | services/game-server/internal/game/loadcheck/loadcheck.go:285-300 | repairs change the population of no city |
| LoadCheckFixpoint.ConquestsAgain | services/game-server/internal/game/loadcheck/loadcheck.go:308-333 | counting territories before the controls are repaired is harmless for owners who exist; for others the next count is zero |
| LoadCheckFixpoint.SecondRunFindsNothing | services/game-server/internal/game/loadcheck/loadcheck.go:121-133 | checking the repaired output again, at any later time, repairs nothing if and only if no city of a known era was counted territories in the name of a player who does not exist |
| LoadCheckFixpoint.OwnedCitiesSettle | services/game-server/internal/game/loadcheck/loadcheck.go:121-133 | where every city owner is a player, checking the repaired output again repairs nothing |
| LoadCheckFixpoint.OrphanCityNeedsTwoRuns | services/game-server/internal/game/loadcheck/loadcheck.go:308-333 | such a city exists: its limit needs a second repair |
| LoadCheckFixpoint.NoFindingNoChange | services/game-server/internal/game/loadcheck/loadcheck.go:121-133 | without a repair finding nothing is changed |
| LoadCheckFixpoint.FatalIff | services/game-server/internal/game/loadcheck/loadcheck.go:111-118 | the start is stopped if and only if a known unit outside any garrison or a city stands where nobody can, a city has an unknown civilization, or the catalogue an invalid one |
| LoadCheckFixpoint.FatalAgain | services/game-server/internal/game/loadcheck/loadcheck.go:111-133 | repairs neither bring about nor remove what stops the start |
| Raster.OwnerIsLeast | services/game-server/internal/domain/territory/territory.go:221-243 | the first to paint a tile is the least id of all that claim it, and nobody owns an unclaimed tile |
| Raster.Canvas.PaintCell | services/game-server/internal/domain/safezone/safezone.go:189-211 | one tile of the sweep: left alone, counted as built up, counted as lost to its owner, or taken |
| Raster.Canvas.Paint | services/game-server/internal/domain/territory/territory.go:224-243 | one rectangle painted without overwriting, with the first tile and the number of tiles lost to each earlier one |
| Raster.SortedOverlaps | services/game-server/internal/domain/territory/territory.go:276-291 | all overlaps, once each, ordered by who kept and who lost |
| Raster.OwnedPlusLost | services/game-server/internal/domain/territory/territory.go:217-243 | what a rectangle owns in the end plus what the report says it lost is what it claims |
| Raster.ReportMeans | services/game-server/internal/domain/territory/territory.go:217-247 | the report lists, for every rectangle and each earlier one that keeps tiles of it, how many they are and which is the first, row by row |
| TerritorySet.AcceptedIff | services/game-server/internal/domain/territory/territory.go:250-272 | a list is accepted if and only if every rectangle is inside the world, every id fits the index and no two are equal |
| TerritorySet.RectangleMeans | services/game-server/internal/domain/territory/territory.go:250-272 | what is wrong with a rectangle: an id outside 1 to 65535, limits out of order, a tile outside the world, the first of these |
| TerritorySet.RefusedFor | services/game-server/internal/domain/territory/territory.go:206-216 | a list is refused for the first territory that does not pass, and for what is wrong with that one |
| TerritorySet.BuildSet | services/game-server/internal/domain/territory/territory.go:185-247 | builds the index of the least ids and the exact overlap report, or refuses with the first error in order of id |
| TerritorySet.OverlapsMean | services/game-server/internal/domain/territory/territory.go:217-247 | the overlaps are, for every territory and each of a lesser id that owns tiles of it, how many and which is the first |
| TerritorySet.Set.TerritoryAt | services/game-server/internal/domain/territory/territory.go:298-308 | the territory of the least id that contains the tile, and none outside the world |
| TerritorySet.TilesAddUp | services/game-server/internal/domain/territory/territory.go:217-243 | for each territory the tiles it owns plus those it lost are its area |
| TerritorySet.ChunkFootprint | services/game-server/internal/domain/territory/territory.go:385-399 | the chunks between those of the two corners, row by row, with division cut off towards zero; none for a size that is not positive |
| TerritorySet.FootprintExact | services/game-server/internal/domain/territory/territory.go:380-399 | a chunk is in the footprint if and only if the territory has a tile in it |
| TerritorySet.ChunkMeans | services/game-server/internal/domain/territory/territory.go:380-399 | the chunk of a tile of the world is the one whose square of tiles has it |
| TerritorySet.Set.InChunks | services/game-server/internal/domain/territory/territory.go:356-378 | exactly the territories with a tile in a listed chunk, in order of id |
| TerritorySet.SeedGrid | services/game-server/internal/domain/territory/seed.go:32-68 | the grid row by row, or an error for a bad side, a bad size or more territories than the index holds |
| TerritorySet.SeedMeans | services/game-server/internal/domain/territory/seed.go:52-68 | territories start at multiples of the size, are as long and high as it but for the edge of the world, come row by row and carry their column and row in the name |
| TerritorySet.StripsAreEnough | services/game-server/internal/domain/territory/seed.go:40-41 | the columns and rows are just enough for the side |
| TerritorySet.DigitsSay | services/game-server/internal/domain/territory/seed.go:57-57 | a number in a name is written in decimal digits, without leading zeros |
| TerritorySet.SeedPartitions | services/game-server/internal/domain/territory/seed.go:20-31 | every tile of the world is in exactly one territory of the grid |
| TerritorySet.SeedAccepted | services/game-server/internal/domain/territory/seed.go:15-31 | with the ids of their insertion the seeded territories are accepted |
| TerritorySet.SeedNeverOverlaps | services/game-server/internal/domain/territory/seed.go:20-31 | no report on the seeded territories can list an overlap |
| SafeZone.Member | services/game-server/internal/domain/safezone/safezone.go:375-377 | whether the tile has the terrain of the type and is not built up |
| SafeZone.MemberMeans | services/game-server/internal/domain/safezone/safezone.go:63-93 | a tile is a member if and only if it is inside the world, not built up, and forest, or ground with a mountain among the eight tiles around |
| SafeZone.MembersAreWalkable | services/game-server/internal/domain/safezone/safezone.go:63-71 | a tile of a zone can be walked on |
| SafeZone.AcceptedAscend | services/game-server/internal/domain/safezone/safezone.go:173-186 | accepted zones are valid and have one id each |
| SafeZone.ValidIsAccepted | services/game-server/internal/domain/safezone/safezone.go:173-186 | a valid zone is accepted unless its id is taken |
| SafeZone.ReasonMeans | services/game-server/internal/domain/safezone/safezone.go:222-239 | nothing is wrong with a zone if and only if its id fits, its type is known and its limits are in order and inside; otherwise the first of these to fail |
| SafeZone.EntryMeans | services/game-server/internal/domain/safezone/safezone.go:173-186 | the first sound zone of each id enters the index, and no other does |
| SafeZone.RejectionMeans | services/game-server/internal/domain/safezone/safezone.go:173-186 | all others are turned away: sound ones as duplicates, the rest for their own fault |
| SafeZone.BuildIndex | services/game-server/internal/domain/safezone/safezone.go:151-218 | the table of the least ids among accepted zones, with exact rejections, overlaps and built-up parts |
| SafeZone.UrbanMeans | services/game-server/internal/domain/safezone/safezone.go:189-215 | of every zone with terrain of its type built up it is told how much, and where that begins |
| SafeZone.RejectedInOrder | services/game-server/internal/domain/safezone/safezone.go:173-186 | zones are turned away in order of id |
| SafeZone.UrbanInOrder | services/game-server/internal/domain/safezone/safezone.go:189-215 | built-up parts are told in order of id |
| SafeZone.Index.ZoneAt | services/game-server/internal/domain/safezone/safezone.go:260-270 | the zone of the least id whose box contains the tile and of which it is a member, and none outside |
| SafeZone.OwnerAfterWall | services/game-server/internal/domain/safezone/safezone.go:306-340 | walling a rectangle takes its tiles from their zones and gives no tile to another |
| SafeZone.OwnerAfterWalls | services/game-server/internal/domain/safezone/safezone.go:306-340 | over any number of walls a tile keeps its first zone until a wall covers it |
| SafeZone.Index.Exclude | services/game-server/internal/domain/safezone/safezone.go:311-340 | the incremental index equals the one rebuilt with the rectangle walled, and the losses listed are those of each zone |
| SafeZone.Index.LossesMean | services/game-server/internal/domain/safezone/safezone.go:311-340 | the losses are, for every zone with tiles in the rectangle, how many and which is the first |
| Loop.NextIsAhead | services/game-server/internal/game/loop/loop.go:117-134 | the next tick is due strictly in the future, on the grid of the period and at most one period ahead |
| Loop.TickFiresLate | services/game-server/internal/game/loop/loop.go:90-137 | the k-th tick never fires before k periods have passed |
| Loop.NoneDropped | services/game-server/internal/game/loop/loop.go:90-137 | while every tick is done before the next is due, the k-th is due after exactly k periods |
| Loop.GameLoop.Step | services/game-server/internal/game/loop/loop.go:145-210 | one number a tick; the inbox first, then the commands, within one budget, each in order and none lost; then the phases in order, and a flush every so many ticks; fewer ticks than an interval are ever unflushed |
| Loop.GameLoop.Advance | services/game-server/internal/game/loop/loop.go:119-134 | the calendar after a tick, lost ticks dropped |
| Loop.GameLoop.Run | services/game-server/internal/game/loop/loop.go:90-137 | consecutive numbers, a timer set to the next entry of the calendar, always ahead, and nothing left unflushed when it is stopped |
| Loop.TickWithinAllowance | services/game-server/internal/game/loop/resume.go:5-13 | every tick, when it fires, is at most the periods since the epoch |
| Loop.ResumesByTheClock | services/game-server/internal/game/loop/resume.go:14-23 | in every life of the process the resumed tick is what the clock says, and the saved one never has to correct it |
| Loop.ResumeMeans | services/game-server/internal/game/loop/resume.go:14-23 | for any clock: the whole periods since the epoch, or what was saved if that is more, which is told |
| Loop.LaterLivesGoOn | services/game-server/internal/game/loop/resume.go:5-13 | a later life starts at or above every tick of an earlier one |
| Loop.NoTickTwice | services/game-server/internal/game/loop/resume.go:5-13 | no tick number is emitted twice over any sequence of runs and crashes, for any period of at least a millisecond |
| Loop.ShortPeriodRepeats | services/game-server/internal/game/loop/resume.go:16-18 | with any period below a millisecond a crash repeats a tick |
| RateLimit.SessionLimiter.Allow | services/game-server/internal/websocket/session.go:257-269 | admits exactly when the refilled bucket has a token, and with time going forward is the bucket of the web server |
| RateLimit.ForwardBound | apps/web/src/server/rateLimit.ts:46-52 | whatever the clock does, admissions in any window are at most the burst plus the refill of the moves of the clock forward |
| RateLimit.ForwardIsSpan | apps/web/src/server/rateLimit.ts:48 | the moves forward make up the time between first and last reading if and only if the clock never goes back |
| RateLimit.WindowBound | apps/web/src/server/rateLimit.ts:46-52 | with a clock that does not go back in the window, admissions in it are at most the burst plus the refill of its length |
| RateLimit.AdmittedIff | apps/web/src/server/rateLimit.ts:46-52 | whatever the clock does, a request is admitted if and only if no window that ends with it then exceeds its bound |
| RateLimit.ClockBackRefillsTwice | apps/web/src/server/rateLimit.ts:46-52 | the condition of the clock is needed: one that goes back and forth breaks the bound by the length of the window |
| RateLimit.RateLimiter.Allow | apps/web/src/server/rateLimit.ts:46-62 | one request on the table: refill, take, move to the end, forget the oldest beyond the limit |
| RateLimit.RemembersMostRecent | apps/web/src/server/rateLimit.ts:53-60 | the table holds exactly the most recently used keys, in order, as many as fit |
| RateLimit.KeyWindowBound | apps/web/src/server/rateLimit.ts:33-62 | over any window with fewer than maxKeys other keys a key is admitted at most its burst plus the refill |
| RateLimit.KeysStandAlone | apps/web/src/server/rateLimit.ts:46-62 | while no more keys are used than can be remembered, each is answered from a bucket of its own, full at its first use |
| RateLimit.ForgottenIsAdmitted | apps/web/src/server/rateLimit.ts:47-60 | after any run, a key that is not among the most recent maxKeys is admitted, whatever it has spent |
| RateLimit.AfreshIffRecovered | apps/web/src/server/rateLimit.ts:47-50 | starting a key afresh is the same as having kept its bucket if and only if the bucket has recovered by then |
| RateLimit.ForgettingIsHarmlessIff | apps/web/src/server/rateLimit.ts:55-60 | over any run, forgetting keys changes no answer and no bucket if and only if every forgotten key that comes back has recovered its bucket |
| RateLimit.ForgottenOnceMore | apps/web/src/server/rateLimit.ts:47-60 | after any run, requests of maxKeys different other keys let a key be admitted once more, whenever it returns |
| RateLimit.ForgettingBreaksTheBoundIff | apps/web/src/server/rateLimit.ts:55-60 | for every policy with a burst, every maxKeys, any key that has spent its burst, any maxKeys different others and any times, the return of the key breaks the bound of its window if and only if its bucket, had it been kept, would have refused it |
| RateLimit.GatePaces | apps/web/src/server/rateLimit.ts:24-27 | what a bucket lets through is, in every window, at most its burst plus the refill |
| RateLimit.PacedForgettingIsHarmless | apps/web/src/server/rateLimit.ts:24-27 | where keys come no faster than another bucket lets them, and maxKeys of them take longer than a bucket takes to fill, forgetting changes no answer |
| Idempotency.Server.Claim | services/game-server/internal/persistence/redis/idempotency.go:66-86 | reserves the request if it was not there and otherwise answers what is stored; gone between the two commands counts as never seen; a command that fails is an error |
| Idempotency.Server.ClaimRequest | services/game-server/internal/websocket/server.go:815-849 | a first request runs, a duplicate is told the original reply or nothing, an empty id is refused; without a store, or one that does not answer, the command runs anyway |
| Idempotency.Server.DispatchClaimed | services/game-server/internal/websocket/server.go:773-784 | enqueues if there is room, and otherwise takes the reservation back |
| Idempotency.KeepStep | services/game-server/internal/websocket/server.go:769-849 | every step of connections, loop and recorders keeps the invariant, while claims are as good as atomic |
| Idempotency.AtMostOnce | services/game-server/internal/websocket/server.go:32-51 | over every interleaving a request goes to the loop at most once, and duplicates are told only replies given to it |
| Idempotency.AnswerIsRecorded | services/game-server/internal/websocket/server.go:786-809 | a reply given is recorded, and is then what the store holds |
| Idempotency.RepeatIsTold | services/game-server/internal/websocket/server.go:838-848 | who repeats a command that still runs is told nothing, and who repeats it once its reply is stored is told that reply; neither sends it again |
| Idempotency.DroppedCanRetry | services/game-server/internal/websocket/server.go:769-784 | once a dropped command is released, the next message with its id is a first one |
| Idempotency.ReleaseWhileLooking | services/game-server/internal/persistence/redis/idempotency.go:71-91 | wherever a release falls between the two commands of another claim, the request can go to the loop twice |
| Idempotency.CarelessTwice | services/game-server/internal/persistence/redis/idempotency.go:71-91 | with a channel of any size, some run from the start, in which no reservation expires, comes to such a release and sends a request to the loop twice |
| Hub.KeysDiffer | services/game-server/internal/websocket/hub.go:20-24 | different chunks have different keys, negative coordinates included |
| Hub.Hub.BothSidesAgree | services/game-server/internal/websocket/hub.go:32-36 | a session is in the list of a chunk if and only if the chunk is in its own list |
| Hub.Hub.Register | services/game-server/internal/websocket/hub.go:65-75 | adds the session to the registry and to its player, and to no chunk |
| Hub.Hub.Unregister | services/game-server/internal/websocket/hub.go:78-100 | no table holds the session any more, registered before or not, nobody else moves, and no empty set remains |
| Hub.Hub.Subscribe | services/game-server/internal/websocket/hub.go:106-138 | any session watches exactly the given chunks, and what it entered and left are the exact differences, each once; an index without unregistered watchers stays so if and only if the session is registered or is given no chunk |
| Hub.Hub.BroadcastChunkTransition | services/game-server/internal/websocket/hub.go:217-247 | spawn goes to those who watch only the new chunk, despawn to those who watch only the old one, within the player if given; nobody is told both, or one twice |
| Gathering.TileRegrowsFromLastLoad | services/game-server/internal/domain/deposit/deposit.go:99-117 | after a load a tile shows what was left for one regrowth time and is full from then on |
| Gathering.StepKeepsInv | services/game-server/internal/domain/task/task.go:143-230 | every transition keeps tasks well formed and tiles in range |
| Task.RefusalsMean | services/game-server/internal/domain/task/task.go:143-211 | which transitions are refused, and why |
| Gathering.RemainingMeans | services/game-server/internal/game/simulation/deposit.go:148-160 | what a tile has: nothing off its terrain, what its entry says until that grows back, and 100 otherwise |
| Gathering.ReachResourceMeans | services/game-server/internal/game/simulation/gather.go:294-328 | when work starts and until when, and what happens at a tile with nothing left |
| Gathering.WorkDoneMeans | services/game-server/internal/game/simulation/gather.go:330-380 | what is taken from the tile, what is left and until when, and what the unit then does |
| Gathering.ReachDepositMeans | services/game-server/internal/game/simulation/gather.go:382-444 | when a load is paid in, and whether the unit goes back, elsewhere or stops |
| Gathering.WhatCanHappen | services/game-server/internal/domain/task/task.go:143-211 | an order needs the terrain of its resource, work is done once its time is up, and everything else can happen to any unit with a task |
| Gathering.OtherEventsMean | services/game-server/internal/game/simulation/gather.go:116-200 | what an order, a cancellation and a sweep do, and that no event touches the task of another unit |
| Gathering.WorkTakesItsTime | services/game-server/internal/domain/task/task.go:143-166 | over any run, from the step that starts work until another event of the unit, the work is due if and only if its time has passed since arrival; the tile then grows back a day after that |
| Gathering.RunKeepsInv | services/game-server/internal/domain/task/task.go:124-230 | in every reachable state units carry only towards the deposit, deadlines belong to work, every task passes its row check and every tile is within its capacity |
| Gathering.StepConserves | services/game-server/internal/game/simulation/gather.go:294-500 | one step moves resources between tile, unit, stock and loss without making or destroying any |
| Gathering.RunConserves | services/game-server/internal/game/simulation/gather.go:294-500 | over any run what was taken equals what was delivered, carried and lost, layer by layer |
| Gathering.StepSpendsTile | services/game-server/internal/game/simulation/deposit.go:281-300 | what a unit takes is exactly what its tile loses |
| Gathering.TileGivesWhatItHas | services/game-server/internal/domain/deposit/deposit.go:111-117 | while a tile does not grow back, what all gatherers take from it together is what it lost, at most its capacity |
| Gathering.OneCapacityPerGrowth | services/game-server/internal/domain/deposit/deposit.go:99-117 | from one moment a tile is found full until the next, at most one capacity leaves it |
| Gathering.LostOnlyWithATask | services/game-server/internal/game/simulation/gather.go:496-500 | a load is lost only with a task that ends or is replaced |

## Left out

- AStar.FindPath: requires marks where nothing counts as visited or where the start counts as closed; what a stale entry at another tile does to the answer is not said. Overflow of costs and indexes in 32 bits, the early exit of a cancelled context and the pool that hands out workspaces are not modelled.
- Workspace.AlwaysFresh: with sizes that shrink and more queries than the counter holds the property is false (`Workspace.WrapLeavesStale`).
- PersistenceQueue.Queue.Submit: requires an open queue: a submission after Close sends on a closed channel, which stops the program in the source. It runs with no other thread in between, which the lock of the submitters gives it in the source; interleavings are in the protocol. The wrap-around of the 64-bit round-robin counter is not modelled.
- QueueProgress.QueueDrains: assumes that every run of a job returns, as the write timeout in the source intends; times, pauses between attempts and the deadline of Drain are not modelled.
- Movement.BuildTimedPath: a duration is an unbounded integer, where the source has 64 bits.
- Founding.FindSite: the seed is an unbounded natural number, where the source has 64 bits; the world is a value, not the object with its lock.
- WoodRoads.CityKeepsItsWood: is about ways to the wood on the ground; that the wood on those tiles runs out and regrows is in `Gathering`.
- EventLogPaging.PagingLosesNothing: reads the log as a fixed list of rows; rows that arrive between two pages have greater ids and are not part of it, and rows that grow too old between two pages are taken to stay. The cap on rows read per page is a number of rows, not of database chunks.
- LoadChecker.Check: leaves out the text of findings; whether a civilization is valid is given; rows are values, so that one row given twice under two pointers is two rows.
- Loop.GameLoop.Run: takes the firing times and clock readings as given, the instant of a tick being that at which its timer fires; goroutines, metrics and panics of single commands are not modelled, nor is the wrap-around of the 64-bit tick.
- Loop.GameLoop.Step: that commands, phases and flushes happen, and in which order, is modelled; what each does to the world belongs to parts that are not.
- RateLimit.SessionLimiter.Allow: and the limiter of the web server count in real numbers, not in floating point.
- Idempotency.AtMostOnce: assumes a store that is there, does not lose or expire reservations and makes claims as good as atomic; without a store, or when it fails, the source runs the command anyway (`Idempotency.Server.ClaimRequest`).
- Idempotency.Server.Claim: a command to the store that fails is taken to have done nothing; that it was carried out and only its answer was lost is not modelled.
- Hub.Hub.Subscribe: takes ids of sessions to be unique; coordinates of chunks are those of 32 bits.
- TerritorySet.SeedGrid: the sum of side and size does not overflow 32 bits here.
- TerritorySet.ChunkFootprint: requires room for a number of chunks that is not negative: below zero, which takes limits reversed on one axis only, the source stops with an error.
- Gathering.RunConserves: the walk between resource and deposit, the search for the next tile and what is persisted of a load are given as events and choices, and the instants at which units arrive are not negative, as the server's clock gives them.
- The database, Redis, HTTP, WebSocket framing, JWT, metrics, logging and configuration parsing.
- The scene, the camera and the labels of the client, and its interpolation between waypoints, which is floating point.
- Presence, treaties, trade, eras, production, building checks and stock debits: each is settled by one or two branches.
- The evaluation of hiding in a safe zone, for the same reason.
- The authentication limits above the web limiter, and how an address is read from the headers of a proxy.
- The end-to-end view of a client: a snapshot, a subscription and a send are not atomic in the source, and it promises nothing about them together.
