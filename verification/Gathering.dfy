// Gatherers, tiles and the stock of their city, over whole runs: nothing that
// leaves a tile goes missing, and no tile gives more than it has.

module Gathering {
  import opened Wrappers
  import opened World
  import opened Task
  import Deposit

  /** The touched tiles of each layer, the tasks by unit, and what has been
      credited to the stock. A layer is named by the kind of task that spends it. */
  datatype State = State(
    terrain: Tile -> Terrain,
    tiles: map<(Kind, Tile), Deposit.State>,
    tasks: map<int, Task>,
    stock: map<Kind, int>)

  /** Where a unit goes from a tile with nothing left. */
  datatype Next = Elsewhere(tile: Tile) | Home | Stop

  datatype Event =
    | Order(unit: int, kind: Kind, tile: Tile)
    | ReachResource(unit: int, atMs: int, workMs: int, next: Next)
    | WorkDone(unit: int, nowMs: int, capacity: int, wayHome: bool, next: Next)
    | ReachDeposit(unit: int, atMs: int, hasCity: bool, ownerPresent: bool, next: Next)
    | Cancel(unit: int)
    | Sweep(kind: Kind, nowMs: int)

  /** What one step moved: taken from a tile of a layer, and lost with a task. */
  datatype Flow = Flow(kind: Kind, tile: Tile, taken: int, lost: int)

  const NOTHING := Flow(GatherWood, Tile(0, 0), 0, 0)

  // ---------------------------------------------------------------------
  // Reading the layers
  // ---------------------------------------------------------------------

  /** What the entry of a tile says, a tile without one being full. */
  function Stored(s: State, kind: Kind, tile: Tile): int {
    match kind.Layer()
    case None => 0
    case Some(layer) =>
      if s.terrain(tile) != layer.terrain then 0
      else if (kind, tile) in s.tiles then s.tiles[(kind, tile)].remaining
      else layer.capacity
  }

  function RemainingIn(s: State, kind: Kind, tile: Tile, nowMs: int): int {
    match kind.Layer()
    case None => 0
    case Some(layer) =>
      if s.terrain(tile) != layer.terrain then 0
      else if (kind, tile) in s.tiles then layer.RemainingAt(s.tiles[(kind, tile)], nowMs)
      else layer.capacity
  }

  function StockOf(s: State, kind: Kind): int {
    if kind in s.stock then s.stock[kind] else 0
  }

  // ---------------------------------------------------------------------
  // Steps
  // ---------------------------------------------------------------------

  function Put(s: State, t: Task): State {
    s.(tasks := s.tasks[t.unitID := t])
  }

  /** Ending a task: whatever it carries is lost. */
  function EndTask(s: State, t: Task): (State, Flow) {
    (s.(tasks := s.tasks - {t.unitID}), Flow(t.kind, t.target, 0, t.carrying))
  }

  function Accept(s: State, t: Task, next: Result<Task, TaskError>): (State, Flow) {
    match next
    case Ok(after) => (Put(s, after), NOTHING)
    case Err(_) => EndTask(s, t)
  }

  function LeaveDepleted(s: State, t: Task, next: Next): (State, Flow) {
    match next
    case Elsewhere(tile) => Accept(s, t, t.Retarget(tile))
    case Home => Accept(s, t, t.ReturnToDeposit())
    case Stop => EndTask(s, t)
  }

  /** The load of a unit that finishes working; an empty tile is left alone. */
  function TakeDeposit(s: State, t: Task, carry: int, atMs: int): (State, int) {
    match t.kind.Layer()
    case None => (s, 0)
    case Some(layer) =>
      var (taken, after) := layer.Take(RemainingIn(s, t.kind, t.target, atMs), carry, atMs);
      if taken == 0 then (s, 0) else (s.(tiles := s.tiles[(t.kind, t.target) := after]), taken)
  }

  function Arrive(s: State, t: Task, atMs: int, workMs: int, next: Next): (State, Flow) {
    if t.phase != ToResource then EndTask(s, t)
    else if RemainingIn(s, t.kind, t.target, atMs) == 0 then LeaveDepleted(s, t, next)
    else Accept(s, t, t.StartWork(atMs, workMs))
  }

  function Leave(s: State, t: Task, capacity: int, wayHome: bool, next: Next): (State, Flow) {
    var (after, taken) := TakeDeposit(s, t, capacity, t.phaseUntilMs);
    if taken == 0 then LeaveDepleted(after, t, next) else
    match t.FinishWork(taken)
    case Err(_) => var (gone, flow) := EndTask(after, t); (gone, Flow(t.kind, t.target, taken, flow.lost + taken))
    case Ok(loaded) =>
      if wayHome then (Put(after, loaded), Flow(t.kind, t.target, taken, 0))
      else var (gone, flow) := EndTask(after, loaded); (gone, flow.(taken := taken))
  }

  function Unload(s: State, t: Task, atMs: int, hasCity: bool, ownerPresent: bool, next: Next): (State, Flow) {
    match t.Deposit()
    case Err(_) => EndTask(s, t)
    case Ok((after, delivered)) =>
      if !hasCity then EndTask(s, t) else
      var paid := s.(stock := s.stock[t.kind := StockOf(s, t.kind) + delivered]);
      if !ownerPresent then EndTask(paid, after)
      else if RemainingIn(paid, t.kind, t.target, atMs) == 0 then
        if next.Elsewhere? then Accept(paid, after, after.Retarget(next.tile)) else EndTask(paid, after)
      else (Put(paid, after), NOTHING)
  }

  function Place(s: State, unit: int, kind: Kind, tile: Tile): (State, Flow) {
    var t := NewGatherOf(unit, kind, tile);
    if unit in s.tasks then (Put(s, t), EndTask(s, s.tasks[unit]).1) else (Put(s, t), NOTHING)
  }

  /** The tiles of a layer that are full again no longer need their entry. */
  function Swept(s: State, kind: Kind, nowMs: int): State {
    s.(tiles := map key | key in s.tiles && !(key.0 == kind && s.tiles[key].Regrown(nowMs)) :: s.tiles[key])
  }

  /** When an event can happen at all. */
  predicate Enabled(s: State, e: Event) {
    match e
    case Order(unit, kind, tile) => kind.Layer().Some? && s.terrain(tile) == kind.Layer().value.terrain
    case ReachResource(unit, atMs, workMs, next) => unit in s.tasks && 0 <= atMs
    case WorkDone(unit, nowMs, capacity, wayHome, next) => unit in s.tasks && s.tasks[unit].Due(nowMs)
    case ReachDeposit(unit, atMs, hasCity, ownerPresent, next) => unit in s.tasks
    case Cancel(unit) => unit in s.tasks
    case Sweep(kind, nowMs) => true
  }

  function Step(s: State, e: Event): (State, Flow)
    requires Enabled(s, e)
  {
    match e
    case Order(unit, kind, tile) => Place(s, unit, kind, tile)
    case ReachResource(unit, atMs, workMs, next) => Arrive(s, s.tasks[unit], atMs, workMs, next)
    case WorkDone(unit, nowMs, capacity, wayHome, next) => Leave(s, s.tasks[unit], capacity, wayHome, next)
    case ReachDeposit(unit, atMs, hasCity, ownerPresent, next) =>
      Unload(s, s.tasks[unit], atMs, hasCity, ownerPresent, next)
    case Cancel(unit) => EndTask(s, s.tasks[unit])
    case Sweep(kind, nowMs) => (Swept(s, kind, nowMs), NOTHING)
  }

  // ---------------------------------------------------------------------
  // What every state keeps
  // ---------------------------------------------------------------------

  predicate TasksInv(s: State) {
    forall u :: u in s.tasks ==> s.tasks[u].unitID == u && WellFormed(s.tasks[u])
  }

  ghost predicate TilesInv(s: State) {
    forall k: Kind, t: Tile :: (k, t) in s.tiles ==>
      k.Layer().Some? && k.Layer().value.terrain == s.terrain(t) && k.Layer().value.Validate(s.tiles[(k, t)])
  }

  ghost predicate Inv(s: State) {
    TasksInv(s) && TilesInv(s)
  }

  predicate Initial(s: State) {
    s.tasks == map[] && s.tiles == map[]
  }

  lemma StoredInRange(s: State, kind: Kind, tile: Tile, nowMs: int)
    requires TilesInv(s)
    ensures 0 <= Stored(s, kind, tile) <= RemainingIn(s, kind, tile, nowMs) <= 100
  {
  }

  /** A load never takes more than the tile has, and changes no other tile. */
  lemma TakeFacts(s: State, t: Task, carry: int, atMs: int)
    requires TilesInv(s)
    ensures var (after, taken) := TakeDeposit(s, t, carry, atMs);
      && after == s.(tiles := after.tiles) && TilesInv(after) && 0 <= taken
      && (forall k, at :: (k, at) != (t.kind, t.target) ==> Stored(after, k, at) == Stored(s, k, at))
      && taken <= RemainingIn(s, t.kind, t.target, atMs)
      && (taken == 0 ==> after == s)
      && (taken > 0 ==> Stored(after, t.kind, t.target) == RemainingIn(s, t.kind, t.target, atMs) - taken)
  {
    StoredInRange(s, t.kind, t.target, atMs);
  }

  lemma LeaveKeepsInv(s: State, t: Task, capacity: int, wayHome: bool, next: Next)
    requires Inv(s) && t.unitID in s.tasks && s.tasks[t.unitID] == t && t.phase == Working
    ensures Inv(Leave(s, t, capacity, wayHome, next).0)
    ensures Leave(s, t, capacity, wayHome, next).0.terrain == s.terrain
  {
    hide TilesInv, TakeDeposit;
    TakeFacts(s, t, capacity, t.phaseUntilMs);
    var (after, taken) := TakeDeposit(s, t, capacity, t.phaseUntilMs);
    SameTiles(after, Leave(s, t, capacity, wayHome, next).0);
  }

  lemma SameTiles(s: State, after: State)
    requires TilesInv(s) && after.tiles == s.tiles && after.terrain == s.terrain
    ensures TilesInv(after)
  {
  }

  lemma ArriveKeepsInv(s: State, t: Task, atMs: int, workMs: int, next: Next)
    requires Inv(s) && t.unitID in s.tasks && s.tasks[t.unitID] == t && 0 <= atMs
    ensures Inv(Arrive(s, t, atMs, workMs, next).0)
    ensures Arrive(s, t, atMs, workMs, next).0.terrain == s.terrain
  {
    hide TilesInv;
    SameTiles(s, Arrive(s, t, atMs, workMs, next).0);
  }

  lemma UnloadKeepsInv(s: State, t: Task, atMs: int, hasCity: bool, ownerPresent: bool, next: Next)
    requires Inv(s) && t.unitID in s.tasks && s.tasks[t.unitID] == t
    ensures Inv(Unload(s, t, atMs, hasCity, ownerPresent, next).0)
    ensures Unload(s, t, atMs, hasCity, ownerPresent, next).0.terrain == s.terrain
  {
    hide TilesInv;
    SameTiles(s, Unload(s, t, atMs, hasCity, ownerPresent, next).0);
  }

  lemma PlaceKeepsInv(s: State, unit: int, kind: Kind, tile: Tile)
    requires Inv(s) && kind.Layer().Some?
    ensures Inv(Place(s, unit, kind, tile).0)
    ensures Place(s, unit, kind, tile).0.terrain == s.terrain
  {
    hide TilesInv;
    SameTiles(s, Place(s, unit, kind, tile).0);
  }

  /** No step breaks the shape of a task or takes a tile out of its range. */
  lemma StepKeepsInv(s: State, e: Event)
    requires Inv(s) && Enabled(s, e)
    ensures Inv(Step(s, e).0)
    ensures Step(s, e).0.terrain == s.terrain
  {
    hide TilesInv, Leave, Unload, Arrive, Place;
    match e
    case WorkDone(unit, nowMs, capacity, wayHome, next) =>
      LeaveKeepsInv(s, s.tasks[unit], capacity, wayHome, next);
    case Sweep(kind, nowMs) => SweepKeepsTiles(s, kind, nowMs);
    case ReachResource(unit, atMs, workMs, next) => ArriveKeepsInv(s, s.tasks[unit], atMs, workMs, next);
    case ReachDeposit(unit, atMs, hasCity, ownerPresent, next) =>
      UnloadKeepsInv(s, s.tasks[unit], atMs, hasCity, ownerPresent, next);
    case Order(unit, kind, tile) => PlaceKeepsInv(s, unit, kind, tile);
    case Cancel(_) => SameTiles(s, Step(s, e).0);
  }

  lemma SweepKeepsTiles(s: State, kind: Kind, nowMs: int)
    requires TilesInv(s)
    ensures TilesInv(Swept(s, kind, nowMs))
  {
  }

  // ---------------------------------------------------------------------
  // Instants
  // ---------------------------------------------------------------------

  /** After a load a tile shows what the load left for one regrowth time, and is
      full from then on; the last load sets the instant. */
  lemma TileRegrowsFromLastLoad(layer: Deposit.Layer, remaining: int, carry: int, atMs: int, nowMs: int)
    requires 0 <= remaining <= layer.capacity && 0 <= carry
    ensures var (taken, after) := layer.Take(remaining, carry, atMs);
      && layer.Validate(after)
      && 0 <= taken <= carry && (taken < carry ==> after.remaining == 0)
      && layer.RemainingAt(after, nowMs)
         == (if nowMs - atMs < layer.regrowAfterMs then remaining - taken else layer.capacity)
  {
  }

  // ---------------------------------------------------------------------
  // What units carry
  // ---------------------------------------------------------------------

  function CarriedBy(t: Task, kind: Kind): int {
    if t.kind == kind then t.carrying else 0
  }

  lemma SomeUnit(tasks: map<int, Task>)
    requires tasks != map[]
    ensures exists u :: u in tasks
  {
    assert (forall u :: u !in tasks) ==> tasks == map[];
  }

  ghost function Carried(tasks: map<int, Task>, kind: Kind): int
    decreases |tasks|
  {
    if tasks == map[] then 0 else
    SomeUnit(tasks);
    var u :| u in tasks;
    assert |tasks - {u}| == |tasks| - 1 by { RemoveOne(tasks, u); }
    CarriedBy(tasks[u], kind) + Carried(tasks - {u}, kind)
  }

  lemma RemoveOne(tasks: map<int, Task>, u: int)
    requires u in tasks
    ensures |tasks - {u}| == |tasks| - 1
  {
    assert (tasks - {u}).Keys == tasks.Keys - {u};
    assert |(tasks - {u}).Keys| == |tasks.Keys| - 1;
  }

  /** The total may be split at any unit. */
  lemma {:induction false} CarriedSplits(tasks: map<int, Task>, kind: Kind, u: int)
    requires u in tasks
    ensures Carried(tasks, kind) == CarriedBy(tasks[u], kind) + Carried(tasks - {u}, kind)
    decreases |tasks|
  {
    var v :| v in tasks && Carried(tasks, kind) == CarriedBy(tasks[v], kind) + Carried(tasks - {v}, kind);
    if u != v {
      RemoveOne(tasks, v);
      RemoveOne(tasks, u);
      CarriedSplits(tasks - {v}, kind, u);
      CarriedSplits(tasks - {u}, kind, v);
      assert tasks - {v} - {u} == tasks - {u} - {v};
    }
  }

  lemma CarriedAfterPut(tasks: map<int, Task>, u: int, t: Task, kind: Kind)
    ensures Carried(tasks[u := t], kind)
         == Carried(tasks, kind) + CarriedBy(t, kind) - (if u in tasks then CarriedBy(tasks[u], kind) else 0)
  {
    var after := tasks[u := t];
    CarriedSplits(after, kind, u);
    if u in tasks {
      CarriedSplits(tasks, kind, u);
      assert after - {u} == tasks - {u};
    } else {
      assert after - {u} == tasks;
    }
  }

  // ---------------------------------------------------------------------
  // Conservation
  // ---------------------------------------------------------------------

  function TakenOf(flow: Flow, kind: Kind): int {
    if flow.kind == kind then flow.taken else 0
  }

  function LostOf(flow: Flow, kind: Kind): int {
    if flow.kind == kind then flow.lost else 0
  }

  /** A layer's balance between two states, given what a step moved. */
  ghost predicate Balanced(s: State, out: (State, Flow), kind: Kind) {
    StockOf(out.0, kind) + Carried(out.0.tasks, kind) + LostOf(out.1, kind)
    == StockOf(s, kind) + Carried(s.tasks, kind) + TakenOf(out.1, kind)
  }

  lemma EndTaskBalances(s: State, t: Task, kind: Kind)
    requires t.unitID in s.tasks && s.tasks[t.unitID].kind == t.kind
    ensures StockOf(EndTask(s, t).0, kind) == StockOf(s, kind)
    ensures Carried(EndTask(s, t).0.tasks, kind) == Carried(s.tasks, kind) - CarriedBy(s.tasks[t.unitID], kind)
  {
    CarriedSplits(s.tasks, kind, t.unitID);
  }

  /** Moving on with the same load leaves the balance alone. */
  lemma LeaveDepletedBalances(s: State, t: Task, next: Next, kind: Kind)
    requires t.unitID in s.tasks && s.tasks[t.unitID] == t
    ensures Balanced(s, LeaveDepleted(s, t, next), kind)
  {
    EndTaskBalances(s, t, kind);
    match next
    case Elsewhere(tile) =>
      if t.Retarget(tile).Ok? {
        CarriedAfterPut(s.tasks, t.unitID, t.Retarget(tile).value, kind);
      }
    case Home => if t.ReturnToDeposit().Ok? { CarriedAfterPut(s.tasks, t.unitID, t.ReturnToDeposit().value, kind); }
    case Stop =>
  }

  lemma ArriveBalances(s: State, t: Task, atMs: int, workMs: int, next: Next, kind: Kind)
    requires t.unitID in s.tasks && s.tasks[t.unitID] == t
    ensures Balanced(s, Arrive(s, t, atMs, workMs, next), kind)
  {
    EndTaskBalances(s, t, kind);
    LeaveDepletedBalances(s, t, next, kind);
    var work := t.StartWork(atMs, workMs);
    if work.Ok? { CarriedAfterPut(s.tasks, t.unitID, work.value, kind); }
  }

  /** What is loaded is what was taken; a unit that works carries nothing yet. */
  lemma LeaveBalances(s: State, t: Task, capacity: int, wayHome: bool, next: Next, kind: Kind)
    requires t.unitID in s.tasks && s.tasks[t.unitID] == t && t.phase == Working && t.carrying == 0
    ensures Balanced(s, Leave(s, t, capacity, wayHome, next), kind)
  {
    var (after, taken) := TakeDeposit(s, t, capacity, t.phaseUntilMs);
    EndTaskBalances(s, t, kind);
    LeaveDepletedBalances(after, t, next, kind);
    var work := t.FinishWork(taken);
    if work.Ok? { CarriedAfterPut(s.tasks, t.unitID, work.value, kind); }
  }

  /** Handing a load over moves it from the unit to the stock. */
  lemma UnloadBalances(s: State, t: Task, atMs: int, hasCity: bool, ownerPresent: bool, next: Next, kind: Kind)
    requires t.unitID in s.tasks && s.tasks[t.unitID] == t
    ensures Balanced(s, Unload(s, t, atMs, hasCity, ownerPresent, next), kind)
  {
    var out := Unload(s, t, atMs, hasCity, ownerPresent, next);
    if t.unitID in out.0.tasks {
      assert out.0.tasks == s.tasks[t.unitID := out.0.tasks[t.unitID]];
      CarriedAfterPut(s.tasks, t.unitID, out.0.tasks[t.unitID], kind);
    } else {
      assert out.0.tasks == s.tasks - {t.unitID};
      CarriedSplits(s.tasks, kind, t.unitID);
    }
  }

  /** One step neither makes nor destroys resources, layer by layer. */
  lemma StepConserves(s: State, e: Event, kind: Kind)
    requires Inv(s) && Enabled(s, e)
    ensures Balanced(s, Step(s, e), kind)
  {
    hide Balanced;
    match e
    case Order(unit, k, tile) => PlaceBalances(s, unit, k, tile, kind);
    case ReachResource(unit, atMs, workMs, next) => ArriveBalances(s, s.tasks[unit], atMs, workMs, next, kind);
    case WorkDone(unit, nowMs, capacity, wayHome, next) =>
      LeaveBalances(s, s.tasks[unit], capacity, wayHome, next, kind);
    case ReachDeposit(unit, atMs, hasCity, ownerPresent, next) =>
      UnloadBalances(s, s.tasks[unit], atMs, hasCity, ownerPresent, next, kind);
    case Cancel(unit) => CancelBalances(s, s.tasks[unit], kind);
    case Sweep(k, nowMs) => SweptBalances(s, k, nowMs, kind);
  }

  lemma PlaceBalances(s: State, unit: int, k: Kind, tile: Tile, kind: Kind)
    requires unit in s.tasks ==> s.tasks[unit].unitID == unit
    ensures Balanced(s, Place(s, unit, k, tile), kind)
  {
    CarriedAfterPut(s.tasks, unit, NewGatherOf(unit, k, tile), kind);
  }

  lemma CancelBalances(s: State, t: Task, kind: Kind)
    requires t.unitID in s.tasks && s.tasks[t.unitID] == t
    ensures Balanced(s, EndTask(s, t), kind)
  {
    EndTaskBalances(s, t, kind);
  }

  lemma SweptBalances(s: State, k: Kind, nowMs: int, kind: Kind)
    ensures Balanced(s, (Swept(s, k, nowMs), NOTHING), kind)
  {
  }

  // ---------------------------------------------------------------------
  // What a tile gives
  // ---------------------------------------------------------------------

  /** The step finds the tile full again, and says so in its entry. */
  predicate Refills(s: State, e: Event, kind: Kind, tile: Tile) {
    (kind, tile) in s.tiles &&
    match e
    case WorkDone(unit, nowMs, capacity, wayHome, next) =>
      && unit in s.tasks && s.tasks[unit].kind == kind && s.tasks[unit].target == tile
      && s.tiles[(kind, tile)].Regrown(s.tasks[unit].phaseUntilMs)
    case Sweep(k, nowMs) => k == kind && s.tiles[(kind, tile)].Regrown(nowMs)
    case _ => false
  }

  function TakenFrom(flow: Flow, kind: Kind, tile: Tile): int {
    if flow.kind == kind && flow.tile == tile then flow.taken else 0
  }

  /** What a unit takes is what the tile loses, unless the tile is full again:
      then it loses it from its capacity. */
  lemma StepSpendsTile(s: State, e: Event, kind: Kind, tile: Tile)
    requires Inv(s) && Enabled(s, e)
    ensures TakenFrom(Step(s, e).1, kind, tile) >= 0
    ensures !Refills(s, e, kind, tile) ==>
      TakenFrom(Step(s, e).1, kind, tile) == Stored(s, kind, tile) - Stored(Step(s, e).0, kind, tile)
    ensures Refills(s, e, kind, tile) ==>
      TakenFrom(Step(s, e).1, kind, tile) <= 100 - Stored(Step(s, e).0, kind, tile)
  {
    if e.WorkDone? {
      LeaveSpendsTile(s, s.tasks[e.unit], e.capacity, e.wayHome, e.next, kind, tile);
      assert TakenFrom(Step(s, e).1, kind, tile) >= 0;
    } else {
      StoredInRange(s, kind, tile, 0);
    }
  }

  lemma LeaveSpendsTile(s: State, t: Task, capacity: int, wayHome: bool, next: Next, kind: Kind, tile: Tile)
    requires TilesInv(s) && t.phase == Working && t.carrying == 0
    ensures var (after, flow) := Leave(s, t, capacity, wayHome, next);
      && TakenFrom(flow, kind, tile) >= 0
      && (TakenFrom(flow, kind, tile) == Stored(s, kind, tile) - Stored(after, kind, tile)
          || (kind == t.kind && tile == t.target && (kind, tile) in s.tiles
              && s.tiles[(kind, tile)].Regrown(t.phaseUntilMs)
              && TakenFrom(flow, kind, tile) <= 100 - Stored(after, kind, tile)))
  {
    hide TilesInv, TakeDeposit;
    TakeFacts(s, t, capacity, t.phaseUntilMs);
    StoredInRange(s, t.kind, t.target, t.phaseUntilMs);
    var (after, taken) := TakeDeposit(s, t, capacity, t.phaseUntilMs);
    SameStored(after, Leave(s, t, capacity, wayHome, next).0, kind, tile);
  }

  lemma SameStored(s: State, after: State, kind: Kind, tile: Tile)
    requires after.tiles == s.tiles && after.terrain == s.terrain
    ensures Stored(after, kind, tile) == Stored(s, kind, tile)
  {
  }

  // ---------------------------------------------------------------------
  // Whole runs
  // ---------------------------------------------------------------------

  predicate CanRun(s: State, es: seq<Event>)
    decreases |es|
  {
    es == [] || (Enabled(s, es[0]) && CanRun(Step(s, es[0]).0, es[1..]))
  }

  function RunAll(s: State, es: seq<Event>): State
    requires CanRun(s, es)
    decreases |es|
  {
    if es == [] then s else RunAll(Step(s, es[0]).0, es[1..])
  }

  function Flows(s: State, es: seq<Event>): seq<Flow>
    requires CanRun(s, es)
    decreases |es|
  {
    if es == [] then [] else [Step(s, es[0]).1] + Flows(Step(s, es[0]).0, es[1..])
  }

  function Sum(flows: seq<Flow>, amount: Flow -> int): int {
    if flows == [] then 0 else amount(flows[0]) + Sum(flows[1..], amount)
  }

  /** Every state of every run is well formed: units carry only on their way to
      the deposit, deadlines belong to work, tasks pass their row check and tiles
      stay between empty and full. */
  lemma {:induction false} RunKeepsInv(s: State, es: seq<Event>)
    requires Inv(s) && CanRun(s, es)
    ensures Inv(RunAll(s, es))
    decreases |es|
  {
    if es != [] {
      StepKeepsInv(s, es[0]);
      RunKeepsInv(Step(s, es[0]).0, es[1..]);
    }
  }

  /** Over any run, what was taken is what was delivered, what is being carried
      and what was lost with cancelled tasks. */
  lemma {:induction false} RunConserves(s: State, es: seq<Event>, kind: Kind)
    requires Inv(s) && CanRun(s, es)
    ensures StockOf(RunAll(s, es), kind) - StockOf(s, kind)
          + Carried(RunAll(s, es).tasks, kind) - Carried(s.tasks, kind)
          + Sum(Flows(s, es), f => LostOf(f, kind))
         == Sum(Flows(s, es), f => TakenOf(f, kind))
    decreases |es|
  {
    if es != [] {
      StepKeepsInv(s, es[0]);
      StepConserves(s, es[0], kind);
      RunConserves(Step(s, es[0]).0, es[1..], kind);
      SumSplits(s, es, f => LostOf(f, kind));
      SumSplits(s, es, f => TakenOf(f, kind));
    }
  }

  lemma SumSplits(s: State, es: seq<Event>, amount: Flow -> int)
    requires es != [] && CanRun(s, es)
    ensures Sum(Flows(s, es), amount)
         == amount(Step(s, es[0]).1) + Sum(Flows(Step(s, es[0]).0, es[1..]), amount)
  {
    var rest := Flows(Step(s, es[0]).0, es[1..]);
    assert Flows(s, es) == [Step(s, es[0]).1] + rest;
    assert ([Step(s, es[0]).1] + rest)[1..] == rest;
  }

  predicate NeverRefills(s: State, es: seq<Event>, kind: Kind, tile: Tile)
    requires CanRun(s, es)
    decreases |es|
  {
    es == [] || (!Refills(s, es[0], kind, tile) && NeverRefills(Step(s, es[0]).0, es[1..], kind, tile))
  }

  /** While a tile does not grow back, what all gatherers together take from it
      is exactly what it lost, and so at most its capacity. */
  lemma {:induction false} TileGivesWhatItHas(s: State, es: seq<Event>, kind: Kind, tile: Tile)
    requires Inv(s) && CanRun(s, es) && NeverRefills(s, es, kind, tile)
    ensures Sum(Flows(s, es), f => TakenFrom(f, kind, tile))
         == Stored(s, kind, tile) - Stored(RunAll(s, es), kind, tile)
    ensures Sum(Flows(s, es), f => TakenFrom(f, kind, tile)) <= 100
    decreases |es|
  {
    RunKeepsInv(s, es);
    StoredInRange(s, kind, tile, 0);
    StoredInRange(RunAll(s, es), kind, tile, 0);
    if es != [] {
      StepKeepsInv(s, es[0]);
      StepSpendsTile(s, es[0], kind, tile);
      TileGivesWhatItHas(Step(s, es[0]).0, es[1..], kind, tile);
      SumSplits(s, es, f => TakenFrom(f, kind, tile));
    }
  }

  /** From the step that finds a tile full again until it is next full, at most
      one capacity leaves it, that step's own load included. */
  lemma OneCapacityPerGrowth(s: State, e: Event, es: seq<Event>, kind: Kind, tile: Tile)
    requires Inv(s) && Enabled(s, e) && Refills(s, e, kind, tile)
    requires CanRun(Step(s, e).0, es) && NeverRefills(Step(s, e).0, es, kind, tile)
    ensures TakenFrom(Step(s, e).1, kind, tile) + Sum(Flows(Step(s, e).0, es), f => TakenFrom(f, kind, tile)) <= 100
  {
    StepKeepsInv(s, e);
    StepSpendsTile(s, e, kind, tile);
    RunKeepsInv(Step(s, e).0, es);
    StoredInRange(RunAll(Step(s, e).0, es), kind, tile, 0);
    TileGivesWhatItHas(Step(s, e).0, es, kind, tile);
  }

  /** Something is lost only with a task that ends while carrying, or with a load
      for which there is no way home. */
  lemma LostOnlyWithATask(s: State, e: Event)
    requires Inv(s) && Enabled(s, e) && Step(s, e).1.lost != 0
    ensures e.Order? || e.unit !in Step(s, e).0.tasks
    ensures e.unit in s.tasks
    ensures Step(s, e).1.lost == (if e.WorkDone? then Step(s, e).1.taken else s.tasks[e.unit].carrying)
    ensures Step(s, e).1.lost > 0
  {
  }

  // ---------------------------------------------------------------------
  // What each event does, field by field
  // ---------------------------------------------------------------------

  /** What can be had of a tile: wood of forest, stone of hills; a hundred of a tile
      that nobody has touched for a day, else what was left. */
  lemma RemainingMeans(s: State, kind: Kind, tile: Tile, nowMs: int)
    ensures var fits := (kind == GatherWood && s.terrain(tile) == Forest)
               || (kind == GatherStone && s.terrain(tile) == Hill);
      RemainingIn(s, kind, tile, nowMs)
      == (if !fits then 0
          else if (kind, tile) in s.tiles && nowMs < s.tiles[(kind, tile)].regrowsAtMs then
            s.tiles[(kind, tile)].remaining
          else 100)
  {
  }

  /** A unit without its task: it ended, and nothing else changed. */
  ghost predicate Ended(s: State, after: State, unit: int) {
    after == s.(tasks := s.tasks - {unit})
  }

  ghost predicate Becomes(s: State, after: State, unit: int, t: Task) {
    after == s.(tasks := s.tasks[unit := t])
  }

  /** A gatherer turns away from an empty tile. */
  ghost predicate TurnsAway(s: State, after: State, unit: int, next: Next)
    requires unit in s.tasks
  {
    var t := s.tasks[unit];
    if next.Stop? then Ended(s, after, unit)
    else if next.Home? then Becomes(s, after, unit, t.(phase := ToDeposit, phaseUntilMs := 0))
    else Becomes(s, after, unit, t.(phase := ToResource, phaseUntilMs := 0, target := next.tile))
  }

  /** Arriving on the way to a tile with something left starts work, which is due
      `workMs` after the instant of arrival; arriving at any other moment ends the task. */
  lemma ReachResourceMeans(s: State, unit: int, atMs: int, workMs: int, next: Next)
    requires Inv(s) && Enabled(s, ReachResource(unit, atMs, workMs, next))
    ensures var t, after := s.tasks[unit], Step(s, ReachResource(unit, atMs, workMs, next)).0;
      if t.phase != ToResource then Ended(s, after, unit)
      else if RemainingIn(s, t.kind, t.target, atMs) == 0 then TurnsAway(s, after, unit, next)
      else if workMs <= 0 then Ended(s, after, unit)
      else Becomes(s, after, unit, t.(phase := Working, phaseUntilMs := atMs + workMs))
  {
  }

  /** When work is over the unit takes what it can carry of what the tile has at the
      deadline, and the tile grows back a day after that deadline. With nothing left
      it turns away; with no way home its load is lost. */
  lemma WorkDoneMeans(s: State, unit: int, nowMs: int, capacity: int, wayHome: bool, next: Next)
    requires Inv(s) && Enabled(s, WorkDone(unit, nowMs, capacity, wayHome, next))
    ensures var t := s.tasks[unit];
      var (after, flow) := Step(s, WorkDone(unit, nowMs, capacity, wayHome, next));
      var has := RemainingIn(s, t.kind, t.target, t.phaseUntilMs);
      var load := if capacity < has then capacity else has;
      && t.phase == Working && t.phaseUntilMs <= nowMs
      && (load <= 0 ==> TurnsAway(s, after, unit, next) && flow.taken == 0 && flow.lost == 0)
      && (load > 0 ==>
            && flow == Flow(t.kind, t.target, load, if wayHome then 0 else load)
            && after.terrain == s.terrain && after.stock == s.stock
            && after.tiles == s.tiles[(t.kind, t.target) := Deposit.State(has - load, t.phaseUntilMs + 86400000)]
            && after.tasks == (if wayHome
                               then s.tasks[unit := t.(phase := ToDeposit, phaseUntilMs := 0, carrying := load)]
                               else s.tasks - {unit}))
  {
    StoredInRange(s, s.tasks[unit].kind, s.tasks[unit].target, s.tasks[unit].phaseUntilMs);
  }

  /** At the deposit of a city the load is credited, whether or not its owner is
      there; without a city it is lost. The next trip begins only for an owner who is
      there, at a tile with something left or at another one. */
  lemma ReachDepositMeans(s: State, unit: int, atMs: int, hasCity: bool, ownerPresent: bool, next: Next)
    requires Inv(s) && Enabled(s, ReachDeposit(unit, atMs, hasCity, ownerPresent, next))
    ensures var t := s.tasks[unit];
      var (after, flow) := Step(s, ReachDeposit(unit, atMs, hasCity, ownerPresent, next));
      var paid := s.(stock := s.stock[t.kind := t.carrying + if t.kind in s.stock then s.stock[t.kind] else 0]);
      var unloaded := t.(phase := ToResource, carrying := 0, tripsDone := t.tripsDone + 1);
      if t.phase != ToDeposit || !hasCity then Ended(s, after, unit) && flow.lost == t.carrying
      else
        && flow.lost == 0
        && if !ownerPresent then Ended(paid, after, unit)
           else if RemainingIn(s, t.kind, t.target, atMs) > 0 then Becomes(paid, after, unit, unloaded)
           else if next.Elsewhere? then Becomes(paid, after, unit, unloaded.(target := next.tile))
           else Ended(paid, after, unit)
  {
    StoredInRange(s, s.tasks[unit].kind, s.tasks[unit].target, atMs);
  }

  /** An order, to gather of a tile of the right terrain, replaces what the unit did; a
      cancellation ends it; and a sweep drops just the entries of a layer that are due. */
  lemma OtherEventsMean(s: State, e: Event)
    requires Inv(s) && Enabled(s, e)
    ensures e.Order? ==>
      && Becomes(s, Step(s, e).0, e.unit, Task(e.unit, e.kind, e.tile, ToResource, 0, 0, 0))
      && ((e.kind == GatherWood && s.terrain(e.tile) == Forest) || (e.kind == GatherStone && s.terrain(e.tile) == Hill))
      && Step(s, e).1.lost == if e.unit in s.tasks then s.tasks[e.unit].carrying else 0
    ensures e.Cancel? ==> Ended(s, Step(s, e).0, e.unit) && Step(s, e).1.lost == s.tasks[e.unit].carrying
    ensures e.Sweep? ==>
      && Step(s, e).0 == s.(tiles := Step(s, e).0.tiles) && Step(s, e).0.tiles.Keys <= s.tiles.Keys
      && forall key :: key in s.tiles ==>
           && (key in Step(s, e).0.tiles <==> key.0 != e.kind || e.nowMs < s.tiles[key].regrowsAtMs)
           && (key in Step(s, e).0.tiles ==> Step(s, e).0.tiles[key] == s.tiles[key])
  {
  }

  /** What can happen: an order for wood in a forest or stone on a hill, a sweep at any
      time, work that is done once its time is up, and the rest to any unit with a task. */
  lemma WhatCanHappen(s: State, e: Event)
    ensures Enabled(s, e) <==>
      match e
      case Order(_, kind, tile) =>
        (kind == GatherWood && s.terrain(tile) == Forest) || (kind == GatherStone && s.terrain(tile) == Hill)
      case Sweep(_, _) => true
      case WorkDone(unit, nowMs, _, _, _) =>
        unit in s.tasks && s.tasks[unit].phase == Working && s.tasks[unit].phaseUntilMs <= nowMs
      case ReachResource(unit, atMs, _, _) => unit in s.tasks && atMs >= 0
      case ReachDeposit(unit, _, _, _, _) => unit in s.tasks
      case Cancel(unit) => unit in s.tasks
  {
  }

  // ---------------------------------------------------------------------
  // Work takes its time
  // ---------------------------------------------------------------------

  predicate Of(e: Event, unit: int) {
    !e.Sweep? && e.unit == unit
  }

  /** What other units do leaves a unit's task alone. */
  lemma OthersLeaveTask(s: State, e: Event, unit: int)
    requires Inv(s) && Enabled(s, e) && !Of(e, unit)
    ensures unit in Step(s, e).0.tasks <==> unit in s.tasks
    ensures unit in s.tasks ==> Step(s, e).0.tasks[unit] == s.tasks[unit]
  {
  }

  lemma {:induction false} OthersLeaveTaskAll(s: State, es: seq<Event>, unit: int)
    requires Inv(s) && CanRun(s, es) && forall e :: e in es ==> !Of(e, unit)
    ensures unit in RunAll(s, es).tasks <==> unit in s.tasks
    ensures unit in s.tasks ==> RunAll(s, es).tasks[unit] == s.tasks[unit]
    decreases |es|
  {
    if es != [] {
      OthersLeaveTask(s, es[0], unit);
      StepKeepsInv(s, es[0]);
      OthersLeaveTaskAll(Step(s, es[0]).0, es[1..], unit);
    }
  }

  /** From an arrival that starts work on, whatever other units do, the load is due
      exactly from `workMs` after the instant of arrival, and the tile it leaves grows
      back exactly one day after that, however late the end of work is looked at. */
  lemma WorkTakesItsTime(s: State, unit: int, atMs: int, workMs: int, next: Next, es: seq<Event>,
                         nowMs: int, capacity: int, wayHome: bool, onward: Next)
    requires Inv(s) && Enabled(s, ReachResource(unit, atMs, workMs, next))
    requires var begun := Step(s, ReachResource(unit, atMs, workMs, next)).0;
      && unit in begun.tasks && begun.tasks[unit].phase == Working
      && CanRun(begun, es) && forall e :: e in es ==> !Of(e, unit)
    ensures var late := RunAll(Step(s, ReachResource(unit, atMs, workMs, next)).0, es);
      var done := WorkDone(unit, nowMs, capacity, wayHome, onward);
      && (Enabled(late, done) <==> nowMs >= atMs + workMs)
      && (Enabled(late, done) && Step(late, done).1.taken > 0 ==>
            var key := (late.tasks[unit].kind, late.tasks[unit].target);
            key in Step(late, done).0.tiles && Step(late, done).0.tiles[key].regrowsAtMs == atMs + workMs + 86400000)
  {
    hide Inv;
    var arrive := ReachResource(unit, atMs, workMs, next);
    var begun := Step(s, arrive).0;
    ReachResourceMeans(s, unit, atMs, workMs, next);
    StepKeepsInv(s, arrive);
    OthersLeaveTaskAll(begun, es, unit);
    RunKeepsInv(begun, es);
    var late := RunAll(begun, es);
    if Enabled(late, WorkDone(unit, nowMs, capacity, wayHome, onward)) {
      WorkDoneMeans(late, unit, nowMs, capacity, wayHome, onward);
    }
  }
}
