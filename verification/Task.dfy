// What a gathering unit is doing: a task is a value, and every transition
// returns the next one or refuses.

module Task {
  import opened Wrappers
  import opened World
  import Deposit

  /** Rows read from the database may carry kinds and phases nobody knows. */
  datatype Kind = GatherWood | GatherStone | UnknownKind(name: string) {
    function Layer(): Option<Deposit.Layer> {
      match this
      case GatherWood => Some(Deposit.FOREST)
      case GatherStone => Some(Deposit.HILL)
      case UnknownKind(_) => None
    }
  }

  datatype Phase = ToResource | Working | ToDeposit | UnknownPhase(name: string)

  datatype TaskError = BadTransition | InvalidTask

  datatype Task = Task(unitID: int, kind: Kind, target: Tile, phase: Phase,
                       phaseUntilMs: int, carrying: int, tripsDone: int) {

    /** Arriving at the resource: the wait counts from the instant of arrival. */
    function StartWork(arrivedAtMs: int, workMs: int): Result<Task, TaskError> {
      if phase != ToResource then Err(BadTransition)
      else if workMs <= 0 then Err(InvalidTask)
      else Ok(this.(phase := Working, phaseUntilMs := arrivedAtMs + workMs))
    }

    predicate Due(nowMs: int) {
      phase == Working && phaseUntilMs <= nowMs
    }

    function FinishWork(carry: int): Result<Task, TaskError> {
      if phase != Working then Err(BadTransition)
      else if carry <= 0 then Err(InvalidTask)
      else Ok(this.(phase := ToDeposit, phaseUntilMs := 0, carrying := carry))
    }

    /** The tile ran out: go to another one of the same layer. */
    function Retarget(tile: Tile): Result<Task, TaskError> {
      if phase != ToResource && phase != Working then Err(BadTransition)
      else Ok(this.(target := tile, phase := ToResource, phaseUntilMs := 0))
    }

    /** The tile ran out and there is no other: go home with what it carries. */
    function ReturnToDeposit(): Result<Task, TaskError> {
      if phase != ToResource && phase != Working then Err(BadTransition)
      else Ok(this.(phase := ToDeposit, phaseUntilMs := 0))
    }

    /** Hands over the load; the task points at the resource again. */
    function Deposit(): Result<(Task, int), TaskError> {
      if phase != ToDeposit then Err(BadTransition)
      else Ok((this.(phase := ToResource, carrying := 0, tripsDone := tripsDone + 1), carrying))
    }

    /** The check on a row read from the database. */
    predicate Validate() {
      && !kind.UnknownKind?
      && !phase.UnknownPhase?
      && (phase == Working <==> phaseUntilMs > 0)
      && carrying >= 0 && tripsDone >= 0
    }
  }

  function NewGatherOf(unitID: int, kind: Kind, target: Tile): Task {
    Task(unitID, kind, target, ToResource, 0, 0, 0)
  }

  /** What every task in play satisfies: the row check, plus what it does not
      say, that only a unit on its way to the deposit carries anything. */
  predicate WellFormed(t: Task) {
    t.Validate() && (t.carrying > 0 ==> t.phase == ToDeposit)
    && (t.phase != Working ==> t.phaseUntilMs == 0)
  }

  /** Which transitions are refused, and why: from another phase than theirs, and without
      any work to do or load to carry. */
  lemma RefusalsMean(t: Task, atMs: int, workMs: int, carry: int, tile: Tile)
    ensures t.StartWork(atMs, workMs).Err? <==> t.phase != ToResource || workMs <= 0
    ensures t.StartWork(atMs, workMs) == Err(InvalidTask) <==> t.phase == ToResource && workMs <= 0
    ensures t.FinishWork(carry).Err? <==> t.phase != Working || carry <= 0
    ensures t.FinishWork(carry) == Err(InvalidTask) <==> t.phase == Working && carry <= 0
    ensures t.Retarget(tile).Err? <==> t.phase == ToDeposit || t.phase.UnknownPhase?
    ensures t.ReturnToDeposit().Err? <==> t.phase == ToDeposit || t.phase.UnknownPhase?
    ensures t.Deposit().Err? <==> t.phase != ToDeposit
    ensures t.Retarget(tile) != Err(InvalidTask) && t.ReturnToDeposit() != Err(InvalidTask)
    ensures t.Deposit() != Err(InvalidTask)
  {
  }
}
