// What a forest or a hill still has to give: a layer of touched tiles over
// terrain that never changes.

module Deposit {
  import opened Wrappers
  import opened World

  const DAY_MS := 24 * 60 * 60 * 1000

  /** A resource-giving terrain, the capacity of a full tile and how long a tile
      takes to be full again after its last load. */
  datatype Layer = Layer(terrain: Terrain, capacity: int, regrowAfterMs: int) {
    /** What a tile still has; full once its regrowth is due, whether or not
        anybody has cleared the entry. */
    function RemainingAt(s: State, nowMs: int): int {
      if s.Regrown(nowMs) then capacity else s.remaining
    }

    /** A load of up to `carry` from a tile with `remaining` left. */
    function Take(remaining: int, carry: int, atMs: int): (int, State) {
      var taken := Min(Max(carry, 0), Max(remaining, 0));
      (taken, State(remaining - taken, atMs + regrowAfterMs))
    }

    predicate Validate(s: State) {
      0 <= s.remaining <= capacity
    }
  }

  datatype State = State(remaining: int, regrowsAtMs: int) {
    predicate Regrown(nowMs: int) {
      regrowsAtMs <= nowMs
    }
  }

  const FOREST := Layer(Forest, 100, DAY_MS)
  const HILL := Layer(Hill, 100, DAY_MS)

  function Min(a: int, b: int): int {
    if a < b then a else b
  }

  function Max(a: int, b: int): int {
    if a > b then a else b
  }
}
