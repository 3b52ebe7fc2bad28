// The partitioned persistence queue as a protocol: what its threads may do, one
// atomic step at a time.
//
// Every partition is a FIFO channel with a worker of its own. A job whose two keys
// fall in different partitions is queued in both, meets both workers at a barrier
// and is run by one of them.

module QueueProtocol {
  /** `partition` spreads keys over the partitions and is otherwise unknown. */
  datatype Config = Config(n: nat, capacity: nat, maxAttempts: nat, partition: string -> nat) {
    ghost predicate Valid() {
      n > 0 && capacity > 0 && maxAttempts > 0 && forall k :: partition(k) < n
    }
  }

  datatype Job = Job(key: string, key2: string, compensates: bool)

  /** A job in the channel of a partition, by its number in submission order. */
  datatype Item = Item(id: nat, pair: bool, lead: bool)

  datatype Phase =
    | Idle
    | Took(item: Item)                      // received, not yet at the barrier
    | AtBarrier(item: Item)                 // arrived, waiting for the other worker
    | Running(item: Item, attempt: nat)     // about to make this attempt
    | WaitingDone(item: Item)               // the other worker is running it
    | Stopped

  datatype Barrier = Barrier(arrived: nat, done: bool)

  /** What has become of a submitted job. No lanes: it was dropped at once. */
  datatype Record = Record(job: Job, lanes: seq<nat>, runs: seq<bool>, compensations: nat)

  /** The lock of the submitters: free, or held between the two sends of a pair. */
  datatype Lock = Free | Second(to: nat, id: nat)

  /** `log` is the history of attempts, by job. */
  datatype State = State(
    parts: seq<seq<Item>>, workers: seq<Phase>, barriers: map<nat, Barrier>,
    lock: Lock, turn: nat, closed: bool, records: seq<Record>, log: seq<nat>)

  datatype Action =
    | Submit(job: Job)
    | SendSecond
    | Receive(w: nat)
    | Arrive(w: nat)
    | Pass(w: nat)
    | Attempt(w: nat, ok: bool)
    | Release(w: nat)
    | Stop(w: nat)
    | Close

  function Initial(c: Config): State {
    State(seq(c.n, i => []), seq(c.n, i => Idle), map[], Free, 0, false, [], [])
  }

  // ---------------------------------------------------------------------
  // Steps
  // ---------------------------------------------------------------------

  function FirstLane(c: Config, s: State, job: Job): nat
    requires c.n > 0
  {
    if job.key != "" then c.partition(job.key) else (s.turn + 1) % c.n
  }

  /** The partitions a job goes to: the one that runs it first. */
  function LanesOf(c: Config, s: State, job: Job): (l: seq<nat>)
    requires c.n > 0
    ensures 1 <= |l| <= 2 && l[0] == FirstLane(c, s, job) && (|l| == 2 ==> l[0] != l[1])
  {
    var i := FirstLane(c, s, job);
    if job.key2 != "" && c.partition(job.key2) != i then [i, c.partition(job.key2)] else [i]
  }

  predicate HasRoom(c: Config, s: State, lanes: seq<nat>) {
    forall i | i in lanes :: i < |s.parts| && |s.parts[i]| < c.capacity
  }

  predicate IsWorker(s: State, w: nat) {
    w < |s.workers| && w < |s.parts|
  }

  function Sent(s: State, i: nat, it: Item): State
    requires i < |s.parts|
  {
    s.(parts := s.parts[i := s.parts[i] + [it]])
  }

  /** Both channels are looked at before either send, so a pair goes in whole or
      not at all. Nobody else sends before the second half. */
  function Submitted(c: Config, s: State, job: Job): State
    requires c.n > 0
  {
    var lanes, id := LanesOf(c, s, job), |s.records|;
    var t := s.(turn := if job.key != "" then s.turn else s.turn + 1);
    if !HasRoom(c, s, lanes) then
      t.(records := s.records + [Record(job, [], [], if job.compensates then 1 else 0)])
    else
      assert lanes[0] in lanes;
      var u := Sent(t.(records := s.records + [Record(job, lanes, [], 0)]), lanes[0], Item(id, |lanes| == 2, true));
      if |lanes| == 2 then u.(barriers := s.barriers[id := Barrier(0, false)], lock := Second(lanes[1], id)) else u
  }

  function Moved(s: State, w: nat, p: Phase): State
    requires IsWorker(s, w)
  {
    s.(workers := s.workers[w := p])
  }

  function Received(s: State, w: nat): State
    requires IsWorker(s, w) && |s.parts[w]| > 0
  {
    var it := s.parts[w][0];
    Moved(s.(parts := s.parts[w := s.parts[w][1..]]), w, if it.pair then Took(it) else Running(it, 1))
  }

  function Arrived(s: State, w: nat): State
    requires IsWorker(s, w) && s.workers[w].Took? && s.workers[w].item.id in s.barriers
  {
    var it := s.workers[w].item;
    var b := s.barriers[it.id];
    Moved(s.(barriers := s.barriers[it.id := b.(arrived := b.arrived + 1)]), w, AtBarrier(it))
  }

  function Passed(s: State, w: nat): State
    requires IsWorker(s, w) && s.workers[w].AtBarrier?
  {
    var it := s.workers[w].item;
    Moved(s, w, if it.lead then Running(it, 1) else WaitingDone(it))
  }

  /** An attempt that fails is made again, up to the limit; then the job is
      compensated. Either end of a two-key job opens its barrier. */
  function Attempted(c: Config, s: State, w: nat, ok: bool): State
    requires IsWorker(s, w) && s.workers[w].Running? && s.workers[w].item.id < |s.records|
    requires s.workers[w].item.pair ==> s.workers[w].item.id in s.barriers
  {
    var it, k := s.workers[w].item, s.workers[w].attempt;
    var r := s.records[it.id];
    var ended := ok || k >= c.maxAttempts;
    var r' := r.(runs := r.runs + [ok],
                 compensations := if !ok && ended && r.job.compensates then r.compensations + 1 else r.compensations);
    var t := s.(records := s.records[it.id := r'], log := s.log + [it.id]);
    if !ended then Moved(t, w, Running(it, k + 1))
    else Moved(t.(barriers := if it.pair then s.barriers[it.id := s.barriers[it.id].(done := true)] else s.barriers),
        w, Idle)
  }

  predicate Enabled(c: Config, s: State, a: Action) {
    match a
    case Submit(_) => c.n > 0 && !s.closed && s.lock.Free?
    case SendSecond => s.lock.Second? && s.lock.to < |s.parts| && |s.parts[s.lock.to]| < c.capacity
    case Receive(w) => IsWorker(s, w) && s.workers[w].Idle? && |s.parts[w]| > 0
    case Arrive(w) => IsWorker(s, w) && s.workers[w].Took? && s.workers[w].item.id in s.barriers
    case Pass(w) =>
      && IsWorker(s, w) && s.workers[w].AtBarrier?
      && s.workers[w].item.id in s.barriers && s.barriers[s.workers[w].item.id].arrived == 2
    case Attempt(w, _) =>
      && IsWorker(s, w) && s.workers[w].Running? && s.workers[w].item.id < |s.records|
      && (s.workers[w].item.pair ==> s.workers[w].item.id in s.barriers)
    case Release(w) =>
      && IsWorker(s, w) && s.workers[w].WaitingDone?
      && s.workers[w].item.id in s.barriers && s.barriers[s.workers[w].item.id].done
    case Stop(w) => IsWorker(s, w) && s.workers[w].Idle? && s.closed && |s.parts[w]| == 0
    case Close => !s.closed && s.lock.Free?
  }

  function Apply(c: Config, s: State, a: Action): State
    requires Enabled(c, s, a)
  {
    match a
    case Submit(job) => Submitted(c, s, job)
    case SendSecond => Sent(s, s.lock.to, Item(s.lock.id, true, false)).(lock := Free)
    case Receive(w) => Received(s, w)
    case Arrive(w) => Arrived(s, w)
    case Pass(w) => Passed(s, w)
    case Attempt(w, ok) => Attempted(c, s, w, ok)
    case Release(w) => Moved(s, w, Idle)
    case Stop(w) => Moved(s, w, Stopped)
    case Close => s.(closed := true)
  }

  // ---------------------------------------------------------------------
  // The invariant
  // ---------------------------------------------------------------------

  function Current(p: Phase): seq<Item> {
    if p.Idle? || p.Stopped? then [] else [p.item]
  }

  /** What a partition still has to finish: its worker's job, then its channel. */
  function Lane(s: State, i: nat): seq<Item>
    requires IsWorker(s, i)
  {
    Current(s.workers[i]) + s.parts[i]
  }

  /** Accepted, and neither done nor out of attempts. */
  predicate Open(c: Config, r: Record) {
    |r.lanes| > 0 && |r.runs| < c.maxAttempts && true !in r.runs
  }

  predicate HasArrived(s: State, w: nat, id: nat) {
    && w < |s.workers|
    && (s.workers[w].AtBarrier? || s.workers[w].Running? || s.workers[w].WaitingDone?)
    && s.workers[w].item.id == id
  }

  predicate Shape(c: Config, s: State) {
    && c.n == |s.parts| == |s.workers|
    && forall i | 0 <= i < c.n :: |s.parts[i]| <= c.capacity
  }

  predicate ItemOk(s: State, i: nat, it: Item) {
    && it.id < |s.records|
    && var lanes := s.records[it.id].lanes;
    && i in lanes && it.pair == (|lanes| == 2) && it.lead == (lanes[0] == i)
  }

  ghost predicate Sorted(lane: seq<Item>) {
    forall a, b | 0 <= a < b < |lane| :: lane[a].id < lane[b].id
  }

  ghost predicate LaneOk(c: Config, s: State, i: nat)
    requires IsWorker(s, i)
  {
    && Sorted(Lane(s, i))
    && (forall it | it in Lane(s, i) :: ItemOk(s, i, it))
    && (forall it | it in s.parts[i] :: it.id < |s.records| && s.records[it.id].runs == [])
    && (s.workers[i].Stopped? ==> s.closed && s.parts[i] == [])
  }

  ghost predicate PhaseOk(c: Config, s: State, i: nat)
    requires IsWorker(s, i) && LaneOk(c, s, i)
  {
    var p := s.workers[i];
    if p.Idle? || p.Stopped? then true else
    assert p.item in Lane(s, i);
    var r := s.records[p.item.id];
    match p
    case Took(it) => it.pair && r.runs == []
    case AtBarrier(it) => it.pair && (it.lead ==> r.runs == [])
    case Running(it, k) =>
      && Open(c, r) && |r.runs| == k - 1
      && (it.pair ==> it.lead && HasArrived(s, r.lanes[1], it.id))
    case WaitingDone(it) =>
      && it.pair && !it.lead
      && (Open(c, r) ==> HasArrived(s, r.lanes[0], it.id))
  }

  function Bit(b: bool): nat {
    if b then 1 else 0
  }

  predicate BarrierOk(c: Config, s: State, id: nat)
    requires id < |s.records|
  {
    var r := s.records[id];
    |r.lanes| == 2 ==>
      && id in s.barriers && s.barriers[id].done == !Open(c, r)
      && s.barriers[id].arrived ==
         if Open(c, r) then Bit(HasArrived(s, r.lanes[0], id)) + Bit(HasArrived(s, r.lanes[1], id)) else 2
  }

  predicate InLane(s: State, i: nat, id: nat) {
    IsWorker(s, i) && exists k | 0 <= k < |Lane(s, i)| :: Lane(s, i)[k].id == id
  }

  /** The second half of a pair is the newest job and finds room. */
  ghost predicate LockOk(c: Config, s: State) {
    s.lock.Second? ==>
      && s.lock.id + 1 == |s.records| && IsWorker(s, s.lock.to) && !s.closed
      && var r := s.records[s.lock.id];
      && |r.lanes| == 2 && r.lanes[1] == s.lock.to && r.runs == []
      && |s.parts[s.lock.to]| < c.capacity
      && forall k | 0 <= k < |Lane(s, s.lock.to)| :: Lane(s, s.lock.to)[k].id < s.lock.id
  }

  /** An open job is still in each of its lanes, or on its way there. */
  ghost predicate Present(c: Config, s: State, id: nat)
    requires id < |s.records|
  {
    Open(c, s.records[id]) ==> forall i | i in s.records[id].lanes && s.lock != Second(i, id) :: InLane(s, i, id)
  }

  /** The three ways a job can end, and what it may have done on the way. */
  predicate RecordOk(c: Config, r: Record) {
    && |r.lanes| <= 2 && (forall i | i in r.lanes :: i < c.n) && (|r.lanes| == 2 ==> r.lanes[0] != r.lanes[1])
    && (|r.lanes| > 0 ==>
          && (r.job.key != "" ==> c.partition(r.job.key) in r.lanes)
          && (r.job.key2 != "" ==> c.partition(r.job.key2) in r.lanes))
    && (|r.lanes| == 0 ==> r.runs == [])
    && |r.runs| <= c.maxAttempts && (forall k | 0 <= k < |r.runs| - 1 :: !r.runs[k])
    && r.compensations == Bit(r.job.compensates && !Open(c, r) && true !in r.runs)
  }

  predicate SharesKey(a: Job, b: Job) {
    || (a.key != "" && (a.key == b.key || a.key == b.key2))
    || (a.key2 != "" && (a.key2 == b.key || a.key2 == b.key2))
  }

  ghost predicate NoneOlder(lane: seq<Item>, id: nat) {
    forall k | 0 <= k < |lane| :: id <= lane[k].id
  }

  /** No lane of a job that has been run holds an older job any more. */
  ghost predicate Oldest(s: State, id: nat) {
    && id < |s.records|
    && forall p | p in s.records[id].lanes && IsWorker(s, p) :: NoneOlder(Lane(s, p), id)
  }

  /** Attempts of jobs that share a key are in submission order. */
  ghost predicate LogOk(s: State) {
    && (forall e | 0 <= e < |s.log| :: Oldest(s, s.log[e]))
    && (forall d, e | 0 <= d < e < |s.log| && SharesKey(s.records[s.log[d]].job, s.records[s.log[e]].job) ::
          s.log[d] <= s.log[e])
    && (forall id | 0 <= id < |s.records| :: multiset(s.log)[id] == |s.records[id].runs|)
  }

  ghost predicate Inv(c: Config, s: State) {
    && c.Valid() && Shape(c, s)
    && (forall i | 0 <= i < c.n :: LaneOk(c, s, i) && PhaseOk(c, s, i))
    && (forall id | 0 <= id < |s.records| ::
          RecordOk(c, s.records[id]) && BarrierOk(c, s, id) && Present(c, s, id))
    && LockOk(c, s) && LogOk(s)
  }
}
