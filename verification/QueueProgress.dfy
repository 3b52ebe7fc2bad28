// What the persistence queue promises over whole runs: order, progress and ends.

module QueueProgress {
  import opened QueueProtocol
  import opened QueueInvariant

  // ---------------------------------------------------------------------
  // Whole runs
  // ---------------------------------------------------------------------

  ghost predicate IsRun(c: Config, run: seq<State>, actions: seq<Action>) {
    && |run| == |actions| + 1
    && forall i | 0 <= i < |actions| :: Enabled(c, run[i], actions[i]) && run[i + 1] == Apply(c, run[i], actions[i])
  }

  lemma {:induction false} RunKeepsInv(c: Config, run: seq<State>, actions: seq<Action>, k: nat)
    requires IsRun(c, run, actions) && Inv(c, run[0]) && k < |run|
    ensures Inv(c, run[k])
  {
    if k > 0 {
      RunKeepsInv(c, run, actions, k - 1);
      KeepStep(c, run[k - 1], actions[k - 1]);
    }
  }

  /** Over every run: jobs that share a key are attempted in submission order,
      retries included, and never two at a time. */
  lemma RunsAreOrdered(c: Config, run: seq<State>, actions: seq<Action>, k: nat)
    requires c.Valid() && IsRun(c, run, actions) && run[0] == Initial(c) && k < |run|
    ensures var s := run[k];
            && (forall e | 0 <= e < |s.log| :: s.log[e] < |s.records|)
            && (forall d, e | 0 <= d < e < |s.log| && SharesKey(s.records[s.log[d]].job, s.records[s.log[e]].job) ::
                  s.log[d] <= s.log[e])
            && (forall v: nat, w: nat | v < w < |s.workers| && s.workers[v].Running? && s.workers[w].Running? ::
                  && s.workers[v].item.id < |s.records| && s.workers[w].item.id < |s.records|
                  && !SharesKey(s.records[s.workers[v].item.id].job, s.records[s.workers[w].item.id].job))
  {
    InitialInv(c);
    RunKeepsInv(c, run, actions, k);
    var s := run[k];
    forall e | 0 <= e < |s.log| ensures s.log[e] < |s.records| {
      assert Oldest(s, s.log[e]);
    }
    forall v: nat, w: nat | v < w < |s.workers| && s.workers[v].Running? && s.workers[w].Running?
      ensures s.workers[v].item.id < |s.records| && s.workers[w].item.id < |s.records|
      ensures !SharesKey(s.records[s.workers[v].item.id].job, s.records[s.workers[w].item.id].job)
    {
      MutualExclusion(c, s, v, w);
    }
  }

  // ---------------------------------------------------------------------
  // Places
  // ---------------------------------------------------------------------

  /** Jobs without a first key, among the first `n` submitted. */
  function Keyless(records: seq<Record>, n: nat): nat
    requires n <= |records|
  {
    if n == 0 then 0 else Keyless(records, n - 1) + if records[n - 1].job.key == "" then 1 else 0
  }

  /** Where a job belongs: with its first key, or without one in the next partition in
      turn; and then with its second key, if that is another partition. */
  predicate Belongs(c: Config, records: seq<Record>, id: nat)
    requires c.n > 0 && id < |records|
  {
    var job, lanes := records[id].job, records[id].lanes;
    |lanes| > 0 ==>
      && lanes[0] == (if job.key != "" then c.partition(job.key) else (Keyless(records, id) + 1) % c.n)
      && (if job.key2 != "" && c.partition(job.key2) != lanes[0] then lanes[1..] == [c.partition(job.key2)]
          else |lanes| == 1)
  }

  /** The jobs that have been submitted, in order. */
  function Jobs(actions: seq<Action>): seq<Job> {
    if |actions| == 0 then [] else
    Jobs(actions[..|actions| - 1])
    + if actions[|actions| - 1].Submit? then [actions[|actions| - 1].job] else []
  }

  ghost predicate Places(c: Config, s: State, actions: seq<Action>)
    requires c.n > 0
  {
    && |s.records| == |Jobs(actions)|
    && (forall id :: 0 <= id < |s.records| ==> s.records[id].job == Jobs(actions)[id] && Belongs(c, s.records, id))
    && s.turn == Keyless(s.records, |s.records|)
    && (s.closed <==> Close in actions)
  }

  lemma {:induction false} KeylessKept(r: seq<Record>, t: seq<Record>, n: nat)
    requires n <= |r| && n <= |t| && forall k :: 0 <= k < n ==> t[k].job == r[k].job
    ensures Keyless(t, n) == Keyless(r, n)
  {
    if n > 0 {
      KeylessKept(r, t, n - 1);
    }
  }

  lemma StepPlaces(c: Config, s: State, a: Action, before: seq<Action>)
    requires Inv(c, s) && Places(c, s, before) && Enabled(c, s, a)
    ensures Places(c, Apply(c, s, a), before + [a])
  {
    hide Inv, Keyless;
    InvShape(c, s);
    var t, n := Apply(c, s, a), |s.records|;
    assert (before + [a])[..|before|] == before;
    OnlyRuns(c, s, a);
    KeylessKept(s.records, t.records, n);
    forall id | 0 <= id < n ensures Belongs(c, t.records, id) {
      KeylessKept(s.records, t.records, id);
    }
    if a.Submit? {
      NewPlace(c, s, a.job);
    }
  }

  /** No step but a submission touches what was submitted, or the turn. */
  lemma OnlyRuns(c: Config, s: State, a: Action)
    requires Enabled(c, s, a)
    ensures var t := Apply(c, s, a);
      && |t.records| == |s.records| + (if a.Submit? then 1 else 0) && (!a.Submit? ==> t.turn == s.turn)
      && (t.closed <==> s.closed || a.Close?)
      && forall id :: 0 <= id < |s.records| ==>
           t.records[id].job == s.records[id].job && t.records[id].lanes == s.records[id].lanes
  {
  }

  lemma NewPlace(c: Config, s: State, job: Job)
    requires c.n > 0 && Enabled(c, s, Submit(job)) && s.turn == Keyless(s.records, |s.records|)
    ensures var t := Apply(c, s, Submit(job));
      && t.records[|s.records|].job == job && Belongs(c, t.records, |s.records|)
      && t.turn == Keyless(t.records, |s.records| + 1)
  {
    var t := Apply(c, s, Submit(job));
    KeylessKept(s.records, t.records, |s.records|);
  }

  lemma InitialPlaces(c: Config)
    requires c.n > 0
    ensures Places(c, Initial(c), [])
  {
  }

  /** Over every run: the records are the jobs submitted, in order; each that was
      accepted went to the partitions of its keys, the first one first, and those
      without a key took turns; and the queue is open until it is closed. */
  lemma {:induction false} JobsAreInPlace(c: Config, run: seq<State>, actions: seq<Action>)
    requires c.Valid() && IsRun(c, run, actions) && run[0] == Initial(c)
    ensures Places(c, run[|actions|], actions)
    decreases |actions|
  {
    hide Inv, Apply, Enabled, Places, Initial;
    var n := |actions|;
    InitialInv(c);
    if n == 0 {
      InitialPlaces(c);
    } else {
      JobsAreInPlace(c, run[..n], actions[..n - 1]);
      RunKeepsInv(c, run, actions, n - 1);
      StepPlaces(c, run[n - 1], actions[n - 1], actions[..n - 1]);
      assert actions[..n - 1] + [actions[n - 1]] == actions;
    }
  }

  // ---------------------------------------------------------------------
  // Progress
  // ---------------------------------------------------------------------

  /** A step that is not a new request to the queue. */
  predicate Internal(a: Action) {
    !a.Submit? && !a.Close?
  }

  ghost predicate Drained(s: State) {
    s.lock.Free? && forall i: nat | IsWorker(s, i) :: Lane(s, i) == []
  }

  /** The lane, among the first `k`, whose head is the oldest job. */
  lemma OldestLane(s: State, k: nat, j: nat) returns (i: nat)
    requires k <= |s.parts| && k <= |s.workers| && j < k && |Lane(s, j)| > 0
    ensures i < k && |Lane(s, i)| > 0
    ensures forall p: nat | p < k && |Lane(s, p)| > 0 :: Lane(s, i)[0].id <= Lane(s, p)[0].id
  {
    hide Lane;
    i := j;
    for n := 0 to k
      invariant i < k && |Lane(s, i)| > 0
      invariant forall p: nat | p < n && |Lane(s, p)| > 0 :: Lane(s, i)[0].id <= Lane(s, p)[0].id
    {
      if |Lane(s, n)| > 0 && Lane(s, n)[0].id < Lane(s, i)[0].id {
        i := n;
      }
    }
  }

  /** The oldest job still queued heads every lane that it is in: only finished
      jobs came before it. */
  lemma OldestHeadsItsLanes(c: Config, s: State, i: nat, p: nat, k: nat)
    requires Inv(c, s) && i < c.n && p < c.n && |Lane(s, i)| > 0 && k < |Lane(s, p)|
    requires forall q: nat | q < c.n && |Lane(s, q)| > 0 :: Lane(s, i)[0].id <= Lane(s, q)[0].id
    requires Lane(s, p)[k].id == Lane(s, i)[0].id
    ensures k == 0
  {
    hide PhaseOk, BarrierOk, Present, LockOk, LogOk;
    assert LaneOk(c, s, p);
  }

  /** Whatever has been accepted, somebody can always go on. */
  lemma NeverStuck(c: Config, s: State) returns (a: Action)
    requires Inv(c, s) && !Drained(s)
    ensures Internal(a) && Enabled(c, s, a)
  {
    if s.lock.Second? {
      return SendSecond;
    }
    var j: nat :| IsWorker(s, j) && Lane(s, j) != [];
    var i := OldestLane(s, c.n, j);
    a := HeadCanStep(c, s, i);
  }

  lemma HeadCanStep(c: Config, s: State, i: nat) returns (a: Action)
    requires Inv(c, s) && s.lock.Free? && i < c.n && |Lane(s, i)| > 0
    requires forall q: nat | q < c.n && |Lane(s, q)| > 0 :: Lane(s, i)[0].id <= Lane(s, q)[0].id
    ensures Internal(a) && Enabled(c, s, a)
  {
    hide LockOk, LogOk;
    var it := Lane(s, i)[0];
    HeadItem(c, s, i, it);
    assert LaneOk(c, s, i) && PhaseOk(c, s, i) && RecordOk(c, s.records[it.id]) && BarrierOk(c, s, it.id);
    match s.workers[i]
    case Idle => a := Receive(i);
    case Stopped => assert false;
    case Took(_) => a := Arrive(i);
    case Running(_, _) => a := Attempt(i, true);
    case AtBarrier(_) => a := PairCanStep(c, s, i, it);
    case WaitingDone(_) => a := PairCanStep(c, s, i, it);
  }

  /** The other lane of an open pair, which it heads as well. */
  lemma PartnerLane(c: Config, s: State, i: nat, it: Item) returns (p: nat)
    requires Inv(c, s) && s.lock.Free? && i < c.n && |Lane(s, i)| > 0 && it == Lane(s, i)[0]
    requires s.workers[i].AtBarrier? || s.workers[i].WaitingDone?
    requires forall q: nat | q < c.n && |Lane(s, q)| > 0 :: Lane(s, i)[0].id <= Lane(s, q)[0].id
    requires it.id < |s.records| && Open(c, s.records[it.id])
    ensures p < c.n && i != p && i in s.records[it.id].lanes && p in s.records[it.id].lanes
    ensures |Lane(s, p)| > 0 && Lane(s, p)[0].id == it.id
  {
    hide LockOk, LogOk;
    HeadItem(c, s, i, it);
    assert LaneOk(c, s, i) && PhaseOk(c, s, i) && RecordOk(c, s.records[it.id]);
    var l := s.records[it.id].lanes;
    p := if i == l[0] then l[1] else l[0];
    assert p in l && Present(c, s, it.id) && InLane(s, p, it.id);
    var k :| 0 <= k < |Lane(s, p)| && Lane(s, p)[k].id == it.id;
    OldestHeadsItsLanes(c, s, i, p, k);
  }

  /** One of the two workers of the oldest job, when that job is a pair. */
  lemma PairCanStep(c: Config, s: State, i: nat, it: Item) returns (a: Action)
    requires Inv(c, s) && s.lock.Free? && i < c.n && |Lane(s, i)| > 0 && it == Lane(s, i)[0]
    requires s.workers[i].AtBarrier? || s.workers[i].WaitingDone?
    requires forall q: nat | q < c.n && |Lane(s, q)| > 0 :: Lane(s, i)[0].id <= Lane(s, q)[0].id
    ensures Internal(a) && Enabled(c, s, a)
  {
    hide LockOk, LogOk, Present, LaneOk;
    HeadItem(c, s, i, it);
    assert PhaseOk(c, s, i) && BarrierOk(c, s, it.id);
    if !Open(c, s.records[it.id]) {
      a := if s.workers[i].AtBarrier? then Pass(i) else Release(i);
    } else {
      var p := PartnerLane(c, s, i, it);
      PartnerCanStep(c, s, i, p, it);
      a := if s.workers[p].Idle? then Receive(p)
           else if s.workers[p].Took? then Arrive(p)
           else if s.workers[p].Running? then Attempt(p, true)
           else if s.workers[i].AtBarrier? then Pass(i)
           else Pass(p);
    }
  }

  lemma PartnerCanStep(c: Config, s: State, i: nat, p: nat, it: Item)
    requires Inv(c, s) && i < c.n && p < c.n && i != p && it.id < |s.records|
    requires s.workers[i].AtBarrier? || s.workers[i].WaitingDone?
    requires s.workers[i].item == it && Open(c, s.records[it.id])
    requires i in s.records[it.id].lanes && p in s.records[it.id].lanes
    requires |Lane(s, p)| > 0 && Lane(s, p)[0].id == it.id
    ensures !s.workers[p].Stopped?
    ensures s.workers[p].Took? ==> Enabled(c, s, Arrive(p))
    ensures s.workers[p].Running? ==> Enabled(c, s, Attempt(p, true))
    ensures s.workers[p].AtBarrier? || s.workers[p].WaitingDone? ==>
              it.id in s.barriers && s.barriers[it.id].arrived == 2
              && (s.workers[i].AtBarrier? || s.workers[p].AtBarrier?)
  {
    hide LockOk, LogOk, Present;
    HeadItem(c, s, i, it);
    HeadItem(c, s, p, Lane(s, p)[0]);
    assert LaneOk(c, s, p) && PhaseOk(c, s, p) && PhaseOk(c, s, i);
    assert RecordOk(c, s.records[it.id]) && BarrierOk(c, s, it.id);
  }

  lemma OpenIsQueued(c: Config, s: State, id: nat)
    requires Inv(c, s) && s.lock.Free? && id < |s.records| && Open(c, s.records[id])
    ensures IsWorker(s, s.records[id].lanes[0]) && Lane(s, s.records[id].lanes[0]) != []
  {
    hide LaneOk, PhaseOk, BarrierOk, LogOk;
    var l := s.records[id].lanes;
    assert Present(c, s, id) && l[0] in l;
    assert InLane(s, l[0], id);
  }

  /** A drained queue owes nothing: every job has come to one of its three ends. */
  lemma DrainedIsSettled(c: Config, s: State, id: nat)
    requires Inv(c, s) && Drained(s) && id < |s.records|
    ensures !Open(c, s.records[id])
  {
    hide Inv;
    if Open(c, s.records[id]) {
      OpenIsQueued(c, s, id);
    }
  }

  // ---------------------------------------------------------------------
  // Termination
  // ---------------------------------------------------------------------

  function JobWeight(c: Config): nat {
    c.maxAttempts + 4
  }

  function PhaseWeight(c: Config, p: Phase): nat {
    match p
    case Stopped => 0
    case Idle => 1
    case WaitingDone(_) => 2
    case Running(_, k) => if k <= c.maxAttempts then c.maxAttempts - k + 2 else 2
    case AtBarrier(_) => c.maxAttempts + 3
    case Took(_) => c.maxAttempts + 4
  }

  function LaneWeight(c: Config, s: State, i: nat): nat
    requires IsWorker(s, i)
  {
    PhaseWeight(c, s.workers[i]) + |s.parts[i]| * JobWeight(c)
  }

  function LanesWeight(c: Config, s: State, k: nat): nat
    requires k <= |s.parts| && k <= |s.workers|
  {
    if k == 0 then 0 else LanesWeight(c, s, k - 1) + LaneWeight(c, s, k - 1)
  }

  /** The work left in a queue. */
  function Work(c: Config, s: State): nat
    requires Shape(c, s)
  {
    LanesWeight(c, s, c.n) + if s.lock.Free? then 0 else JobWeight(c) + 1
  }

  lemma {:induction false} OneLaneChanges(c: Config, s: State, t: State, w: nat, k: nat)
    requires k <= |s.parts| && k <= |s.workers| && |t.parts| == |s.parts| && |t.workers| == |s.workers|
        && IsWorker(s, w)
    requires forall p: nat | p != w && IsWorker(s, p) :: t.parts[p] == s.parts[p] && t.workers[p] == s.workers[p]
    ensures LanesWeight(c, t, k) == LanesWeight(c, s, k) + if w < k then LaneWeight(c, t, w) - LaneWeight(c, s, w)
        else 0
  {
    if k > 0 {
      OneLaneChanges(c, s, t, w, k - 1);
    }
  }

  lemma Times(a: nat, b: nat)
    ensures (a + 1) * b == a * b + b
  {}

  lemma StepUsesWork(c: Config, s: State, a: Action)
    requires Inv(c, s) && Internal(a) && Enabled(c, s, a)
    ensures Shape(c, Apply(c, s, a)) && Work(c, Apply(c, s, a)) < Work(c, s)
  {
    hide LaneOk, BarrierOk, LogOk, Present;
    var t := Apply(c, s, a);
    var w := if a.SendSecond? then s.lock.to else a.w;
    if a.SendSecond? {
      Times(|s.parts[w]|, JobWeight(c));
    } else if a.Receive? {
      Times(|t.parts[w]|, JobWeight(c));
    } else if a.Attempt? {
      assert PhaseOk(c, s, w);
    }
    OneLaneChanges(c, s, t, w, c.n);
  }

  /** When requests stop and every run returns, the queue drains: no run of its
      own steps is longer than the work left, and until it is drained another
      step is possible. */
  lemma {:induction false} QueueDrains(c: Config, run: seq<State>, actions: seq<Action>)
    requires IsRun(c, run, actions) && Inv(c, run[0]) && forall a | a in actions :: Internal(a)
    ensures Inv(c, run[|actions|]) && |actions| + Work(c, run[|actions|]) <= Work(c, run[0])
    ensures !Drained(run[|actions|]) ==> exists a :: Internal(a) && Enabled(c, run[|actions|], a)
    decreases |actions|
  {
    hide Inv;
    RunKeepsInv(c, run, actions, |actions|);
    var n := |actions|;
    if n > 0 {
      QueueDrains(c, run[..n], actions[..n - 1]);
      assert actions[n - 1] in actions;
      StepUsesWork(c, run[n - 1], actions[n - 1]);
    } else {
      InvShape(c, run[0]);
    }
    if !Drained(run[n]) {
      var a := NeverStuck(c, run[n]);
    }
  }

  lemma InvShape(c: Config, s: State)
    requires Inv(c, s)
    ensures c.Valid() && Shape(c, s)
  {}

  /** After Close, a queue that cannot go on has drained and stopped its workers. */
  lemma ClosedQueueStops(c: Config, s: State, i: nat)
    requires Inv(c, s) && s.closed && i < c.n && forall a | Internal(a) :: !Enabled(c, s, a)
    ensures Drained(s) && s.workers[i].Stopped?
  {
    if !Drained(s) {
      var a := NeverStuck(c, s);
    } else {
      assert |Lane(s, i)| == |Current(s.workers[i])| + |s.parts[i]| == 0;
      assert s.workers[i].Idle? ==> Enabled(c, s, Stop(i));
    }
  }

  lemma RunningFacts(c: Config, s: State, w: nat)
    requires Inv(c, s) && w < c.n && s.workers[w].Running?
    ensures forall ok :: Enabled(c, s, Attempt(w, ok))
    ensures var r := s.records[s.workers[w].item.id];
            Open(c, r) && |r.runs| == s.workers[w].attempt - 1
  {
    HeadItem(c, s, w, s.workers[w].item);
    assert PhaseOk(c, s, w) && BarrierOk(c, s, s.workers[w].item.id);
  }

  /** The second half of a pair always finds room: the submitter never blocks. */
  lemma SecondSendNeverBlocks(c: Config, s: State)
    requires Inv(c, s) && s.lock.Second?
    ensures Enabled(c, s, SendSecond)
  {}

  /** A submitted job is queued whole or not at all: in every lane it has, now or
      with the second send, or in none and compensated on the spot. */
  lemma SubmitIsAllOrNothing(c: Config, s: State, job: Job)
    requires Inv(c, s) && Enabled(c, s, Submit(job))
    ensures var t, id, lanes := Apply(c, s, Submit(job)), |s.records|, LanesOf(c, s, job);
            && (job.key != "" ==> c.partition(job.key) in lanes)
            && (job.key2 != "" ==> c.partition(job.key2) in lanes)
            && if HasRoom(c, s, lanes) then
                 && t.records[id].lanes == lanes
                 && (|lanes| == 1 ==> InLane(t, lanes[0], id))
                 && (|lanes| == 2 ==>
                       Enabled(c, t, SendSecond)
                       && forall i | i in lanes :: InLane(Apply(c, t, SendSecond), i, id))
               else t.parts == s.parts && WasDropped(t.records[id])
  {
    hide LaneOk, PhaseOk, BarrierOk, LogOk, Present;
    var t, id, lanes := Apply(c, s, Submit(job)), |s.records|, LanesOf(c, s, job);
    if HasRoom(c, s, lanes) {
      assert lanes[0] in lanes;
      var p := lanes[0];
      assert Lane(t, p)[|Lane(s, p)|].id == id;
      if |lanes| == 2 {
        assert lanes[1] in lanes;
        var u, q := Apply(c, t, SendSecond), lanes[1];
        assert Lane(u, p)[|Lane(s, p)|].id == id;
        assert Lane(u, q)[|Lane(s, q)|].id == id;
      }
    }
  }

  // ---------------------------------------------------------------------
  // Ends
  // ---------------------------------------------------------------------

  predicate Succeeded(c: Config, r: Record) {
    && 1 <= |r.runs| <= c.maxAttempts && r.runs[|r.runs| - 1]
    && (forall k | 0 <= k < |r.runs| - 1 :: !r.runs[k])
    && r.compensations == 0
  }

  predicate RanOut(c: Config, r: Record) {
    && |r.lanes| > 0 && |r.runs| == c.maxAttempts && (forall k | 0 <= k < |r.runs| :: !r.runs[k])
    && r.compensations == Bit(r.job.compensates)
  }

  predicate WasDropped(r: Record) {
    r.lanes == [] && r.runs == [] && r.compensations == Bit(r.job.compensates)
  }

  /** Exactly one end: a success within the limit, one compensation after as many
      failures as the limit allows, or one compensation without a run. */
  lemma ThreeEnds(c: Config, s: State, id: nat)
    requires Inv(c, s) && id < |s.records|
    ensures var r := s.records[id];
            && Bit(Open(c, r)) + Bit(Succeeded(c, r)) + Bit(RanOut(c, r)) + Bit(WasDropped(r)) == 1
            && (Open(c, r) ==> r.compensations == 0)
  {
    hide LaneOk, PhaseOk, BarrierOk, LogOk, LockOk, Present;
    var r := s.records[id];
    assert RecordOk(c, r);
    assert forall k | 0 <= k < |r.runs| :: r.runs[k] in r.runs;
  }

  /** An end is for good. */
  lemma EndsAreFinal(c: Config, s: State, a: Action, id: nat)
    requires Inv(c, s) && Enabled(c, s, a) && id < |s.records| && !Open(c, s.records[id])
    ensures id < |Apply(c, s, a).records| && Apply(c, s, a).records[id] == s.records[id]
  {
    hide LaneOk, BarrierOk, LogOk, LockOk, Present;
    if a.Attempt? {
      HeadItem(c, s, a.w, s.workers[a.w].item);
      assert PhaseOk(c, s, a.w);
    }
  }
}
