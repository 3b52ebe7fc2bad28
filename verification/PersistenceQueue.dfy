// The persistence queue as an object: what its methods do to the state of the
// protocol when no other thread comes in between.

module PersistenceQueue {
  import opened QueueProtocol
  import opened QueueInvariant
  import opened QueueProgress

  /** What a submission comes to, in terms of the fields of the queue. */
  lemma SubmitFields(c: Config, s: State, job: Job)
    requires c.Valid() && Shape(c, s) && Enabled(c, s, Action.Submit(job))
    ensures var first := Apply(c, s, Action.Submit(job));
            var i, id := FirstLane(c, s, job), |s.records|;
            var j := if job.key2 != "" then c.partition(job.key2) else i;
            var base := s.(turn := if job.key != "" then s.turn else s.turn + 1);
            var dropped := base.(records := s.records + [Record(job, [], [], Bit(job.compensates))]);
            && i < |s.parts| && j < |s.parts|
            && (first.lock.Second? ==> |first.parts[j]| < c.capacity ==> Enabled(c, first, SendSecond))
            && if j == i then
                 first == if |s.parts[i]| < c.capacity then
                            base.(parts := s.parts[i := s.parts[i] + [Item(id, false, true)]],
                                  records := s.records + [Record(job, [i], [], 0)])
                          else dropped
               else if |s.parts[i]| < c.capacity && |s.parts[j]| < c.capacity then
                 && first.lock == Second(j, id) && Enabled(c, first, SendSecond)
                 && Apply(c, first, SendSecond) ==
                    base.(parts := s.parts[i := s.parts[i] + [Item(id, true, true)]]
                                          [j := s.parts[j] + [Item(id, true, false)]],
                          barriers := s.barriers[id := Barrier(0, false)],
                          records := s.records + [Record(job, [i, j], [], 0)])
               else first == dropped
  {
    var lanes := LanesOf(c, s, job);
    assert lanes[0] in lanes && (|lanes| == 2 ==> lanes[1] in lanes);
  }

  class Queue {
    const c: Config
    var parts: seq<seq<Item>>
    var workers: seq<Phase>
    var barriers: map<nat, Barrier>
    var turn: nat
    var closed: bool
    var submitted: nat
    ghost var records: seq<Record>
    ghost var log: seq<nat>

    ghost function View(): State
      reads this
    {
      State(parts, workers, barriers, Free, turn, closed, records, log)
    }

    ghost predicate Valid()
      reads this
    {
      submitted == |records| && Inv(c, View())
    }

    constructor (c: Config)
      requires c.Valid()
      ensures this.c == c && Valid() && View() == Initial(c)
    {
      this.c := c;
      parts, workers, barriers := seq(c.n, i => []), seq(c.n, i => Idle), map[];
      turn, closed, submitted := 0, false, 0;
      records, log := [], [];
      InitialInv(c);
    }

    /** Never blocks: a job that does not fit is compensated at once. */
    method Submit(job: Job)
      requires Valid() && !closed
      modifies this
      ensures Valid()
      ensures var first := Apply(c, old(View()), Action.Submit(job));
              View() == if first.lock.Second? then Apply(c, first, SendSecond) else first
    {
      hide Inv, LanesOf;
      ghost var s := View();
      InvShape(c, s);
      ghost var first := Apply(c, s, Action.Submit(job));
      SubmitFields(c, s, job);
      KeepStep(c, s, Action.Submit(job));
      if first.lock.Second? {
        SecondSendNeverBlocks(c, first);
        KeepStep(c, first, SendSecond);
      }
      var i: nat;
      if job.key != "" {
        i := c.partition(job.key);
      } else {
        turn := turn + 1;
        i := turn % c.n;
      }
      if job.key2 != "" {
        var j := c.partition(job.key2);
        if j != i {
          SubmitPair(job, i, j);
          return;
        }
      }
      if |parts[i]| < c.capacity {
        parts := parts[i := parts[i] + [Item(submitted, false, true)]];
        submitted := submitted + 1;
        records := records + [Record(job, [i], [], 0)];
      } else {
        DropFull(job);
      }
    }

    /** Queues both halves of a two-key job, or neither. */
    method SubmitPair(job: Job, i: nat, j: nat)
      requires submitted == |records| && i < |parts| && j < |parts| && i != j
      modifies this
      ensures submitted == |records|
      ensures workers == old(workers) && turn == old(turn) && closed == old(closed) && log == old(log)
      ensures var id := |old(records)|;
              if |old(parts)[i]| < c.capacity && |old(parts)[j]| < c.capacity then
                && parts == old(parts)[i := old(parts)[i] + [Item(id, true, true)]]
                                      [j := old(parts)[j] + [Item(id, true, false)]]
                && barriers == old(barriers)[id := Barrier(0, false)]
                && records == old(records) + [Record(job, [i, j], [], 0)]
              else
                && parts == old(parts) && barriers == old(barriers)
                && records == old(records) + [Record(job, [], [], Bit(job.compensates))]
    {
      if |parts[i]| >= c.capacity {
        DropFull(job);
        return;
      }
      if |parts[j]| >= c.capacity {
        DropFull(job);
        return;
      }
      barriers := barriers[submitted := Barrier(0, false)];
      parts := parts[i := parts[i] + [Item(submitted, true, true)]];
      parts := parts[j := parts[j] + [Item(submitted, true, false)]];
      submitted := submitted + 1;
      records := records + [Record(job, [i, j], [], 0)];
    }

    /** Counts the job as lost and calls its compensation, if it has one. */
    method DropFull(job: Job)
      requires submitted == |records|
      modifies this
      ensures submitted == |records|
      ensures records == old(records) + [Record(job, [], [], Bit(job.compensates))]
      ensures unchanged(`parts) && unchanged(`workers) && unchanged(`barriers)
      ensures unchanged(`turn) && unchanged(`closed) && unchanged(`log)
    {
      submitted := submitted + 1;
      records := records + [Record(job, [], [], Bit(job.compensates))];
    }

    /** One attempt at the job a worker has taken; `ended` tells whether it was the last. */
    method TryOnce(w: nat, ok: bool) returns (ended: bool)
      requires Valid() && w < |workers| && workers[w].Running?
      modifies this
      ensures Valid() && Enabled(c, old(View()), Attempt(w, ok))
      ensures View() == Apply(c, old(View()), Attempt(w, ok))
      ensures ended == Ends(c, old(View()), w, ok)
    {
      hide Inv, PhaseOk, Open, Attempted;
      ghost var s := View();
      InvShape(c, s);
      RunningFacts(c, s, w);
      ghost var t := Apply(c, s, Attempt(w, ok));
      AttemptEffect(c, s, w, ok);
      KeepStep(c, s, Attempt(w, ok));
      var it, attempt := workers[w].item, workers[w].attempt;
      ended := ok || attempt >= c.maxAttempts;
      records, log := t.records, t.log;
      if ended {
        if it.pair {
          barriers := barriers[it.id := barriers[it.id].(done := true)];
        }
        workers := workers[w := Idle];
      } else {
        workers := workers[w := Running(it, attempt + 1)];
      }
      assert View() == t;
    }

    /** Makes the attempts of the job a worker has taken, until one succeeds or
        there are none left. `outcome` tells how each attempt would go. */
    method Run(w: nat, outcome: seq<bool>) returns (attempts: nat)
      requires Valid() && w < |workers| && workers[w].Running? && workers[w].attempt == 1
      requires |outcome| == c.maxAttempts
      modifies this
      ensures Valid() && workers == old(workers)[w := Idle] && parts == old(parts)
      ensures var id := old(workers[w].item.id);
              && id < |old(records)| && |records| == |old(records)|
              && 1 <= attempts <= c.maxAttempts && records[id].runs == outcome[..attempts]
              && (Succeeded(c, records[id]) || RanOut(c, records[id]))
              && forall other | 0 <= other < |records| && other != id :: records[other] == old(records)[other]
    {
      hide Inv, PhaseOk, Attempted, Apply, Ends;
      ghost var start := View();
      InvShape(c, start);
      RunningFacts(c, start, w);
      var it := workers[w].item;
      attempts := 0;
      var ended := false;
      while !ended
        invariant Valid() && attempts <= c.maxAttempts && |workers| == |start.workers|
        invariant |records| == |start.records| && it.id < |records| && |records[it.id].lanes| > 0
        invariant workers == start.workers[w := if ended then Idle else Running(it, attempts + 1)]
            && parts == start.parts
        invariant records[it.id].runs == outcome[..attempts] && |records[it.id].runs| == attempts
        invariant ended <==> !Open(c, records[it.id])
        invariant forall other | 0 <= other < |records| && other != it.id :: records[other] == start.records[other]
        decreases c.maxAttempts - attempts
      {
        ghost var s := View();
        var ok := outcome[attempts];
        RunningFacts(c, s, w);
        AttemptEffect(c, s, w, ok);
        AttemptRecord(c, s, w, ok);
        assert outcome[..attempts] + [ok] == outcome[..attempts + 1];
        ended := TryOnce(w, ok);
        attempts := attempts + 1;
      }
      ThreeEnds(c, View(), it.id);
    }
  }
}
