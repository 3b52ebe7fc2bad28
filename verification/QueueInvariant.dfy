// Every step of the persistence queue keeps its invariant.

module QueueInvariant {
  import opened QueueProtocol

  lemma InitialInv(c: Config)
    requires c.Valid()
    ensures Inv(c, Initial(c))
  {}

  /** The lane of a worker that ends a job loses its head; other lanes stay. */
  ghost predicate Shrinks(s: State, t: State) {
    && |s.parts| == |t.parts| && |s.workers| == |t.workers|
    && forall p | IsWorker(s, p) ::
         Lane(t, p) == Lane(s, p) || (|Lane(s, p)| > 0 && Lane(t, p) == Lane(s, p)[1..])
  }

  lemma OldestKept(s: State, t: State, id: nat)
    requires Oldest(s, id) && Shrinks(s, t) && |t.records| == |s.records|
    requires t.records[id].lanes == s.records[id].lanes
    ensures Oldest(t, id)
  {
    forall p | p in t.records[id].lanes && IsWorker(t, p) ensures NoneOlder(Lane(t, p), id) {
      assert NoneOlder(Lane(s, p), id);
    }
  }

  /** Steps that make no attempt leave the history as it is. */
  lemma LogKept(s: State, t: State)
    requires LogOk(s) && Shrinks(s, t) && t.records == s.records && t.log == s.log
    ensures LogOk(t)
  {
    forall e | 0 <= e < |t.log| ensures Oldest(t, t.log[e]) {
      OldestKept(s, t, s.log[e]);
    }
  }

  lemma PresentKept(c: Config, s: State, t: State, id: nat)
    requires id < |s.records| && Present(c, s, id) && t.records == s.records && t.lock == s.lock
    requires Shrinks(s, t)
    requires Open(c, s.records[id]) ==>
               forall p | p in s.records[id].lanes && IsWorker(s, p) && |Lane(s, p)| > 0 && Lane(s, p)[0].id == id ::
                 Lane(t, p) == Lane(s, p)
    ensures Present(c, t, id)
  {
    if Open(c, s.records[id]) {
      forall i | i in s.records[id].lanes && t.lock != Second(i, id) ensures InLane(t, i, id) {
        assert InLane(s, i, id);
        var k :| 0 <= k < |Lane(s, i)| && Lane(s, i)[k].id == id;
        assert Lane(t, i) == Lane(s, i) || Lane(t, i)[k - 1].id == id;
      }
    }
  }

  lemma LockKept(c: Config, s: State, t: State)
    requires Shape(c, s) && LockOk(c, s) && t.records == s.records && t.lock == s.lock && Shrinks(s, t)
    requires t.closed == s.closed
    requires forall p | 0 <= p < |s.parts| :: |t.parts[p]| <= |s.parts[p]|
    ensures LockOk(c, t)
  {}

  /** A lane stays well formed when it keeps its items or loses its head. */
  lemma LaneKept(c: Config, s: State, t: State, i: nat)
    requires IsWorker(s, i) && IsWorker(t, i) && LaneOk(c, s, i) && |t.records| >= |s.records|
    requires Lane(t, i) == Lane(s, i) || (|Lane(s, i)| > 0 && Lane(t, i) == Lane(s, i)[1..])
    requires forall it | it in t.parts[i] :: it in s.parts[i]
    requires forall it | it in Lane(t, i) && it.id < |s.records| :: t.records[it.id].lanes == s.records[it.id].lanes
    requires forall it | it in t.parts[i] && it.id < |s.records| :: t.records[it.id].runs == s.records[it.id].runs
    requires s.closed ==> t.closed
    requires t.workers[i].Stopped? ==>
        (s.workers[i].Stopped? && t.parts[i] == s.parts[i]) || (t.closed && t.parts[i] == [])
    ensures LaneOk(c, t, i)
  {
    forall it | it in Lane(t, i) ensures ItemOk(t, i, it) {
      assert it in Lane(s, i) && ItemOk(s, i, it);
    }
  }

  /** A worker that does not move keeps its place while the others only get further. */
  lemma PhaseKept(c: Config, s: State, t: State, i: nat)
    requires IsWorker(s, i) && IsWorker(t, i) && LaneOk(c, s, i) && LaneOk(c, t, i) && PhaseOk(c, s, i)
    requires t.workers[i] == s.workers[i] && t.records == s.records
    requires forall w, id | 0 <= id < |s.records| && Open(c, s.records[id]) && HasArrived(s, w, id) ::
        HasArrived(t, w, id)
    ensures PhaseOk(c, t, i)
  {
    if !(t.workers[i].Idle? || t.workers[i].Stopped?) {
      assert t.workers[i].item in Lane(s, i) && ItemOk(s, i, t.workers[i].item);
    }
  }

  lemma BarrierKept(c: Config, s: State, t: State, id: nat)
    requires id < |s.records| && id < |t.records| && BarrierOk(c, s, id) && t.records[id] == s.records[id]
    requires id in s.barriers ==> id in t.barriers && t.barriers[id] == s.barriers[id]
    requires |s.records[id].lanes| == 2 && Open(c, s.records[id]) ==>
               forall w | w in s.records[id].lanes :: HasArrived(t, w, id) == HasArrived(s, w, id)
    ensures BarrierOk(c, t, id)
  {
    var l := s.records[id].lanes;
    if |l| == 2 {
      assert l[0] in l && l[1] in l;
    }
  }

  lemma HeadItem(c: Config, s: State, w: nat, it: Item)
    requires Inv(c, s) && w < c.n && it in Lane(s, w)
    ensures ItemOk(s, w, it) && (it in s.parts[w] ==> s.records[it.id].runs == [])
    ensures it.pair == (|s.records[it.id].lanes| == 2)
  {
    assert LaneOk(c, s, w);
  }

  /** The steps of worker `w` that make no attempt and leave everyone else alone. */
  ghost predicate OwnStep(s: State, t: State, w: nat) {
    && IsWorker(s, w) && |t.parts| == |s.parts| && |t.workers| == |s.workers|
    && t.lock == s.lock && t.records == s.records && t.log == s.log && t.closed == s.closed
    && (forall p | 0 <= p < |s.parts| && p != w :: t.parts[p] == s.parts[p])
    && (forall p | 0 <= p < |s.workers| && p != w :: t.workers[p] == s.workers[p])
    && |t.parts[w]| <= |s.parts[w]| && (forall it | it in t.parts[w] :: it in s.parts[w])
    && (t.workers[w].Stopped? ==> t.closed && t.parts[w] == [])
  }

  /** ... keep the invariant if the worker's own phase and the barriers are in
      order, it has not gone back, and it only lets go of a job that has ended. */
  lemma KeepOwnStep(c: Config, s: State, t: State, w: nat)
    requires Inv(c, s) && OwnStep(s, t, w)
    requires Lane(t, w) == Lane(s, w)
             || (|Lane(s, w)| > 0 && Lane(t, w) == Lane(s, w)[1..] && Lane(s, w)[0].id < |s.records|
                 && !Open(c, s.records[Lane(s, w)[0].id]))
    requires LaneOk(c, t, w) ==> PhaseOk(c, t, w)
    requires forall id | 0 <= id < |s.records| && Open(c, s.records[id]) && HasArrived(s, w, id) :: HasArrived(t, w, id)
    requires forall id | 0 <= id < |s.records| :: BarrierOk(c, s, id) ==> BarrierOk(c, t, id)
    ensures Inv(c, t)
  {
    hide LaneOk, PhaseOk, BarrierOk, Present, RecordOk, LogOk, LockOk, Open, ItemOk;
    assert forall p | 0 <= p < c.n && p != w :: Lane(t, p) == Lane(s, p);
    forall i | 0 <= i < c.n ensures LaneOk(c, t, i) && PhaseOk(c, t, i) {
      assert LaneOk(c, s, i) && PhaseOk(c, s, i);
      LaneKept(c, s, t, i);
      if i != w {
        PhaseKept(c, s, t, i);
      }
    }
    forall id | 0 <= id < |t.records| ensures RecordOk(c, t.records[id]) && BarrierOk(c, t, id) && Present(c, t, id) {
      assert RecordOk(c, s.records[id]) && BarrierOk(c, s, id) && Present(c, s, id);
      PresentKept(c, s, t, id);
    }
    LockKept(c, s, t);
    LogKept(s, t);
  }

  lemma KeepReceive(c: Config, s: State, w: nat)
    requires Inv(c, s) && Enabled(c, s, Receive(w))
    ensures Inv(c, Apply(c, s, Receive(w)))
  {
    hide LaneOk, Present, RecordOk, LogOk, LockOk;
    var t, it := Apply(c, s, Receive(w)), s.parts[w][0];
    HeadItem(c, s, w, it);
    forall id | 0 <= id < |s.records| && BarrierOk(c, s, id) ensures BarrierOk(c, t, id) {
      BarrierKept(c, s, t, id);
    }
    KeepOwnStep(c, s, t, w);
  }

  lemma ArrivedBarrier(c: Config, s: State, w: nat)
    requires Inv(c, s) && Enabled(c, s, Arrive(w)) && s.workers[w].item.id < |s.records|
    requires BarrierOk(c, s, s.workers[w].item.id)
    ensures BarrierOk(c, Apply(c, s, Arrive(w)), s.workers[w].item.id)
  {
    hide Present, LogOk, LockOk;
    var t, it := Apply(c, s, Arrive(w)), s.workers[w].item;
    var l := s.records[it.id].lanes;
    HeadItem(c, s, w, it);
    assert PhaseOk(c, s, w) && RecordOk(c, s.records[it.id]);
    assert l[0] != l[1] && (w == l[0] || w == l[1]);
    assert Open(c, s.records[it.id]);
    assert HasArrived(t, l[0], it.id) == (w == l[0] || HasArrived(s, l[0], it.id));
    assert HasArrived(t, l[1], it.id) == (w == l[1] || HasArrived(s, l[1], it.id));
  }

  lemma KeepArrive(c: Config, s: State, w: nat)
    requires Inv(c, s) && Enabled(c, s, Arrive(w))
    ensures Inv(c, Apply(c, s, Arrive(w)))
  {
    hide LaneOk, Present, RecordOk, LogOk, LockOk;
    var t, it := Apply(c, s, Arrive(w)), s.workers[w].item;
    HeadItem(c, s, w, it);
    assert PhaseOk(c, s, w) && RecordOk(c, s.records[it.id]);
    forall id | 0 <= id < |s.records| && BarrierOk(c, s, id) ensures BarrierOk(c, t, id) {
      if id != it.id {
        BarrierKept(c, s, t, id);
      } else {
        ArrivedBarrier(c, s, w);
      }
    }
    KeepOwnStep(c, s, t, w);
  }

  lemma KeepPass(c: Config, s: State, w: nat)
    requires Inv(c, s) && Enabled(c, s, Pass(w))
    ensures Inv(c, Apply(c, s, Pass(w)))
  {
    hide LaneOk, Present, RecordOk, LogOk, LockOk;
    var t, it := Apply(c, s, Pass(w)), s.workers[w].item;
    HeadItem(c, s, w, it);
    assert PhaseOk(c, s, w) && BarrierOk(c, s, it.id);
    forall id | 0 <= id < |s.records| && BarrierOk(c, s, id) ensures BarrierOk(c, t, id) {
      BarrierKept(c, s, t, id);
    }
    KeepOwnStep(c, s, t, w);
  }

  lemma KeepRelease(c: Config, s: State, w: nat)
    requires Inv(c, s) && Enabled(c, s, Release(w))
    ensures Inv(c, Apply(c, s, Release(w)))
  {
    hide LaneOk, Present, RecordOk, LogOk, LockOk;
    var t, it := Apply(c, s, Release(w)), s.workers[w].item;
    HeadItem(c, s, w, it);
    assert PhaseOk(c, s, w) && BarrierOk(c, s, it.id);
    forall id | 0 <= id < |s.records| && BarrierOk(c, s, id) ensures BarrierOk(c, t, id) {
      BarrierKept(c, s, t, id);
    }
    KeepOwnStep(c, s, t, w);
  }

  lemma KeepStop(c: Config, s: State, w: nat)
    requires Inv(c, s) && Enabled(c, s, Stop(w))
    ensures Inv(c, Apply(c, s, Stop(w)))
  {
    hide LaneOk, Present, RecordOk, LogOk, LockOk;
    var t := Apply(c, s, Stop(w));
    forall id | 0 <= id < |s.records| && BarrierOk(c, s, id) ensures BarrierOk(c, t, id) {
      BarrierKept(c, s, t, id);
    }
    KeepOwnStep(c, s, t, w);
  }

  // ---------------------------------------------------------------------
  // Attempts
  // ---------------------------------------------------------------------

  /** A running job is the head of every lane it is in. */
  lemma RunningIsHead(c: Config, s: State, w: nat, p: nat)
    requires Inv(c, s) && w < c.n && s.workers[w].Running?
    requires s.workers[w].item.id < |s.records| && p in s.records[s.workers[w].item.id].lanes
    ensures p < c.n && |Lane(s, p)| > 0 && Lane(s, p)[0].id == s.workers[w].item.id
    ensures p != w ==> HasArrived(s, p, s.workers[w].item.id)
  {
    hide Present, LogOk, LockOk, BarrierOk;
    var it := s.workers[w].item;
    HeadItem(c, s, w, it);
    assert PhaseOk(c, s, w) && RecordOk(c, s.records[it.id]);
    if p != w {
      assert s.records[it.id].lanes[1] == p;
    }
  }

  lemma SharedLane(c: Config, s: State, a: nat, b: nat) returns (p: nat)
    requires Inv(c, s) && a < |s.records| && b < |s.records|
    requires |s.records[a].lanes| > 0 && |s.records[b].lanes| > 0
    requires SharesKey(s.records[a].job, s.records[b].job)
    ensures p in s.records[a].lanes && p in s.records[b].lanes && p < c.n
  {
    var j, k := s.records[a].job, s.records[b].job;
    p := c.partition(if j.key != "" && (j.key == k.key || j.key == k.key2) then j.key else j.key2);
    assert RecordOk(c, s.records[a]) && RecordOk(c, s.records[b]);
  }

  /** Jobs that share a key never run at the same time. */
  lemma MutualExclusion(c: Config, s: State, v: nat, w: nat)
    requires Inv(c, s) && v < c.n && w < c.n && s.workers[v].Running? && s.workers[w].Running?
    ensures s.workers[v].item.id < |s.records| && s.workers[w].item.id < |s.records|
    ensures SharesKey(s.records[s.workers[v].item.id].job, s.records[s.workers[w].item.id].job) ==> v == w
  {
    var a, b := s.workers[v].item, s.workers[w].item;
    HeadItem(c, s, v, a);
    HeadItem(c, s, w, b);
    if SharesKey(s.records[a.id].job, s.records[b.id].job) {
      var p := SharedLane(c, s, a.id, b.id);
      RunningIsHead(c, s, v, p);
      RunningIsHead(c, s, w, p);
      assert PhaseOk(c, s, v) && PhaseOk(c, s, w);
    }
  }

  lemma ChannelIsBehind(c: Config, s: State, p: nat, it: Item)
    requires IsWorker(s, p) && LaneOk(c, s, p) && it in s.parts[p] && !s.workers[p].Idle? && !s.workers[p].Stopped?
    ensures s.workers[p].item.id < it.id
  {
    var k :| 0 <= k < |s.parts[p]| && s.parts[p][k] == it;
    assert Lane(s, p)[0] == s.workers[p].item && Lane(s, p)[1 + k] == it;
  }

  /** Nobody holds the running job in a channel. */
  lemma RunningIsAlone(c: Config, s: State, w: nat, p: nat, it: Item)
    requires Inv(c, s) && w < c.n && s.workers[w].Running? && p < c.n && it in s.parts[p]
    ensures it.id != s.workers[w].item.id
  {
    hide Present, LogOk, LockOk, BarrierOk, PhaseOk;
    HeadItem(c, s, w, s.workers[w].item);
    HeadItem(c, s, p, it);
    assert LaneOk(c, s, p);
    if it.id == s.workers[w].item.id {
      RunningIsHead(c, s, w, p);
      ChannelIsBehind(c, s, p, it);
    }
  }

  predicate Ends(c: Config, s: State, w: nat, ok: bool)
    requires IsWorker(s, w) && s.workers[w].Running?
  {
    ok || s.workers[w].attempt >= c.maxAttempts
  }

  /** What an attempt changes: its job's record, its worker, and its barrier. */
  lemma AttemptEffect(c: Config, s: State, w: nat, ok: bool)
    requires Enabled(c, s, Attempt(w, ok))
    ensures var t, it, k := Apply(c, s, Attempt(w, ok)), s.workers[w].item, s.workers[w].attempt;
            && t.parts == s.parts && t.lock == s.lock && t.closed == s.closed && t.turn == s.turn
            && |t.records| == |s.records|
            && t.barriers == (if Ends(c, s, w, ok) && it.pair
                              then s.barriers[it.id := s.barriers[it.id].(done := true)] else s.barriers)
            && t.log == s.log + [it.id]
            && (forall id | 0 <= id < |s.records| ::
                  t.records[id].lanes == s.records[id].lanes && t.records[id].job == s.records[id].job
                  && (id != it.id ==> t.records[id] == s.records[id]))
            && t.records[it.id].runs == s.records[it.id].runs + [ok]
            && t.workers == s.workers[w := if Ends(c, s, w, ok) then Idle else Running(it, k + 1)]
            && (forall p | 0 <= p < |s.parts| && IsWorker(s, p) ::
                  Lane(t, p) == if p == w && Ends(c, s, w, ok) then Lane(s, p)[1..] else Lane(s, p))
  {}

  lemma AttemptLanes(c: Config, s: State, w: nat, ok: bool, i: nat)
    requires Inv(c, s) && Enabled(c, s, Attempt(w, ok)) && i < c.n
    ensures LaneOk(c, Apply(c, s, Attempt(w, ok)), i)
  {
    hide LaneOk, PhaseOk, BarrierOk, Present, RecordOk, LogOk, LockOk, Attempted;
    var t := Apply(c, s, Attempt(w, ok));
    AttemptEffect(c, s, w, ok);
    assert LaneOk(c, s, i);
    forall it | it in t.parts[i] ensures it.id != s.workers[w].item.id {
      RunningIsAlone(c, s, w, i, it);
    }
    LaneKept(c, s, t, i);
  }

  /** What a worker other than the running one can be doing with the same job. */
  lemma PartnerPhase(c: Config, s: State, w: nat, i: nat)
    requires Inv(c, s) && w < c.n && i < c.n && i != w && s.workers[w].Running?
    requires !s.workers[i].Idle? && !s.workers[i].Stopped? && s.workers[i].item.id == s.workers[w].item.id
    ensures !s.workers[i].item.lead && s.workers[i].item.pair
    ensures s.workers[i].AtBarrier? || s.workers[i].WaitingDone?
  {
    hide Present, LogOk, LockOk, BarrierOk;
    HeadItem(c, s, w, s.workers[w].item);
    HeadItem(c, s, i, s.workers[i].item);
    RunningIsHead(c, s, w, i);
    assert PhaseOk(c, s, w) && PhaseOk(c, s, i);
  }

  lemma AttemptPhases(c: Config, s: State, w: nat, ok: bool, i: nat)
    requires Inv(c, s) && Enabled(c, s, Attempt(w, ok)) && i < c.n
    requires LaneOk(c, Apply(c, s, Attempt(w, ok)), i)
    ensures PhaseOk(c, Apply(c, s, Attempt(w, ok)), i)
  {
    hide LaneOk, BarrierOk, Present, LogOk, LockOk, Attempted;
    var t, it := Apply(c, s, Attempt(w, ok)), s.workers[w].item;
    AttemptEffect(c, s, w, ok);
    HeadItem(c, s, w, it);
    assert PhaseOk(c, s, w) && PhaseOk(c, s, i) && LaneOk(c, s, i) && RecordOk(c, s.records[it.id]);
    if i != w && !(s.workers[i].Idle? || s.workers[i].Stopped?) {
      var jt := s.workers[i].item;
      HeadItem(c, s, i, jt);
      if jt.id == it.id {
        PartnerPhase(c, s, w, i);
      } else {
        StillArrived(c, s, w, ok, jt.id);
      }
    }
  }

  lemma StillArrived(c: Config, s: State, w: nat, ok: bool, id: nat)
    requires Enabled(c, s, Attempt(w, ok)) && id != s.workers[w].item.id
    ensures forall v: nat :: HasArrived(Apply(c, s, Attempt(w, ok)), v, id) == HasArrived(s, v, id)
  {}

  lemma AttemptRecord(c: Config, s: State, w: nat, ok: bool)
    requires Inv(c, s) && Enabled(c, s, Attempt(w, ok))
    ensures var t, id := Apply(c, s, Attempt(w, ok)), s.workers[w].item.id;
            RecordOk(c, t.records[id]) && (Open(c, t.records[id]) <==> !Ends(c, s, w, ok))
  {
    hide BarrierOk, Present, LogOk, LockOk;
    var id := s.workers[w].item.id;
    HeadItem(c, s, w, s.workers[w].item);
    assert PhaseOk(c, s, w) && RecordOk(c, s.records[id]);
    var runs := s.records[id].runs;
    assert forall k | 0 <= k < |runs| :: runs[k] in runs;
  }

  lemma AttemptBarrier(c: Config, s: State, w: nat, ok: bool, id: nat)
    requires Inv(c, s) && Enabled(c, s, Attempt(w, ok)) && id < |s.records|
    ensures BarrierOk(c, Apply(c, s, Attempt(w, ok)), id)
  {
    hide LaneOk, Present, LogOk, LockOk;
    var t, it := Apply(c, s, Attempt(w, ok)), s.workers[w].item;
    AttemptRecord(c, s, w, ok);
    HeadItem(c, s, w, it);
    assert BarrierOk(c, s, id) && PhaseOk(c, s, w);
    if id != it.id {
      StillArrived(c, s, w, ok, id);
    } else if it.pair {
      var l := s.records[id].lanes;
      assert HasArrived(s, l[0], id) && HasArrived(s, l[1], id);
      assert !Ends(c, s, w, ok) ==> HasArrived(t, l[0], id) && HasArrived(t, l[1], id);
    }
  }

  lemma AttemptPresence(c: Config, s: State, w: nat, ok: bool, id: nat)
    requires Inv(c, s) && Enabled(c, s, Attempt(w, ok)) && id < |s.records|
    ensures Present(c, Apply(c, s, Attempt(w, ok)), id)
  {
    hide LaneOk, PhaseOk, BarrierOk, LogOk, LockOk, Attempted;
    var t, it := Apply(c, s, Attempt(w, ok)), s.workers[w].item;
    AttemptEffect(c, s, w, ok);
    AttemptRecord(c, s, w, ok);
    HeadItem(c, s, w, it);
    assert Present(c, s, id);
    if Open(c, t.records[id]) {
      assert Open(c, s.records[id]);
      forall i | i in t.records[id].lanes && t.lock != Second(i, id) ensures InLane(t, i, id) {
        assert InLane(s, i, id);
        var k :| 0 <= k < |Lane(s, i)| && Lane(s, i)[k].id == id;
        assert Lane(t, i) == Lane(s, i) || Lane(t, i)[k - 1].id == id;
      }
    }
  }

  /** Whoever runs is no younger than any job run before it that shares a key. */
  lemma RunsInOrder(c: Config, s: State, w: nat, d: nat)
    requires Inv(c, s) && w < c.n && s.workers[w].Running? && d < |s.log|
    requires s.log[d] < |s.records| && s.workers[w].item.id < |s.records|
    requires SharesKey(s.records[s.log[d]].job, s.records[s.workers[w].item.id].job)
    ensures s.log[d] <= s.workers[w].item.id
  {
    hide LaneOk, PhaseOk, BarrierOk, Present, LockOk;
    var id, e := s.workers[w].item.id, s.log[d];
    HeadItem(c, s, w, s.workers[w].item);
    assert Oldest(s, e) && RecordOk(c, s.records[e]);
    assert multiset(s.log)[e] == |s.records[e].runs| && e in s.log;
    var p := SharedLane(c, s, e, id);
    RunningIsHead(c, s, w, p);
    assert NoneOlder(Lane(s, p), e);
  }

  lemma RunningIsOldest(c: Config, s: State, w: nat)
    requires Inv(c, s) && w < c.n && s.workers[w].Running?
    ensures Oldest(s, s.workers[w].item.id)
  {
    hide PhaseOk, BarrierOk, Present, LockOk, LogOk;
    var id := s.workers[w].item.id;
    HeadItem(c, s, w, s.workers[w].item);
    forall p | p in s.records[id].lanes && IsWorker(s, p) ensures NoneOlder(Lane(s, p), id) {
      RunningIsHead(c, s, w, p);
      assert LaneOk(c, s, p);
    }
  }

  lemma AttemptLog(c: Config, s: State, w: nat, ok: bool)
    requires Inv(c, s) && Enabled(c, s, Attempt(w, ok))
    ensures LogOk(Apply(c, s, Attempt(w, ok)))
  {
    hide LaneOk, PhaseOk, BarrierOk, Present, LockOk, RecordOk, Attempted;
    var t, id := Apply(c, s, Attempt(w, ok)), s.workers[w].item.id;
    AttemptEffect(c, s, w, ok);
    RunningIsOldest(c, s, w);
    forall e | 0 <= e < |t.log| ensures Oldest(t, t.log[e]) {
      assert e < |s.log| ==> Oldest(s, s.log[e]);
      OldestKept(s, t, t.log[e]);
    }
    forall d, e | 0 <= d < e < |t.log| && SharesKey(t.records[t.log[d]].job, t.records[t.log[e]].job)
      ensures t.log[d] <= t.log[e]
    {
      assert Oldest(s, s.log[d]);
      if e == |s.log| {
        RunsInOrder(c, s, w, d);
      }
    }
  }

  lemma KeepAttempt(c: Config, s: State, w: nat, ok: bool)
    requires Inv(c, s) && Enabled(c, s, Attempt(w, ok))
    ensures Inv(c, Apply(c, s, Attempt(w, ok)))
  {
    hide LaneOk, PhaseOk, BarrierOk, Present, LogOk, RecordOk, Attempted;
    var t, it := Apply(c, s, Attempt(w, ok)), s.workers[w].item;
    AttemptEffect(c, s, w, ok);
    AttemptRecord(c, s, w, ok);
    AttemptLog(c, s, w, ok);
    forall i | 0 <= i < c.n ensures LaneOk(c, t, i) && PhaseOk(c, t, i) {
      AttemptLanes(c, s, w, ok, i);
      AttemptPhases(c, s, w, ok, i);
    }
    forall id | 0 <= id < |t.records| ensures RecordOk(c, t.records[id]) && BarrierOk(c, t, id) && Present(c, t, id) {
      AttemptBarrier(c, s, w, ok, id);
      AttemptPresence(c, s, w, ok, id);
      assert RecordOk(c, s.records[id]);
    }
    AttemptLock(c, s, w, ok);
  }

  /** A job whose second half is still to be sent cannot be running. */
  lemma AttemptLock(c: Config, s: State, w: nat, ok: bool)
    requires Inv(c, s) && Enabled(c, s, Attempt(w, ok))
    ensures LockOk(c, Apply(c, s, Attempt(w, ok)))
  {
    hide LaneOk, PhaseOk, BarrierOk, Present, LogOk, RecordOk, Attempted;
    var t, it := Apply(c, s, Attempt(w, ok)), s.workers[w].item;
    AttemptEffect(c, s, w, ok);
    HeadItem(c, s, w, it);
    if s.lock.Second? && s.lock.id == it.id {
      RunningIsHead(c, s, w, s.lock.to);
    }
  }

  // ---------------------------------------------------------------------
  // Submitting
  // ---------------------------------------------------------------------

  /** One lane may gain an item newer than all it holds; records are only added. */
  ghost predicate Grows(s: State, t: State) {
    && |t.parts| == |s.parts| && t.workers == s.workers && t.log == s.log && t.closed == s.closed
    && s.records <= t.records
    && forall p: nat | IsWorker(s, p) :: GrowsAt(s, t, p)
  }

  ghost predicate GrowsAt(s: State, t: State, p: nat)
    requires IsWorker(s, p) && IsWorker(t, p)
  {
    || t.parts[p] == s.parts[p]
    || exists it :: t.parts[p] == s.parts[p] + [it] && NewItem(s, t, p, it)
  }

  ghost predicate NewItem(s: State, t: State, p: nat, it: Item)
    requires IsWorker(s, p)
  {
    && ItemOk(t, p, it) && t.records[it.id].runs == [] && !t.closed && it.id + 1 == |t.records|
    && forall k | 0 <= k < |Lane(s, p)| :: Lane(s, p)[k].id < it.id
  }

  lemma GrownLane(c: Config, s: State, t: State, i: nat)
    requires Grows(s, t) && IsWorker(s, i) && LaneOk(c, s, i) && PhaseOk(c, s, i)
    requires forall w, id | 0 <= id < |s.records| :: HasArrived(s, w, id) == HasArrived(t, w, id)
    ensures LaneOk(c, t, i) && PhaseOk(c, t, i)
  {
    forall it | it in Lane(t, i) ensures ItemOk(t, i, it) {
      assert it in Lane(s, i) ==> ItemOk(s, i, it);
    }
    assert Sorted(Lane(t, i)) by {
      if t.parts[i] != s.parts[i] {
        var it :| t.parts[i] == s.parts[i] + [it] && NewItem(s, t, i, it);
        assert Lane(t, i) == Lane(s, i) + [it];
      }
    }
    if !(s.workers[i].Idle? || s.workers[i].Stopped?) {
      assert s.workers[i].item in Lane(s, i) && ItemOk(s, i, s.workers[i].item);
    }
  }

  lemma GrownLog(c: Config, s: State, t: State)
    requires LogOk(s) && Grows(s, t)
    requires forall id | |s.records| <= id < |t.records| :: t.records[id].runs == []
    ensures LogOk(t)
  {
    forall e | 0 <= e < |t.log| ensures Oldest(t, t.log[e]) {
      var id := s.log[e];
      assert Oldest(s, id);
      forall p | p in t.records[id].lanes && IsWorker(t, p) ensures NoneOlder(Lane(t, p), id) {
        assert NoneOlder(Lane(s, p), id) && GrowsAt(s, t, p);
        if t.parts[p] != s.parts[p] {
          var it :| t.parts[p] == s.parts[p] + [it] && NewItem(s, t, p, it);
          assert Lane(t, p) == Lane(s, p) + [it];
        }
      }
    }
    forall id | 0 <= id < |t.records| ensures multiset(t.log)[id] == |t.records[id].runs| {
      if id >= |s.records| {
        assert id !in s.log by {
          assert forall e | 0 <= e < |s.log| :: Oldest(s, s.log[e]);
        }
      }
    }
  }

  /** An older job stays where it was. */
  lemma GrownPresence(c: Config, s: State, t: State, id: nat)
    requires Grows(s, t) && id < |s.records| && Present(c, s, id)
    requires forall i | Second(i, id) == s.lock :: t.lock == s.lock || InLane(t, i, id)
    ensures Present(c, t, id)
  {
    if Open(c, t.records[id]) {
      forall i | i in t.records[id].lanes && t.lock != Second(i, id) ensures InLane(t, i, id) {
        if s.lock != Second(i, id) {
          assert InLane(s, i, id);
          var k :| 0 <= k < |Lane(s, i)| && Lane(s, i)[k].id == id;
          assert Lane(t, i)[k] == Lane(s, i)[k];
        }
      }
    }
  }

  lemma KeepSendSecond(c: Config, s: State)
    requires Inv(c, s) && Enabled(c, s, SendSecond)
    ensures Inv(c, Apply(c, s, SendSecond))
  {
    hide LaneOk, PhaseOk, BarrierOk, Present, LogOk, RecordOk;
    var t, to, id := Apply(c, s, SendSecond), s.lock.to, s.lock.id;
    var it := Item(id, true, false);
    assert RecordOk(c, s.records[id]) ==> ItemOk(t, to, it) by {
      SecondItem(c, s);
    }
    assert RecordOk(c, s.records[id]);
    assert t.parts[to] == s.parts[to] + [it] && NewItem(s, t, to, it);
    assert GrowsAt(s, t, to);
    assert Grows(s, t);
    forall i | 0 <= i < c.n ensures LaneOk(c, t, i) && PhaseOk(c, t, i) {
      assert LaneOk(c, s, i) && PhaseOk(c, s, i);
      GrownLane(c, s, t, i);
    }
    forall j | 0 <= j < |t.records| ensures RecordOk(c, t.records[j]) && BarrierOk(c, t, j) && Present(c, t, j) {
      assert RecordOk(c, s.records[j]) && BarrierOk(c, s, j) && Present(c, s, j);
      BarrierKept(c, s, t, j);
      assert Lane(t, to)[|Lane(s, to)|] == it;
      GrownPresence(c, s, t, j);
    }
    GrownLog(c, s, t);
  }

  lemma SecondItem(c: Config, s: State)
    requires LockOk(c, s) && s.lock.Second? && RecordOk(c, s.records[s.lock.id])
    ensures ItemOk(s, s.lock.to, Item(s.lock.id, true, false))
  {}

  /** A new record: dropped, or queued in its lanes. */
  lemma NewRecordOk(c: Config, s: State, job: Job)
    requires c.Valid() && Enabled(c, s, Submit(job))
    ensures RecordOk(c, Record(job, LanesOf(c, s, job), [], 0)) && Open(c, Record(job, LanesOf(c, s, job), [], 0))
    ensures RecordOk(c, Record(job, [], [], Bit(job.compensates)))
  {
    var l := LanesOf(c, s, job);
    assert l[0] in l && (|l| == 2 ==> l[1] in l);
  }

  lemma KeepDropped(c: Config, s: State, job: Job)
    requires Inv(c, s) && Enabled(c, s, Submit(job)) && !HasRoom(c, s, LanesOf(c, s, job))
    ensures Inv(c, Apply(c, s, Submit(job)))
  {
    hide LaneOk, PhaseOk, BarrierOk, Present, LogOk, RecordOk, LanesOf;
    var t := Apply(c, s, Submit(job));
    NewRecordOk(c, s, job);
    assert Grows(s, t);
    forall i | 0 <= i < c.n ensures LaneOk(c, t, i) && PhaseOk(c, t, i) {
      assert LaneOk(c, s, i) && PhaseOk(c, s, i);
      GrownLane(c, s, t, i);
    }
    forall id | 0 <= id < |t.records| ensures RecordOk(c, t.records[id]) && BarrierOk(c, t, id) && Present(c, t, id) {
      if id < |s.records| {
        assert RecordOk(c, s.records[id]) && BarrierOk(c, s, id) && Present(c, s, id);
        BarrierKept(c, s, t, id);
        GrownPresence(c, s, t, id);
      } else {
        NoLanes(c, t, id);
      }
    }
    GrownLog(c, s, t);
  }

  lemma NoLanes(c: Config, t: State, id: nat)
    requires id < |t.records| && t.records[id].lanes == []
    ensures BarrierOk(c, t, id) && Present(c, t, id)
  {}

  lemma KeepAccepted(c: Config, s: State, job: Job)
    requires Inv(c, s) && Enabled(c, s, Submit(job)) && HasRoom(c, s, LanesOf(c, s, job))
    ensures Inv(c, Apply(c, s, Submit(job)))
  {
    hide LaneOk, PhaseOk, BarrierOk, Present, LogOk, LockOk, RecordOk, LanesOf;
    var t, lanes, newest := Apply(c, s, Submit(job)), LanesOf(c, s, job), |s.records|;
    NewRecordOk(c, s, job);
    var it := Item(newest, |lanes| == 2, true);
    assert lanes[0] in lanes;
    LanesBelow(c, s, lanes[0]);
    assert t.parts[lanes[0]] == s.parts[lanes[0]] + [it] && NewItem(s, t, lanes[0], it);
    assert GrowsAt(s, t, lanes[0]);
    assert Grows(s, t);
    forall i | 0 <= i < c.n ensures LaneOk(c, t, i) && PhaseOk(c, t, i) {
      assert LaneOk(c, s, i) && PhaseOk(c, s, i);
      GrownLane(c, s, t, i);
    }
    forall id | 0 <= id < |t.records| ensures RecordOk(c, t.records[id]) && BarrierOk(c, t, id) && Present(c, t, id) {
      if id < newest {
        assert RecordOk(c, s.records[id]) && BarrierOk(c, s, id) && Present(c, s, id);
        BarrierKept(c, s, t, id);
        GrownPresence(c, s, t, id);
      } else {
        NewBarrier(c, s, job);
        NewPresence(c, s, job);
      }
    }
    GrownLog(c, s, t);
    NewLock(c, s, job);
  }

  lemma LanesBelow(c: Config, s: State, p: nat)
    requires IsWorker(s, p) && LaneOk(c, s, p)
    ensures forall k | 0 <= k < |Lane(s, p)| :: Lane(s, p)[k].id < |s.records|
  {
    forall k | 0 <= k < |Lane(s, p)| ensures Lane(s, p)[k].id < |s.records| {
      assert ItemOk(s, p, Lane(s, p)[k]);
    }
  }

  lemma NewBarrier(c: Config, s: State, job: Job)
    requires Inv(c, s) && Enabled(c, s, Submit(job)) && HasRoom(c, s, LanesOf(c, s, job))
    ensures BarrierOk(c, Apply(c, s, Submit(job)), |s.records|)
  {
    hide Present, LogOk, LockOk;
    forall w: nat ensures !HasArrived(s, w, |s.records|) {
      if HasArrived(s, w, |s.records|) {
        assert s.workers[w].item in Lane(s, w);
        HeadItem(c, s, w, s.workers[w].item);
      }
    }
    NewRecordOk(c, s, job);
    var t, lanes := Apply(c, s, Submit(job)), LanesOf(c, s, job);
    assert t.records[|s.records|] == Record(job, lanes, [], 0);
    if |lanes| == 2 {
      assert !HasArrived(t, lanes[0], |s.records|) == !HasArrived(s, lanes[0], |s.records|);
      assert !HasArrived(t, lanes[1], |s.records|) == !HasArrived(s, lanes[1], |s.records|);
    }
  }

  lemma NewPresence(c: Config, s: State, job: Job)
    requires Inv(c, s) && Enabled(c, s, Submit(job)) && HasRoom(c, s, LanesOf(c, s, job))
    ensures Present(c, Apply(c, s, Submit(job)), |s.records|)
  {
    var t, lanes := Apply(c, s, Submit(job)), LanesOf(c, s, job);
    assert lanes[0] in lanes;
    assert Lane(t, lanes[0])[|Lane(s, lanes[0])|].id == |s.records|;
  }

  lemma NewLock(c: Config, s: State, job: Job)
    requires Inv(c, s) && Enabled(c, s, Submit(job)) && HasRoom(c, s, LanesOf(c, s, job))
    ensures LockOk(c, Apply(c, s, Submit(job)))
  {
    var t, lanes := Apply(c, s, Submit(job)), LanesOf(c, s, job);
    if |lanes| == 2 {
      assert lanes[1] in lanes;
      LanesBelow(c, s, lanes[1]);
      assert Lane(t, lanes[1]) == Lane(s, lanes[1]);
    }
  }

  lemma KeepStep(c: Config, s: State, a: Action)
    requires Inv(c, s) && Enabled(c, s, a)
    ensures Inv(c, Apply(c, s, a))
  {
    hide Inv;
    match a
    case Submit(job) =>
      if HasRoom(c, s, LanesOf(c, s, job)) {
        KeepAccepted(c, s, job);
      } else {
        KeepDropped(c, s, job);
      }
    case SendSecond => KeepSendSecond(c, s);
    case Receive(w) => KeepReceive(c, s, w);
    case Arrive(w) => KeepArrive(c, s, w);
    case Pass(w) => KeepPass(c, s, w);
    case Attempt(w, ok) => KeepAttempt(c, s, w, ok);
    case Release(w) => KeepRelease(c, s, w);
    case Stop(w) => KeepStop(c, s, w);
    case Close => KeepClose(c, s);
  }

  lemma KeepClose(c: Config, s: State)
    requires Inv(c, s) && Enabled(c, s, Close)
    ensures Inv(c, Apply(c, s, Close))
  {
    hide LaneOk, PhaseOk, BarrierOk, Present, LogOk, RecordOk;
    var t := Apply(c, s, Close);
    assert forall p | 0 <= p < c.n :: Lane(t, p) == Lane(s, p);
    forall i | 0 <= i < c.n ensures LaneOk(c, t, i) && PhaseOk(c, t, i) {
      assert LaneOk(c, s, i) && PhaseOk(c, s, i);
      LaneKept(c, s, t, i);
      PhaseKept(c, s, t, i);
    }
    forall id | 0 <= id < |t.records| ensures RecordOk(c, t.records[id]) && BarrierOk(c, t, id) && Present(c, t, id) {
      assert RecordOk(c, s.records[id]) && BarrierOk(c, s, id) && Present(c, s, id);
      BarrierKept(c, s, t, id);
      PresentKept(c, s, t, id);
    }
    LogKept(s, t);
  }
}
