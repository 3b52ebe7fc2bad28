// Commands by request id: the store of reservations and replies, the steps that
// a connection, the loop and the recording of replies take on it, and what every
// interleaving of them keeps.

module Idempotency {
  import opened Wrappers

  /** A player and the id that their client gave to a request. */
  datatype Rid = Rid(player: int, request: string)

  /** What the store holds for a request: a mark while it runs, then its reply. */
  datatype Value = Pending | Original(msgType: string, payload: string)

  type Store = map<Rid, Value>

  // ---------------------------------------------------------------------
  // The store and the command channel, one call at a time
  // ---------------------------------------------------------------------

  /** The first half of a claim: set if absent. */
  function Reserve(store: Store, rid: Rid): (Store, bool) {
    if rid in store then (store, false) else (store[rid := Pending], true)
  }

  /** What a duplicate is told. */
  function Replay(v: Value): Option<Value> {
    match v
    case Pending => None
    case Original(msgType, _) => if msgType != "" then Some(v) else None
  }

  /** Enqueuing without waiting. */
  function Offer(queue: seq<Rid>, capacity: nat, rid: Rid): (seq<Rid>, bool) {
    if |queue| < capacity then (queue + [rid], true) else (queue, false)
  }

  datatype Verdict = Invalid | Run | Duplicate(reply: Option<Value>)

  /** How a call to the store goes: well, with the first or the second of its
      commands failing, or with the reservation expiring between the two. */
  datatype Call = Fine | SetFails | GetFails | ExpiresBetween

  /** First, or what was there already. */
  datatype Claimed = First | Seen(prev: Value)

  /** The part of the server that reserves, enqueues, releases and records. */
  class Server {
    /** A server may run without a store of requests. */
    const deduping: bool
    var store: Store
    var commands: seq<Rid>
    const capacity: nat

    constructor (deduping: bool, size: nat)
      ensures this.deduping == deduping && store == map[] && commands == [] && capacity == size
    {
      this.deduping, store, commands, capacity := deduping, map[], [], size;
    }

    /** Reserves a request that is not reserved yet. A reservation that is gone when
        it is read counts as never made; no answer at all is an error. */
    method Claim(rid: Rid, call: Call) returns (r: Option<Claimed>)
      modifies this`store
      ensures r.None? <==> call == SetFails || (rid in old(store) && call == GetFails)
      ensures r == Some(First) <==>
              (rid !in old(store) && call != SetFails) || (rid in old(store) && call == ExpiresBetween)
      ensures r.Some? && r.value.Seen? ==> rid in old(store) && r.value.prev == old(store)[rid]
      ensures store == (if call == SetFails then old(store)
                        else if rid !in old(store) then old(store)[rid := Pending]
                        else if call == ExpiresBetween then old(store) - {rid} else old(store))
    {
      if call == SetFails {
        return None;
      }
      if rid !in store {
        store := store[rid := Pending];
        return Some(First);
      }
      if call == ExpiresBetween {
        store := store - {rid};
        return Some(First);
      }
      if call == GetFails {
        return None;
      }
      return Some(Seen(store[rid]));
    }

    /** Runs a request once; a duplicate is told what the original was told, or
        nothing if that is not known yet. Without a store, or with one that does not
        answer, the command runs anyway. */
    method ClaimRequest(rid: Rid, call: Call) returns (v: Verdict)
      modifies this`store
      ensures rid.request == "" ==> v == Invalid && store == old(store)
      ensures rid.request != "" && !deduping ==> v == Run && store == old(store)
      ensures rid.request != "" && deduping ==>
              (v.Run? <==> rid !in old(store) || call != Fine) && v != Invalid
      ensures v.Duplicate? && v.reply.Some? ==> old(store)[rid] == v.reply.value && v.reply.value.Original?
      ensures v.Duplicate? ==> (v.reply.None? <==> old(store)[rid] == Pending || old(store)[rid].msgType == "")
      ensures rid.request != "" && deduping && call == Fine ==>
              store == if rid in old(store) then old(store) else old(store)[rid := Pending]
      ensures forall other :: other != rid ==>
              (other in store <==> other in old(store)) && (other in store ==> store[other] == old(store)[other])
    {
      if rid.request == "" {
        return Invalid;
      }
      if !deduping {
        return Run;
      }
      var claimed := Claim(rid, call);
      if claimed.None? || claimed.value.First? {
        return Run;
      }
      var prev := claimed.value.prev;
      v := Duplicate(None);
      if prev != Pending && prev.msgType != "" {
        v := Duplicate(Some(prev));
      }
    }

    /** Enqueues a command already reserved; if there is no room it did not run,
        and its reservation goes away with it. */
    method DispatchClaimed(rid: Rid) returns (dropped: bool)
      modifies this`store, this`commands
      ensures dropped <==> |old(commands)| >= capacity
      ensures commands == if dropped then old(commands) else old(commands) + [rid]
      ensures store == if dropped && deduping then old(store) - {rid} else old(store)
    {
      if |commands| < capacity {
        commands := commands + [rid];
        return false;
      }
      if deduping {
        store := store - {rid};
      }
      return true;
    }

    method Complete(rid: Rid, reply: Value)
      modifies this`store
      ensures store == old(store)[rid := reply]
    {
      store := store[rid := reply];
    }
  }

  // ---------------------------------------------------------------------
  // Interleavings
  // ---------------------------------------------------------------------

  /** Where a connection is with its message. */
  datatype Conn = Idle | Looking(rid: Rid) | Claimed(rid: Rid) | Dropped(rid: Rid)

  /** `dispatched` and `executed` are what went into the channel and came out;
      `replied` are the replies given, `recording` those still to be stored, and
      `told` what duplicates were told. */
  datatype State = State(
    store: Store, conns: map<int, Conn>, queue: seq<Rid>, capacity: nat,
    dispatched: seq<Rid>, executed: set<Rid>,
    replied: set<(Rid, Value)>, recording: seq<(Rid, Value)>, told: seq<(Rid, Value)>)

  datatype Action =
    | Receive(conn: int, rid: Rid)
    | Look(conn: int)
    | Dispatch(conn: int)
    | Release(conn: int)
    | Execute
    | Answer(rid: Rid, reply: Value)
    | Record(index: nat)
    | Expire(rid: Rid)

  function At(s: State, conn: int): Conn {
    if conn in s.conns then s.conns[conn] else Idle
  }

  function Move(s: State, conn: int, to: Conn): State {
    s.(conns := s.conns[conn := to])
  }

  predicate Enabled(s: State, a: Action) {
    match a
    case Receive(conn, rid) => At(s, conn) == Idle && rid.request != ""
    case Look(conn) => At(s, conn).Looking?
    case Dispatch(conn) => At(s, conn).Claimed?
    case Release(conn) => At(s, conn).Dropped?
    case Execute => s.queue != []
    case Answer(rid, reply) => rid in s.executed && reply.Original?
    case Record(index) => index < |s.recording|
    case Expire(rid) => rid in s.store
  }

  /** A claim is two commands to the store: set if absent, and read if it was
      there. What is not there any more on reading counts as never seen. */
  function Apply(s: State, a: Action): State
    requires Enabled(s, a)
  {
    match a
    case Receive(conn, rid) =>
      var (store, first) := Reserve(s.store, rid);
      Move(s, conn, if first then Claimed(rid) else Looking(rid)).(store := store)
    case Look(conn) =>
      var rid := At(s, conn).rid;
      if rid !in s.store then Move(s, conn, Claimed(rid)) else
      var reply := Replay(s.store[rid]);
      Move(s, conn, Idle).(told := if reply.Some? then s.told + [(rid, reply.value)] else s.told)
    case Dispatch(conn) =>
      var rid := At(s, conn).rid;
      var (queue, ok) := Offer(s.queue, s.capacity, rid);
      if ok then Move(s, conn, Idle).(queue := queue, dispatched := s.dispatched + [rid])
      else Move(s, conn, Dropped(rid))
    case Release(conn) => Move(s, conn, Idle).(store := s.store - {At(s, conn).rid})
    case Execute => s.(queue := s.queue[1..], executed := s.executed + {s.queue[0]})
    case Answer(rid, reply) => s.(replied := s.replied + {(rid, reply)}, recording := s.recording + [(rid, reply)])
    case Record(index) =>
      var (rid, reply) := s.recording[index];
      s.(store := s.store[rid := reply], recording := s.recording[..index] + s.recording[index + 1..])
    case Expire(rid) => s.(store := s.store - {rid})
  }

  /** The claim is as good as atomic: no reservation expires, and none is released
      while another connection is about to read it. */
  ghost predicate Careful(s: State, a: Action) {
    && !a.Expire?
    && (a.Release? && At(s, a.conn).Dropped? ==> forall c :: At(s, c) != Looking(At(s, a.conn).rid))
  }

  // ---------------------------------------------------------------------
  // What every careful step keeps
  // ---------------------------------------------------------------------

  predicate Holds(c: Conn, rid: Rid) {
    c == Claimed(rid) || c == Dropped(rid)
  }

  ghost predicate Reserved(s: State) {
    && (forall rid :: rid in s.dispatched ==> rid in s.store)
    && (forall c, rid {:trigger Holds(At(s, c), rid)} :: Holds(At(s, c), rid) ==>
         rid in s.store && rid !in s.dispatched)
    && (forall c {:trigger At(s, c)} :: At(s, c).Looking? ==> At(s, c).rid in s.store)
  }

  ghost predicate OneHolder(s: State) {
    forall c, d, rid {:trigger Holds(At(s, c), rid), Holds(At(s, d), rid)} ::
      Holds(At(s, c), rid) && Holds(At(s, d), rid) ==> c == d
  }

  ghost predicate Once(s: State) {
    forall j, k :: 0 <= j < k < |s.dispatched| ==> s.dispatched[j] != s.dispatched[k]
  }

  /** Replies are to commands that ran, and nothing else is stored or told. */
  ghost predicate Truthful(s: State) {
    && (forall rid :: rid in s.store && s.store[rid] != Pending ==> (rid, s.store[rid]) in s.replied)
    && (forall e :: e in s.recording ==> e in s.replied)
    && (forall e :: e in s.told ==> e in s.replied)
    && (forall e :: e in s.replied ==> e.0 in s.executed && e.1.Original?)
    && (forall rid :: rid in s.queue || rid in s.executed ==> rid in s.dispatched)
  }

  ghost predicate Inv(s: State) {
    Reserved(s) && OneHolder(s) && Once(s) && Truthful(s)
  }

  predicate Initial(s: State) {
    s.store == map[] && s.conns == map[] && s.queue == [] && s.dispatched == [] && s.executed == {}
    && s.replied == {} && s.recording == [] && s.told == []
  }

  lemma InitialKeeps(s: State)
    requires Initial(s)
    ensures Inv(s)
  {
  }

  lemma KeepReceive(s: State, conn: int, rid: Rid)
    requires Inv(s) && Enabled(s, Receive(conn, rid))
    ensures Inv(Apply(s, Receive(conn, rid)))
  {
    var after := Apply(s, Receive(conn, rid));
    forall c ensures At(after, c) == if c == conn then (if rid in s.store then Looking(rid) else Claimed(rid))
        else At(s, c) {
    }
    if rid !in s.store {
      forall c ensures c != conn ==> !Holds(At(after, c), rid) {
        assert Holds(At(s, c), rid) ==> rid in s.store;
      }
    }
  }

  lemma KeepLook(s: State, conn: int)
    requires Inv(s) && Enabled(s, Look(conn))
    ensures Inv(Apply(s, Look(conn)))
  {
    var after := Apply(s, Look(conn));
    assert At(s, conn).rid in s.store;
    forall c ensures At(after, c) == if c == conn then Idle else At(s, c) {
    }
  }

  lemma KeepDispatch(s: State, conn: int)
    requires Inv(s) && Enabled(s, Dispatch(conn))
    ensures Inv(Apply(s, Dispatch(conn)))
  {
    var after, rid := Apply(s, Dispatch(conn)), At(s, conn).rid;
    assert Holds(At(s, conn), rid);
    forall c ensures At(after, c) == if c == conn then (if |s.queue| < s.capacity then Idle else Dropped(rid))
        else At(s, c) {
    }
    forall c ensures c != conn ==> !Holds(At(s, c), rid) {
    }
  }

  lemma KeepRelease(s: State, conn: int)
    requires Inv(s) && Enabled(s, Release(conn)) && Careful(s, Release(conn))
    ensures Inv(Apply(s, Release(conn)))
  {
    var after, rid := Apply(s, Release(conn)), At(s, conn).rid;
    assert Holds(At(s, conn), rid);
    forall c ensures At(after, c) == if c == conn then Idle else At(s, c) {
    }
    forall c ensures c != conn ==> !Holds(At(s, c), rid) {
    }
  }

  lemma KeepLoop(s: State, a: Action)
    requires Inv(s) && Enabled(s, a) && (a.Execute? || a.Answer? || a.Record?)
    ensures Inv(Apply(s, a))
  {
    var after := Apply(s, a);
    assert forall c :: At(after, c) == At(s, c);
    if a.Record? {
      assert s.recording[a.index] in s.recording;
    }
  }

  lemma KeepStep(s: State, a: Action)
    requires Inv(s) && Enabled(s, a) && Careful(s, a)
    ensures Inv(Apply(s, a))
  {
    hide Inv, Apply;
    match a
    case Receive(conn, rid) => KeepReceive(s, conn, rid);
    case Look(conn) => KeepLook(s, conn);
    case Dispatch(conn) => KeepDispatch(s, conn);
    case Release(conn) => KeepRelease(s, conn);
    case Execute => KeepLoop(s, a);
    case Answer(_, _) => KeepLoop(s, a);
    case Record(_) => KeepLoop(s, a);
  }

  // ---------------------------------------------------------------------
  // Whole runs
  // ---------------------------------------------------------------------

  predicate CanRun(s: State, run: seq<Action>)
    decreases |run|
  {
    run == [] || (Enabled(s, run[0]) && CanRun(Apply(s, run[0]), run[1..]))
  }

  ghost predicate CarefulRun(s: State, run: seq<Action>)
    requires CanRun(s, run)
    decreases |run|
  {
    run == [] || (Careful(s, run[0]) && CarefulRun(Apply(s, run[0]), run[1..]))
  }

  function RunAll(s: State, run: seq<Action>): State
    requires CanRun(s, run)
    decreases |run|
  {
    if run == [] then s else RunAll(Apply(s, run[0]), run[1..])
  }

  lemma {:induction false} RunKeepsInv(s: State, run: seq<Action>)
    requires Inv(s) && CanRun(s, run) && CarefulRun(s, run)
    ensures Inv(RunAll(s, run))
    decreases |run|
  {
    if run != [] {
      KeepStep(s, run[0]);
      RunKeepsInv(Apply(s, run[0]), run[1..]);
    }
  }

  /** Over every interleaving of connections, loop and recorders, a request goes to
      the loop at most once, and a duplicate is only ever told a reply that was
      given to that request. */
  lemma AtMostOnce(s: State, run: seq<Action>)
    requires Initial(s) && CanRun(s, run) && CarefulRun(s, run)
    ensures Once(RunAll(s, run))
    ensures forall e :: e in RunAll(s, run).told ==> e in RunAll(s, run).replied && e.0 in RunAll(s, run).dispatched
  {
    InitialKeeps(s);
    RunKeepsInv(s, run);
  }

  /** A command dropped because the channel was full can be sent again: once it is
      released, the next message with its id is a first one. */
  lemma DroppedCanRetry(s: State, conn: int, again: int)
    requires Inv(s) && Enabled(s, Release(conn)) && Careful(s, Release(conn)) && (again == conn || At(s, again) == Idle)
    requires At(s, conn).rid.request != ""
    ensures var rid := At(s, conn).rid;
      var released := Apply(s, Release(conn));
      && rid !in s.dispatched && Enabled(released, Receive(again, rid))
      && At(Apply(released, Receive(again, rid)), again) == Claimed(rid)
  {
    assert Holds(At(s, conn), At(s, conn).rid);
  }

  /** What comes back to one who asks again: whoever repeats a command that still runs
      is told nothing, and whoever repeats it after its reply has been recorded is told
      that reply; neither sends it to the loop again. */
  lemma RepeatIsTold(s: State, conn: int, rid: Rid)
    requires At(s, conn) == Idle && rid in s.store && rid.request != ""
    ensures var asked := Apply(s, Receive(conn, rid));
      && At(asked, conn) == Looking(rid)
      && var after := Apply(asked, Look(conn));
         && At(after, conn) == Idle && after.dispatched == s.dispatched && after.queue == s.queue
         && after.store == s.store
         && (s.store[rid] == Pending ==> after.told == s.told)
         && (s.store[rid].Original? && s.store[rid].msgType != "" ==> after.told == s.told + [(rid, s.store[rid])])
  {
  }

  /** A reply that is given is recorded, if nothing keeps the recorder from it, and then
      is what the store holds for its request. */
  lemma AnswerIsRecorded(s: State, rid: Rid, reply: Value)
    requires rid in s.executed && reply.Original?
    ensures var given := Apply(s, Answer(rid, reply));
      && (rid, reply) in given.replied && Enabled(given, Record(|s.recording|))
      && var after := Apply(given, Record(|s.recording|));
         after.store == s.store[rid := reply] && after.recording == s.recording
  {
    assert (s.recording + [(rid, reply)])[..|s.recording|] == s.recording;
  }

  // ---------------------------------------------------------------------
  // Why the care is needed
  // ---------------------------------------------------------------------

  lemma {:induction false} RunThen(s: State, a: seq<Action>, b: seq<Action>)
    requires CanRun(s, a) && CanRun(RunAll(s, a), b)
    ensures CanRun(s, a + b) && RunAll(s, a + b) == RunAll(RunAll(s, a), b)
    decreases |a|
  {
    if a == [] {
      assert a + b == b;
    } else {
      RunThen(Apply(s, a[0]), a[1..], b);
      assert (a + b)[1..] == a[1..] + b;
    }
  }

  lemma OneMore(s: State, run: seq<Action>, a: Action)
    requires CanRun(s, run) && Enabled(RunAll(s, run), a)
    ensures CanRun(s, run + [a]) && RunAll(s, run + [a]) == Apply(RunAll(s, run), a)
  {
    var t := RunAll(s, run);
    assert [a][1..] == [] && CanRun(Apply(t, a), []);
    assert CanRun(t, [a]) && RunAll(t, [a]) == Apply(t, a);
    RunThen(s, run, [a]);
  }

  /** Wherever a reservation is released between the two halves of another
      connection's claim, and the channel has room, the request can go to the loop
      twice. */
  lemma ReleaseWhileLooking(s: State, conn: int, other: int) returns (run: seq<Action>)
    requires At(s, conn).Dropped? && At(s, other) == Looking(At(s, conn).rid)
    requires At(s, conn).rid.request != "" && |s.queue| < s.capacity
    ensures CanRun(s, run) && forall a :: a in run ==> !a.Expire?
    ensures var rid := At(s, conn).rid; RunAll(s, run).dispatched == s.dispatched + [rid, rid]
  {
    hide CanRun, RunAll;
    var rid := At(s, conn).rid;
    NoSteps(s);
    run := [];
    var s1 := OneStep(s, run, s, Release(conn));
    run := run + [Release(conn)];
    assert At(s1, other) == Looking(rid) && rid !in s1.store;
    var s2 := OneStep(s, run, s1, Look(other));
    run := run + [Look(other)];
    assert At(s2, other) == Claimed(rid) && At(s2, conn) == Idle;
    var s3 := OneStep(s, run, s2, Dispatch(other));
    run := run + [Dispatch(other)];
    assert s3.queue == s.queue + [rid] && rid !in s3.store && At(s3, conn) == Idle;
    var s4 := OneStep(s, run, s3, Execute);
    run := run + [Execute];
    assert At(s4, conn) == Idle && rid !in s4.store && |s4.queue| == |s.queue|;
    var s5 := OneStep(s, run, s4, Receive(conn, rid));
    run := run + [Receive(conn, rid)];
    assert At(s5, conn) == Claimed(rid);
    var s6 := OneStep(s, run, s5, Dispatch(conn));
    run := run + [Dispatch(conn)];
    assert s6.dispatched == s.dispatched + [rid] + [rid];
  }

  lemma NoSteps(s: State)
    ensures CanRun(s, []) && RunAll(s, []) == s
  {
  }

  lemma OneStep(s: State, run: seq<Action>, now: State, a: Action) returns (next: State)
    requires CanRun(s, run) && RunAll(s, run) == now && Enabled(now, a)
    ensures next == Apply(now, a) && CanRun(s, run + [a]) && RunAll(s, run + [a]) == next
  {
    OneMore(s, run, a);
    next := Apply(now, a);
  }

  function Numbered(n: nat): (rid: Rid)
    ensures |rid.request| == n
  {
    Rid(0, seq(n, _ => 'x'))
  }

  /** All connections are idle after `n` requests of different lengths. */
  ghost predicate Filled(s: State, n: nat) {
    && |s.queue| == n && (forall c :: At(s, c) == Idle)
    && forall rid :: rid in s.store ==> |rid.request| <= n
  }

  /** The channel can be filled with requests that no one has sent before. */
  lemma {:induction false} Fill(s: State, n: nat) returns (run: seq<Action>)
    requires Initial(s) && n <= s.capacity
    ensures CanRun(s, run) && (forall a :: a in run ==> !a.Expire?)
    ensures Filled(RunAll(s, run), n) && RunAll(s, run).capacity == s.capacity
  {
    if n == 0 {
      run := [];
    } else {
      run := Fill(s, n - 1);
      var t, rid := RunAll(s, run), Numbered(n);
      assert At(t, 0) == Idle && rid !in t.store;
      var t1 := OneStep(s, run, t, Receive(0, rid));
      run := run + [Receive(0, rid)];
      assert At(t1, 0) == Claimed(rid);
      var t2 := OneStep(s, run, t1, Dispatch(0));
      run := run + [Dispatch(0)];
      assert forall c :: c != 0 ==> At(t2, c) == At(t, c);
    }
  }

  /** The care is needed: with a channel of any size, some run from the start, on
      which no reservation expires, puts a request into the channel twice. */
  lemma CarelessTwice(s: State) returns (run: seq<Action>)
    requires Initial(s) && s.capacity > 0
    ensures CanRun(s, run) && (forall a :: a in run ==> !a.Expire?)
    ensures !Once(RunAll(s, run))
  {
    hide CanRun, RunAll;
    var rid := Numbered(s.capacity + 1);
    run := Fill(s, s.capacity);
    var t := RunAll(s, run);
    assert At(t, 0) == At(t, 1) == Idle;
    assert rid !in t.store;
    var t1 := OneStep(s, run, t, Receive(0, rid));
    run := run + [Receive(0, rid)];
    assert At(t1, 0) == Claimed(rid) && At(t1, 1) == Idle && rid in t1.store;
    var t2 := OneStep(s, run, t1, Dispatch(0));
    run := run + [Dispatch(0)];
    assert At(t2, 0) == Dropped(rid) && At(t2, 1) == Idle && rid in t2.store;
    var t3 := OneStep(s, run, t2, Receive(1, rid));
    run := run + [Receive(1, rid)];
    assert At(t3, 0) == Dropped(rid) && At(t3, 1) == Looking(rid);
    var t4 := OneStep(s, run, t3, Execute);
    run := run + [Execute];
    assert At(t4, 0) == Dropped(rid) && At(t4, 1) == Looking(rid);
    var race := ReleaseWhileLooking(t4, 0, 1);
    RunThen(s, run, race);
    run := run + race;
    var twice, n := RunAll(s, run).dispatched, |t4.dispatched|;
    assert twice[n] == twice[n + 1];
  }
}
