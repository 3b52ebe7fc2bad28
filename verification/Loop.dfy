// The game loop: when its ticks fire, which number each one gets, what a start
// resumes from, and how much work a tick takes from its queues.

module Loop {
  const NS_PER_MS := 1_000_000

  /** Instants and durations are in nanoseconds; a reading in milliseconds drops
      the rest. */
  function Millis(ns: int): int {
    ns / NS_PER_MS
  }

  // ---------------------------------------------------------------------
  // Resuming
  // ---------------------------------------------------------------------

  function ResumeTick(saved: nat, epochMs: int, nowMs: int, period: int): (nat, bool) {
    var p := Millis(period);
    var derived: nat := if p > 0 && nowMs > epochMs then (nowMs - epochMs) / p else 0;
    if derived < saved then (saved, true) else (derived, false)
  }

  /** The tick resumed from is the number of whole periods since the epoch, unless
      more were saved: then it is what was saved, and that is told. */
  lemma ResumeMeans(saved: nat, epochMs: int, nowMs: int, period: int)
    ensures var (tick, corrected) := ResumeTick(saved, epochMs, nowMs, period);
      var p := period / 1_000_000;
      && (corrected <==> 0 < saved && (p <= 0 || nowMs - epochMs < saved * p))
      && (corrected ==> tick == saved)
      && (!corrected && p > 0 && epochMs <= nowMs ==> tick * p <= nowMs - epochMs < tick * p + p)
      && (!corrected && (p <= 0 || nowMs < epochMs) ==> tick == 0)
  {
    var p, since := period / 1_000_000, nowMs - epochMs;
    if p > 0 {
      var derived := since / p;
      assert derived * p <= since < derived * p + p;
      if since > 0 {
        DivMono(0, since, p);
        if derived < saved {
          Mono(derived + 1, saved, p);
        } else {
          Mono(saved, derived, p);
        }
      } else if saved > 0 {
        Mono(1, saved, p);
      }
    }
  }

  // ---------------------------------------------------------------------
  // The schedule
  // ---------------------------------------------------------------------

  /** Where the calendar is after a tick: how many periods it has reached, and when
      the next tick is due, since the start. Lost ticks are dropped. */
  function Reschedule(period: int, scheduled: int, elapsed: int): (int, int)
    requires period > 0
  {
    var scheduled1 := scheduled + 1;
    var next := scheduled1 * period;
    if next > elapsed then (scheduled1, next) else
    var missed := elapsed / period - scheduled1 + 1;
    var scheduled2 := if missed > 0 then scheduled1 + missed else scheduled1;
    var next2 := scheduled2 * period;
    (scheduled2, if next2 <= elapsed then elapsed + period else next2)
  }

  /** The next tick is always due strictly in the future and on the grid of the
      period; it is never put off by more than one period. */
  lemma NextIsAhead(period: int, scheduled: int, elapsed: int)
    requires period > 0 && scheduled >= 0
    ensures var (after, next) := Reschedule(period, scheduled, elapsed);
      scheduled < after && next == after * period && elapsed < next && next <= Max(elapsed, scheduled * period) + period
  {
    var scheduled1 := scheduled + 1;
    var q := elapsed / period;
    assert q * period <= elapsed < q * period + period;
    assert scheduled1 * period == scheduled * period + period;
    if scheduled1 * period <= elapsed {
      if q < scheduled1 {
        Mono(q + 1, scheduled1, period);
      }
      assert (q + 1) * period == q * period + period;
    }
  }

  lemma Mono(a: int, b: int, c: int)
    requires a <= b && c >= 0
    ensures a * c <= b * c
  {
  }

  function Max(a: int, b: int): int {
    if a > b then a else b
  }

  /** One turn of the loop: when the timer fired, and what the clock said once the
      tick was done. */
  datatype Wake = Wake(fired: int, measured: int)

  /** The calendar after some turns; the first tick is due after one period. */
  function Calendar(period: int, start: int, wakes: seq<Wake>): (int, int)
    requires period > 0
  {
    if |wakes| == 0 then (1, period) else
    var (scheduled, _) := Calendar(period, start, wakes[..|wakes| - 1]);
    Reschedule(period, scheduled, wakes[|wakes| - 1].measured - start)
  }

  /** What the timer and the clock promise: no timer fires early, and the clock
      does not go back. */
  ghost predicate Honest(period: int, start: int, wakes: seq<Wake>)
    requires period > 0
  {
    forall k :: 0 <= k < |wakes| ==>
      && start + Calendar(period, start, wakes[..k]).1 <= wakes[k].fired <= wakes[k].measured
      && (k > 0 ==> wakes[k - 1].measured <= wakes[k].fired)
  }

  /** After each of the first turns the timer is set to go off at the next entry of the
      calendar, which is still to come. */
  ghost predicate OnCalendar(period: int, start: int, wakes: seq<Wake>, waits: seq<int>)
    requires period > 0
  {
    |waits| <= |wakes| && forall k :: 0 <= k < |waits| ==>
      start + Calendar(period, start, wakes[..k + 1]).1 == wakes[k].measured + waits[k] && waits[k] > 0
  }

  lemma NoWaits(period: int, start: int, wakes: seq<Wake>)
    requires period > 0
    ensures OnCalendar(period, start, wakes, [])
  {
  }

  lemma OneMoreWait(period: int, start: int, wakes: seq<Wake>, waits: seq<int>, wait: int)
    requires period > 0 && OnCalendar(period, start, wakes, waits) && |waits| < |wakes| && wait > 0
    requires start + Calendar(period, start, wakes[..|waits| + 1]).1 == wakes[|waits|].measured + wait
    ensures OnCalendar(period, start, wakes, waits + [wait])
  {
    hide Calendar;
  }

  lemma CalendarBegins(period: int, start: int, wakes: seq<Wake>)
    requires period > 0 && wakes == []
    ensures Calendar(period, start, wakes) == (1, period)
  {
  }

  lemma CalendarNext(period: int, start: int, wakes: seq<Wake>, k: nat)
    requires period > 0 && k < |wakes|
    ensures Calendar(period, start, wakes[..k]).0 >= 0
    ensures Calendar(period, start, wakes[..k + 1])
         == Reschedule(period, Calendar(period, start, wakes[..k]).0, wakes[k].measured - start)
  {
    hide Reschedule;
    assert wakes[..k + 1][..k] == wakes[..k];
    CalendarKeepsUp(period, start, wakes[..k]);
  }

  /** After `n` ticks the calendar is past `n` periods: no run gets ahead of one
      tick a period. */
  lemma {:induction false} CalendarKeepsUp(period: int, start: int, wakes: seq<Wake>)
    requires period > 0
    ensures Calendar(period, start, wakes).0 >= |wakes| + 1
    ensures Calendar(period, start, wakes).1 == Calendar(period, start, wakes).0 * period
  {
    if |wakes| > 0 {
      var init := wakes[..|wakes| - 1];
      CalendarKeepsUp(period, start, init);
      NextIsAhead(period, Calendar(period, start, init).0, wakes[|wakes| - 1].measured - start);
    }
  }

  lemma TickFiresLate(period: int, start: int, wakes: seq<Wake>, k: nat)
    requires period > 0 && Honest(period, start, wakes) && k < |wakes|
    ensures wakes[k].fired >= start + (k + 1) * period
  {
    CalendarKeepsUp(period, start, wakes[..k]);
    Mono(k + 1, Calendar(period, start, wakes[..k]).0, period);
  }

  /** While every tick is done before the next one is due, no period is dropped: the
      k-th tick is due after exactly k periods. */
  lemma {:induction false} NoneDropped(period: int, start: int, wakes: seq<Wake>)
    requires period > 0 && forall k :: 0 <= k < |wakes| ==> wakes[k].measured - start < (k + 2) * period
    ensures Calendar(period, start, wakes) == (|wakes| + 1, (|wakes| + 1) * period)
  {
    var n := |wakes|;
    if n > 0 {
      NoneDropped(period, start, wakes[..n - 1]);
      assert wakes[n - 1].measured - start < (n + 1) * period;
    }
  }

  // ---------------------------------------------------------------------
  // The loop itself
  // ---------------------------------------------------------------------

  datatype Command = Command(id: int)

  function Prefix(ch: seq<Command>, n: int): seq<Command> {
    if n <= 0 then [] else if n < |ch| then ch[..n] else ch
  }

  /** What a tick does to the world, in order: its number is set, commands are
      applied, the phases of the simulation run, and what is dirty is flushed. */
  datatype Event =
    Numbered(tick: nat) | Applied(command: Command) | Movements(nowMs: int) | Combat(nowMs: int) | Timers(nowMs: int)
    | Flushed

  function AppliedAll(cs: seq<Command>): (events: seq<Event>)
    ensures |events| == |cs| && forall k :: 0 <= k < |cs| ==> events[k] == Applied(cs[k])
  {
    seq(|cs|, k requires 0 <= k < |cs| => Applied(cs[k]))
  }

  /** How many ticks have begun since the last flush: what a crash can lose. */
  function Unflushed(done: seq<Event>): nat {
    if |done| == 0 || done[|done| - 1] == Flushed then 0
    else Unflushed(done[..|done| - 1]) + if done[|done| - 1].Numbered? then 1 else 0
  }

  lemma {:induction false} UnflushedAfter(done: seq<Event>, more: seq<Event>)
    requires forall e :: e in more ==> !e.Numbered? && e != Flushed
    ensures Unflushed(done + more) == Unflushed(done)
  {
    if |more| == 0 {
      assert done + more == done;
    } else {
      assert (done + more)[..|done + more| - 1] == done + more[..|more| - 1];
      UnflushedAfter(done, more[..|more| - 1]);
    }
  }

  lemma UnflushedNext(done: seq<Event>, e: Event)
    ensures Unflushed(done + [e]) == if e == Flushed then 0 else Unflushed(done) + if e.Numbered? then 1 else 0
  {
    assert (done + [e])[..|done|] == done;
  }

  class GameLoop {
    const period: int
    const maxCommands: int
    const flushInterval: int
    var tick: nat
    var inbox: seq<Command>
    var commands: seq<Command>
    var done: seq<Event>

    /** Fewer ticks than an interval are not flushed yet. */
    predicate Valid()
      reads this
    {
      maxCommands > 0 && flushInterval > 0 && Unflushed(done) <= tick % flushInterval
    }

    constructor (p: int, limit: int, flushEvery: int, startTick: nat)
      ensures Valid() && period == p && tick == startTick && inbox == [] && commands == [] && done == []
      ensures maxCommands == if limit <= 0 then 1024 else limit
      ensures flushInterval == if flushEvery <= 0 then 50 else flushEvery
    {
      period, maxCommands, tick := p, if limit <= 0 then 1024 else limit, startTick;
      flushInterval := if flushEvery <= 0 then 50 else flushEvery;
      inbox, commands, done := [], [], [];
    }

    /** Applies up to `max` commands of the inbox, in order. */
    method DrainInbox(max: int) returns (n: int)
      requires 0 <= max
      modifies this`inbox, this`done
      ensures var first := Prefix(old(inbox), max);
        done == old(done) + AppliedAll(first) && first + inbox == old(inbox) && n == |first|
    {
      n := 0;
      while n < max && |inbox| > 0
        invariant 0 <= n <= max && n <= |old(inbox)|
        invariant inbox == old(inbox)[n..] && done == old(done) + AppliedAll(old(inbox)[..n])
      {
        assert old(inbox)[..n + 1] == old(inbox)[..n] + [inbox[0]];
        assert AppliedAll(old(inbox)[..n + 1]) == AppliedAll(old(inbox)[..n]) + [Applied(inbox[0])];
        done := done + [Applied(inbox[0])];
        inbox := inbox[1..];
        n := n + 1;
      }
    }

    method DrainCommands(max: int) returns (n: int)
      requires 0 <= max
      modifies this`commands, this`done
      ensures var first := Prefix(old(commands), max);
        done == old(done) + AppliedAll(first) && first + commands == old(commands) && n == |first|
    {
      n := 0;
      while n < max && |commands| > 0
        invariant 0 <= n <= max && n <= |old(commands)|
        invariant commands == old(commands)[n..] && done == old(done) + AppliedAll(old(commands)[..n])
      {
        assert old(commands)[..n + 1] == old(commands)[..n] + [commands[0]];
        assert AppliedAll(old(commands)[..n + 1]) == AppliedAll(old(commands)[..n]) + [Applied(commands[0])];
        done := done + [Applied(commands[0])];
        commands := commands[1..];
        n := n + 1;
      }
    }

    /** One tick: a new number; the inbox, then the players' commands, within one
        budget; the phases; and every so many ticks a flush. What does not fit waits
        in its place. */
    method Step(nowMs: int) returns (number: nat)
      requires Valid()
      modifies this`tick, this`inbox, this`commands, this`done
      ensures Valid() && number == tick == old(tick) + 1
      ensures var first := Prefix(old(inbox), maxCommands);
        var second := Prefix(old(commands), maxCommands - |first|);
        && done == old(done) + [Numbered(number)] + AppliedAll(first) + AppliedAll(second)
                   + [Movements(nowMs), Combat(nowMs), Timers(nowMs)]
                   + (if number % flushInterval == 0 then [Flushed] else [])
        && first + inbox == old(inbox) && second + commands == old(commands)
        && |first| + |second| <= maxCommands
        && (|first| + |second| < maxCommands ==> inbox == [] && commands == [])
    {
      hide Unflushed;
      tick := tick + 1;
      number := tick;
      ghost var was := done;
      done := done + [Numbered(number)];
      UnflushedNext(was, Numbered(number));
      ghost var begun := done;
      var budget := maxCommands;
      var n := DrainInbox(budget);
      budget := budget - n;
      var m := DrainCommands(budget);
      done := done + [Movements(nowMs), Combat(nowMs), Timers(nowMs)];
      UnflushedAfter(begun, done[|begun|..]);
      assert begun + done[|begun|..] == done;
      OneMore(old(tick), flushInterval);
      if number % flushInterval == 0 {
        UnflushedNext(done, Flushed);
        done := done + [Flushed];
      }
    }

    lemma OneMore(t: nat, n: int)
      requires n > 0
      ensures (t + 1) % n == 0 || (t + 1) % n == t % n + 1
    {
      var q := t / n;
      assert t + 1 == q * n + (t % n + 1);
      if t % n + 1 < n {
        Remainder(t + 1, n, q, t % n + 1);
      } else {
        assert t + 1 == (q + 1) * n;
        Remainder(t + 1, n, q + 1, 0);
      }
    }

    lemma Remainder(v: int, n: int, q: int, r: int)
      requires n > 0 && v == q * n + r && 0 <= r < n
      ensures v % n == r
    {
      var k := v / n;
      assert (k - q) * n == r - v % n;
      if k - q >= 1 {
        Mono(1, k - q, n);
      } else if k - q <= -1 {
        Mono(k - q, -1, n);
      }
    }

    /** The end of a turn: the next period on the calendar that is still to come. */
    method Advance(reached: int, elapsed: int) returns (scheduled: int, next: int)
      requires period > 0 && reached >= 0
      ensures (scheduled, next) == Reschedule(period, reached, elapsed) && next > elapsed
    {
      NextIsAhead(period, reached, elapsed);
      scheduled := reached + 1;
      next := scheduled * period;
      if next <= elapsed {
        var missed := elapsed / period - scheduled + 1;
        if missed > 0 {
          scheduled := scheduled + missed;
        }
        next := scheduled * period;
        if next <= elapsed {
          next := elapsed + period;
        }
      }
    }

    /** Runs through the given turns: a tick each, and how long the timer is then set
        to wait, which is until the next entry of the calendar; then it is stopped,
        which flushes once more. */
    method Run(start: int, wakes: seq<Wake>) returns (numbers: seq<nat>, waits: seq<int>)
      requires period > 0 && Valid()
      modifies this`tick, this`inbox, this`commands, this`done
      ensures Valid() && Unflushed(done) == 0
      ensures tick == old(tick) + |wakes| && |numbers| == |wakes| == |waits|
      ensures forall k :: 0 <= k < |wakes| ==> numbers[k] == old(tick) + k + 1
      ensures OnCalendar(period, start, wakes, waits)
    {
      hide Reschedule, Calendar, Unflushed, OnCalendar;
      numbers, waits := [], [];
      var scheduled, next := 1, period;
      CalendarBegins(period, start, wakes[..0]);
      NoWaits(period, start, wakes);
      for k := 0 to |wakes|
        invariant Valid() && (scheduled, next) == Calendar(period, start, wakes[..k])
        invariant tick == old(tick) + k && |numbers| == k == |waits|
        invariant forall j :: 0 <= j < k ==> numbers[j] == old(tick) + j + 1
        invariant OnCalendar(period, start, wakes, waits)
      {
        CalendarNext(period, start, wakes, k);
        var number := Step(Millis(wakes[k].fired));
        numbers := numbers + [number];
        var elapsed := wakes[k].measured - start;
        scheduled, next := Advance(scheduled, elapsed);
        OneMoreWait(period, start, wakes, waits, next - elapsed);
        waits := waits + [next - elapsed];
      }
      UnflushedNext(done, Flushed);
      done := done + [Flushed];
    }
  }

  // ---------------------------------------------------------------------
  // Runs and crashes
  // ---------------------------------------------------------------------

  /** One life of the process: when it read the clock to resume, the tick it found
      saved, when its loop started and the turns it lived through. */
  datatype Life = Life(bootMs: int, saved: nat, start: int, wakes: seq<Wake>) {
    function StartTick(epochMs: int, period: int): nat {
      ResumeTick(saved, epochMs, bootMs, period).0
    }

    function LastTick(epochMs: int, period: int): nat {
      StartTick(epochMs, period) + |wakes|
    }

    function End(): int {
      if |wakes| == 0 then start else wakes[|wakes| - 1].measured
    }
  }

  /** The clock never goes back, from the epoch on; timers are honest; and what is
      saved is a tick that an earlier life had reached, or nothing. */
  ghost predicate History(lives: seq<Life>, epochMs: int, period: int)
    requires period > 0
  {
    forall i :: 0 <= i < |lives| ==>
      && epochMs <= lives[i].bootMs <= Millis(lives[i].start)
      && Honest(period, lives[i].start, lives[i].wakes)
      && (forall j :: 0 <= j < i ==> Millis(lives[j].End()) <= lives[i].bootMs)
      && (lives[i].saved == 0 || exists j :: 0 <= j < i && lives[i].saved == lives[j].LastTick(epochMs, period))
  }

  /** How many ticks the clock allows by an instant. */
  function Allowed(epochMs: int, nowMs: int, period: int): int
    requires Millis(period) > 0
  {
    (nowMs - epochMs) / Millis(period)
  }

  lemma DivMono(a: int, b: int, c: int)
    requires a <= b && c > 0
    ensures a / c <= b / c
  {
    if b / c < a / c {
      Mono(b / c + 1, a / c, c);
    }
  }

  /** `k` periods later the clock allows at least `k` ticks more. */
  lemma AllowsMore(epochMs: int, start: int, now: int, period: int, k: nat)
    requires Millis(period) > 0 && now >= start + k * period
    ensures Allowed(epochMs, Millis(start), period) + k <= Allowed(epochMs, Millis(now), period)
  {
    var p := Millis(period);
    Mono2(k, p * NS_PER_MS, period);
    assert k * (p * NS_PER_MS) == k * p * NS_PER_MS;
    AddMillis(start, k * p);
    DivMono(start + k * p * NS_PER_MS, now, NS_PER_MS);
    AddPeriods(Millis(start) - epochMs, k, p);
    DivMono(Millis(start) - epochMs + k * p, Millis(now) - epochMs, p);
  }

  lemma Mono2(k: nat, a: int, b: int)
    requires a <= b
    ensures k * a <= k * b
  {
  }

  lemma AddMillis(ns: int, ms: int)
    ensures (ns + ms * NS_PER_MS) / NS_PER_MS == ns / NS_PER_MS + ms
  {
  }

  lemma AddPeriods(v: int, k: int, p: int)
    requires p > 0
    ensures (v + k * p) / p == v / p + k
  {
    var q, r := v / p, v % p;
    assert v + k * p == (q + k) * p + r;
    QuotientIs(v + k * p, p, q + k, r);
  }

  lemma QuotientIs(v: int, p: int, q: int, r: int)
    requires p > 0 && 0 <= r < p && v == q * p + r
    ensures v / p == q
  {
    if v / p < q {
      Mono(v / p + 1, q, p);
    } else if v / p > q {
      Mono(q + 1, v / p, p);
    }
  }

  /** Every tick of a life, when it fires, is within what the clock allows, if the
      first one was. */
  lemma TickWithinAllowance(life: Life, epochMs: int, period: int, k: nat)
    requires Millis(period) > 0 && Honest(period, life.start, life.wakes) && k < |life.wakes|
    requires life.StartTick(epochMs, period) <= Allowed(epochMs, Millis(life.start), period)
    ensures life.StartTick(epochMs, period) + k + 1 <= Allowed(epochMs, Millis(life.wakes[k].fired), period)
  {
    TickFiresLate(period, life.start, life.wakes, k);
    AllowsMore(epochMs, life.start, life.wakes[k].fired, period, k + 1);
  }

  lemma EndWithinAllowance(life: Life, epochMs: int, period: int)
    requires Millis(period) > 0 && Honest(period, life.start, life.wakes)
    requires life.StartTick(epochMs, period) <= Allowed(epochMs, Millis(life.start), period)
    ensures life.LastTick(epochMs, period) <= Allowed(epochMs, Millis(life.End()), period)
  {
    var n := |life.wakes|;
    assert period > 0;
    hide Allowed, Millis, Honest, Life.StartTick;
    if n > 0 {
      TickWithinAllowance(life, epochMs, period, n - 1);
      ReadInOrder(life, period, n - 1);
      AllowedMono(epochMs, Millis(life.wakes[n - 1].fired), Millis(life.wakes[n - 1].measured), period);
    }
  }

  lemma ReadInOrder(life: Life, period: int, k: nat)
    requires period > 0 && Honest(period, life.start, life.wakes) && k < |life.wakes|
    ensures Millis(life.wakes[k].fired) <= Millis(life.wakes[k].measured)
  {
    hide Calendar;
    DivMono(life.wakes[k].fired, life.wakes[k].measured, NS_PER_MS);
  }

  lemma AllowedMono(epochMs: int, a: int, b: int, period: int)
    requires Millis(period) > 0 && a <= b
    ensures Allowed(epochMs, a, period) <= Allowed(epochMs, b, period)
  {
    DivMono(a - epochMs, b - epochMs, Millis(period));
  }

  /** With the clock ahead of what was saved, the clock decides. */
  lemma ClockDecides(saved: nat, epochMs: int, nowMs: int, period: int)
    requires Millis(period) > 0 && epochMs <= nowMs && saved <= Max(0, Allowed(epochMs, nowMs, period))
    ensures ResumeTick(saved, epochMs, nowMs, period) == (Allowed(epochMs, nowMs, period), false)
  {
    DivMono(0, nowMs - epochMs, Millis(period));
  }

  lemma LifeOf(lives: seq<Life>, epochMs: int, period: int, i: nat)
    requires Millis(period) > 0 && History(lives, epochMs, period) && i < |lives|
    ensures epochMs <= lives[i].bootMs <= Millis(lives[i].start) && Honest(period, lives[i].start, lives[i].wakes)
    ensures forall j :: 0 <= j < i ==> Millis(lives[j].End()) <= lives[i].bootMs
    ensures lives[i].saved == 0 || exists j :: 0 <= j < i && lives[i].saved == lives[j].LastTick(epochMs, period)
  {
  }

  /** In every life, however the ones before it ended, the resumed tick is what the
      clock says: the saved one never has to correct it. */
  lemma {:induction false} ResumesByTheClock(lives: seq<Life>, epochMs: int, period: int, i: nat)
    requires Millis(period) > 0 && History(lives, epochMs, period) && i < |lives|
    ensures ResumeTick(lives[i].saved, epochMs, lives[i].bootMs, period)
         == (Allowed(epochMs, lives[i].bootMs, period), false)
    ensures lives[i].StartTick(epochMs, period) <= Allowed(epochMs, Millis(lives[i].start), period)
    ensures lives[i].LastTick(epochMs, period) <= Allowed(epochMs, Millis(lives[i].End()), period)
    decreases i
  {
    hide Allowed, Millis, Honest, History, ResumeTick, Life.End, Life.LastTick;
    var life := lives[i];
    LifeOf(lives, epochMs, period, i);
    if life.saved != 0 {
      var j :| 0 <= j < i && life.saved == lives[j].LastTick(epochMs, period);
      ResumesByTheClock(lives, epochMs, period, j);
      AllowedMono(epochMs, Millis(lives[j].End()), life.bootMs, period);
    }
    ClockDecides(life.saved, epochMs, life.bootMs, period);
    AllowedMono(epochMs, life.bootMs, Millis(life.start), period);
    EndWithinAllowance(life, epochMs, period);
  }

  /** No tick number is ever emitted twice: not within a life, and not in two of
      them, whether the first one ended in order or crashed. */
  lemma NoTickTwice(lives: seq<Life>, epochMs: int, period: int, i: nat, m: nat, j: nat, n: nat)
    requires Millis(period) > 0 && History(lives, epochMs, period)
    requires i < |lives| && m < |lives[i].wakes| && j < |lives| && n < |lives[j].wakes| && (i, m) != (j, n)
    ensures lives[i].StartTick(epochMs, period) + m + 1 != lives[j].StartTick(epochMs, period) + n + 1
  {
    hide Allowed, Millis, Honest, History, ResumeTick, Life.StartTick, Life.End;
    if i < j {
      LaterLivesGoOn(lives, epochMs, period, i, j);
    } else if j < i {
      LaterLivesGoOn(lives, epochMs, period, j, i);
    }
  }

  /** A later life starts at or above every tick of an earlier one. */
  lemma LaterLivesGoOn(lives: seq<Life>, epochMs: int, period: int, i: nat, j: nat)
    requires Millis(period) > 0 && History(lives, epochMs, period) && i < j < |lives|
    ensures lives[i].LastTick(epochMs, period) <= lives[j].StartTick(epochMs, period)
  {
    hide Allowed, Millis, Honest, History, ResumeTick, Life.End, Life.LastTick;
    ResumesByTheClock(lives, epochMs, period, i);
    ResumesByTheClock(lives, epochMs, period, j);
    LifeOf(lives, epochMs, period, j);
    AllowedMono(epochMs, Millis(lives[i].End()), lives[j].bootMs, period);
  }

  /** The period must be at least a millisecond, whole or not. Below that nothing
      can be derived from the clock, and a crash repeats the first tick. */
  lemma ShortPeriodRepeats(period: int, start: int, later: int)
    requires 0 < period < NS_PER_MS && 0 <= start && start + period <= later
    ensures var crashed := Life(Millis(start), 0, start, [Wake(start + period, start + period)]);
      var next := Life(Millis(later), 0, later, [Wake(later + period, later + period)]);
      && History([crashed, next], 0, period)
      && crashed.StartTick(0, period) + 1 == next.StartTick(0, period) + 1
  {
    DivMono(0, start, NS_PER_MS);
    DivMono(start, start + period, NS_PER_MS);
    DivMono(start + period, later, NS_PER_MS);
    var crashed := Life(Millis(start), 0, start, [Wake(start + period, start + period)]);
    var next := Life(Millis(later), 0, later, [Wake(later + period, later + period)]);
    assert crashed.wakes[..0] == [] && next.wakes[..0] == [];
    assert Honest(period, start, crashed.wakes) && Honest(period, later, next.wakes);
    DivMono(0, later, NS_PER_MS);
  }
}
