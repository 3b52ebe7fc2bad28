// Token buckets: one per connection of the game server, and one per key of the
// web server, which remembers a bounded number of keys.

module RateLimit {
  /** Refill per unit of time and capacity. */
  datatype Policy = Policy(rate: real, burst: real) {
    predicate Sane() {
      rate >= 0.0 && burst >= 0.0
    }
  }

  datatype Bucket = Bucket(tokens: real, at: real)

  function Min(a: real, b: real): real {
    if a < b then a else b
  }

  function Max(a: real, b: real): real {
    if a > b then a else b
  }

  function Gain(elapsed: real, rate: real): real {
    elapsed * rate
  }

  /** What comes back between two instants. */
  function Refill(p: Policy, from: real, upto: real): real {
    Gain(upto - from, p.rate)
  }

  // ---------------------------------------------------------------------
  // One bucket
  // ---------------------------------------------------------------------

  /** A request on a bucket of the web server: a clock that goes back refills nothing. */
  function Take(p: Policy, b: Bucket, now: real): (Bucket, bool) {
    var tokens := Min(p.burst, b.tokens + Gain(Max(0.0, now - b.at), p.rate));
    if tokens >= 1.0 then (Bucket(tokens - 1.0, now), true) else (Bucket(tokens, now), false)
  }

  /** A request on the bucket of a connection. */
  class SessionLimiter {
    var tokens: real
    const maxTokens: real
    const refillRate: real
    var last: real

    constructor (perSecond: nat, burst: nat, now: real)
      ensures tokens == maxTokens == burst as real && refillRate == perSecond as real && last == now
    {
      tokens, maxTokens, refillRate, last := burst as real, burst as real, perSecond as real, now;
    }

    method Allow(now: real) returns (ok: bool)
      modifies this`tokens, this`last
      ensures last == now
      ensures now >= old(last) ==>
        (Bucket(tokens, last), ok) == Take(Policy(refillRate, maxTokens), Bucket(old(tokens), old(last)), now)
      ensures ok <==> Min(maxTokens, old(tokens) + Gain(now - old(last), refillRate)) >= 1.0
      ensures tokens == Min(maxTokens, old(tokens) + Gain(now - old(last), refillRate)) - (if ok then 1.0 else 0.0)
    {
      hide Gain;
      var elapsed := now - last;
      assert elapsed >= 0.0 ==> Max(0.0, elapsed) == elapsed;
      last := now;
      tokens := tokens + Gain(elapsed, refillRate);
      if tokens > maxTokens {
        tokens := maxTokens;
      }
      if tokens < 1.0 {
        return false;
      }
      tokens := tokens - 1.0;
      return true;
    }
  }

  ghost predicate Ascending(times: seq<real>) {
    forall j, k :: 0 <= j <= k < |times| ==> times[j] <= times[k]
  }

  /** The bucket after a run of requests, and how many were admitted. */
  function TakeAll(p: Policy, b: Bucket, times: seq<real>): (Bucket, nat) {
    if |times| == 0 then (b, 0) else
    var (before, n) := TakeAll(p, b, times[..|times| - 1]);
    var (after, ok) := Take(p, before, times[|times| - 1]);
    (after, if ok then n + 1 else n)
  }

  lemma RefillAdds(p: Policy, a: real, b: real, c: real)
    ensures Refill(p, a, b) + Refill(p, b, c) == Refill(p, a, c)
    ensures Refill(p, a, a) == 0.0
  {
  }

  lemma NonNegative(a: real, b: real)
    requires a >= 0.0 && b >= 0.0
    ensures a * b >= 0.0
  {
  }

  lemma GainAdds(rate: real, a: real, b: real)
    ensures Gain(a, rate) + Gain(b, rate) == Gain(a + b, rate)
    ensures Gain(0.0, rate) == 0.0
  {
  }

  /** One request, whatever the clock did: what it admits and what is left come out
      of what there was and what was refilled, and of one burst. */
  lemma TakeSpends(p: Policy, b: Bucket, now: real)
    requires p.Sane() && 0.0 <= b.tokens
    ensures var (after, ok) := Take(p, b, now); var spent := if ok then 1.0 else 0.0;
      && 0.0 <= after.tokens && after.at == now
      && after.tokens + spent <= p.burst
      && after.tokens + spent <= b.tokens + Gain(Max(0.0, now - b.at), p.rate)
  {
    NonNegative(p.rate, Max(0.0, now - b.at));
  }

  /** How far a clock has gone forward in all, its ways back not deducted. */
  function Forward(at: real, times: seq<real>): (moved: real)
    ensures moved >= 0.0
  {
    if |times| == 0 then 0.0 else
    Forward(at, times[..|times| - 1]) + Max(0.0, times[|times| - 1] - Reading(at, times[..|times| - 1]))
  }

  /** What the clock shows after some readings. */
  function Reading(at: real, times: seq<real>): real {
    if |times| == 0 then at else times[|times| - 1]
  }

  /** The forward moves make up the time between the first and the last reading
      exactly when the clock has never gone back. */
  lemma {:induction false} ForwardIsSpan(at: real, times: seq<real>)
    ensures Forward(at, times) >= Reading(at, times) - at
    ensures Forward(at, times) == Reading(at, times) - at <==> Ascending([at] + times)
  {
    if |times| > 0 {
      var init, last := times[..|times| - 1], times[|times| - 1];
      ForwardIsSpan(at, init);
      assert [at] + times == ([at] + init) + [last];
      assert Reading(at, init) == ([at] + init)[|init|];
      if Ascending([at] + times) {
        assert forall k :: 0 <= k <= |init| ==> ([at] + init)[k] == ([at] + times)[k];
        assert ([at] + times)[|init|] <= ([at] + times)[|init| + 1];
      }
    }
  }

  /** Whatever the clock does, what a run admits and what is left come out of what
      there was and of the refill of every move forward. */
  lemma {:induction false} RunSpends(p: Policy, b: Bucket, times: seq<real>)
    requires p.Sane() && 0.0 <= b.tokens
    ensures var (after, n) := TakeAll(p, b, times);
      && 0.0 <= after.tokens && after.at == Reading(b.at, times)
      && n as real + after.tokens <= b.tokens + Gain(Forward(b.at, times), p.rate)
  {
    hide Take, Gain, Max, Policy.Sane;
    if |times| == 0 {
      GainAdds(p.rate, 0.0, 0.0);
    } else {
      var init, last := times[..|times| - 1], times[|times| - 1];
      RunSpends(p, b, init);
      var before := TakeAll(p, b, init).0;
      TakeSpends(p, before, last);
      GainAdds(p.rate, Forward(b.at, init), Max(0.0, last - before.at));
    }
  }

  /** In any window of any run, admissions are at most the burst plus the refill of
      the moves forward after the first request of the window. */
  lemma ForwardBound(p: Policy, b: Bucket, times: seq<real>, from: nat, upto: nat)
    requires p.Sane() && 0.0 <= b.tokens && from < upto <= |times|
    ensures (TakeAll(p, b, times[..upto]).1 - TakeAll(p, b, times[..from]).1) as real
         <= p.burst + Gain(Forward(times[from], times[from + 1..upto]), p.rate)
  {
    hide Take, Gain, Policy.Sane, TakeAll, Forward;
    var first, rest := times[..from], times[from + 1..upto];
    var before := TakeAll(p, b, first).0;
    RunSpends(p, b, first);
    TakeSpends(p, before, times[from]);
    var after := Take(p, before, times[from]).0;
    OneTaken(p, before, times[from]);
    RunSpends(p, after, rest);
    assert first + [times[from]] == times[..from + 1] && times[..from + 1] + rest == times[..upto];
    TakeAllSplits(p, b, first, [times[from]]);
    TakeAllSplits(p, b, times[..from + 1], rest);
  }

  lemma OneTaken(p: Policy, b: Bucket, now: real)
    ensures var (after, ok) := Take(p, b, now); TakeAll(p, b, [now]) == (after, if ok then 1 else 0)
  {
    assert [now][..0] == [];
    assert TakeAll(p, b, []) == (b, 0);
  }

  /** One request leaves what there was, what came back and no more than the burst,
      less what it took itself. */
  lemma TakeLeaves(p: Policy, b: Bucket, now: real)
    ensures var (after, ok) := Take(p, b, now);
      var tokens := after.tokens + if ok then 1.0 else 0.0;
      && after.at == now && (ok <==> tokens >= 1.0) && tokens <= p.burst
      && (tokens == p.burst || tokens == b.tokens + p.rate * Max(0.0, now - b.at))
  {
  }

  /** The bucket was last full at a request, or never since the start. */
  ghost predicate LeftSince(p: Policy, b: Bucket, times: seq<real>, full: int, after: Bucket, n: nat) {
    && -1 <= full < |times| && after.at == Reading(b.at, times)
    && (full == -1 ==> after.tokens == b.tokens + p.rate * Forward(b.at, times) - n as real)
    && (full >= 0 ==> after.tokens == p.burst + p.rate * Forward(times[full], times[full + 1..])
                                      - (n - TakeAll(p, b, times[..full]).1) as real)
  }

  /** What a run leaves is exactly the difference between what it could spend since
      its start, or since the last time when the bucket was full, and what it has
      admitted since then. */
  lemma {:induction false} RunLeaves(p: Policy, b: Bucket, times: seq<real>) returns (full: int)
    ensures LeftSince(p, b, times, full, TakeAll(p, b, times).0, TakeAll(p, b, times).1)
  {
    hide Take, Max, LeftSince;
    if |times| == 0 {
      full := -1;
      StartLeaves(p, b, times);
    } else {
      var init, k := times[..|times| - 1], |times| - 1;
      var before, n := TakeAll(p, b, init).0, TakeAll(p, b, init).1;
      full := RunLeaves(p, b, init);
      var (after, ok) := Take(p, before, times[k]);
      if after.tokens + (if ok then 1.0 else 0.0) == p.burst {
        full := k;
        FullLeaves(p, b, times, before, n);
      } else {
        MoreLeaves(p, b, times, full, before, n);
      }
    }
  }

  lemma StartLeaves(p: Policy, b: Bucket, times: seq<real>)
    requires times == []
    ensures LeftSince(p, b, times, -1, b, 0)
  {
  }

  lemma FullLeaves(p: Policy, b: Bucket, times: seq<real>, before: Bucket, n: nat)
    requires |times| > 0 && n == TakeAll(p, b, times[..|times| - 1]).1
    requires var (after, ok) := Take(p, before, times[|times| - 1]);
      after.tokens + (if ok then 1.0 else 0.0) == p.burst
    ensures var (after, ok) := Take(p, before, times[|times| - 1]);
      LeftSince(p, b, times, |times| - 1, after, if ok then n + 1 else n)
  {
    hide Take, TakeAll;
    TakeLeaves(p, before, times[|times| - 1]);
    NoSpan(times[|times| - 1]);
    assert times[|times|..] == [];
  }

  lemma MoreLeaves(p: Policy, b: Bucket, times: seq<real>, full: int, before: Bucket, n: nat)
    requires |times| > 0 && LeftSince(p, b, times[..|times| - 1], full, before, n)
    requires var (after, ok) := Take(p, before, times[|times| - 1]);
      after.tokens + (if ok then 1.0 else 0.0) != p.burst
    ensures var (after, ok) := Take(p, before, times[|times| - 1]);
      LeftSince(p, b, times, full, after, if ok then n + 1 else n)
  {
    hide Take, TakeAll, Forward, Max;
    var init := times[..|times| - 1];
    TakeLeaves(p, before, times[|times| - 1]);
    SpanGrows(p, if full == -1 then b.at else times[full], times, full + 1);
    assert times[0..] == times && init[0..] == init;
    assert full >= 0 ==> init[..full] == times[..full] && init[full] == times[full];
  }

  /** One more reading of the clock adds its move forward. */
  lemma SpanGrows(p: Policy, at: real, times: seq<real>, from: nat)
    requires from < |times|
    ensures var init, k := times[..|times| - 1], |times| - 1;
      var was := if from == k then at else times[k - 1];
      && Forward(at, times[from..]) == Forward(at, init[from..]) + Max(0.0, times[k] - was)
      && p.rate * Forward(at, times[from..]) == p.rate * Forward(at, init[from..]) + p.rate * Max(0.0, times[k] - was)
  {
    hide Max;
    var init := times[..|times| - 1];
    assert times[from..][..|times| - from - 1] == init[from..];
    assert times[0..] == times && init[0..] == init;
    Spread(p.rate, Forward(at, init[from..]),
           Max(0.0, times[|times| - 1] - if from == |times| - 1 then at else times[|times| - 2]));
  }

  lemma Spread(a: real, b: real, c: real)
    ensures a * (b + c) == a * b + a * c
  {
  }

  /** After `times`, a request at the end of `all` would fit into each window that ends
      with it: no more would be admitted in it than the burst and the refill. */
  ghost predicate Fits(p: Policy, b: Bucket, times: seq<real>, all: seq<real>) {
    && |all| == |times| + 1
    && (TakeAll(p, b, times).1 + 1) as real <= b.tokens + p.rate * Forward(b.at, all)
    && forall from :: 0 <= from < |all| ==>
         (TakeAll(p, b, times).1 - TakeAll(p, b, times[..from]).1 + 1) as real
         <= p.burst + p.rate * Forward(all[from], all[from + 1..])
  }

  /** Whatever the clock does, a request is refused only if it has to be: it is admitted
      exactly if no window that ends with it then exceeds its bound. */
  lemma AdmittedIff(p: Policy, b: Bucket, times: seq<real>, now: real)
    requires p.Sane() && 0.0 <= b.tokens
    ensures Take(p, TakeAll(p, b, times).0, now).1 <==> Fits(p, b, times, times + [now])
  {
    hide Take, TakeAll, Forward, Max, Gain;
    var all := times + [now];
    assert all[..|times|] == times;
    TakeAllSplits(p, b, times, [now]);
    OneTaken(p, TakeAll(p, b, times).0, now);
    if Take(p, TakeAll(p, b, times).0, now).1 {
      RunSpends(p, b, all);
      Gained(Forward(b.at, all), p.rate);
      forall from | 0 <= from < |all|
        ensures (TakeAll(p, b, times).1 - TakeAll(p, b, times[..from]).1 + 1) as real
             <= p.burst + p.rate * Forward(all[from], all[from + 1..])
      {
        ForwardBound(p, b, all, from, |all|);
        assert all[..|all|] == all && all[..from] == times[..from] && all[from + 1..|all|] == all[from + 1..];
        Gained(Forward(all[from], all[from + 1..]), p.rate);
      }
    } else {
      RefusedUnlessFits(p, b, times, now);
    }
  }

  lemma Gained(elapsed: real, rate: real)
    ensures Gain(elapsed, rate) == rate * elapsed
  {
  }

  lemma RefusedUnlessFits(p: Policy, b: Bucket, times: seq<real>, now: real)
    requires !Take(p, TakeAll(p, b, times).0, now).1
    ensures !Fits(p, b, times, times + [now])
  {
    hide Take, TakeAll, Forward, Max;
    var all, k := times + [now], |times|;
    var full := RunLeaves(p, b, times);
    TakeLeaves(p, TakeAll(p, b, times).0, now);
    assert all[..k] == times && all[k + 1..] == [] && times[..k] == times;
    SpanGrows(p, if full == -1 then b.at else times[full], all, full + 1);
    NoSpan(now);
    assert all[0..] == all && times[0..] == times;
    if full >= 0 {
      assert all[full] == times[full];
    }
  }

  lemma NoSpan(at: real)
    ensures Forward(at, []) == 0.0
  {
  }

  /** With a clock that does not go back, admissions in any window are at most the
      burst plus the refill of the length of the window. */
  lemma WindowBound(p: Policy, b: Bucket, times: seq<real>, from: nat, upto: nat)
    requires p.Sane() && 0.0 <= b.tokens && from < upto <= |times| && Ascending(times[from..upto])
    ensures (TakeAll(p, b, times[..upto]).1 - TakeAll(p, b, times[..from]).1) as real
         <= p.burst + Refill(p, times[from], times[upto - 1])
  {
    hide Take, Gain, Policy.Sane, TakeAll, Forward;
    var rest := times[from + 1..upto];
    assert [times[from]] + rest == times[from..upto];
    ForwardIsSpan(times[from], rest);
    assert Reading(times[from], rest) == times[upto - 1];
    ForwardBound(p, b, times, from, upto);
  }

  lemma {:induction false} TakeAllSplits(p: Policy, b: Bucket, first: seq<real>, second: seq<real>)
    ensures var (mid, n) := TakeAll(p, b, first);
      TakeAll(p, b, first + second) == (TakeAll(p, mid, second).0, n + TakeAll(p, mid, second).1)
  {
    if |second| == 0 {
      assert first + second == first;
    } else {
      var init := second[..|second| - 1];
      assert (first + second)[..|first + second| - 1] == first + init;
      TakeAllSplits(p, b, first, init);
    }
  }

  /** The bound is on time that goes forward: where the clock goes back, the time
      it covers again refills the bucket again. */
  lemma ClockBackRefillsTwice()
    ensures var p := Policy(1.0, 1.0);
      TakeAll(p, Bucket(1.0, 0.0), [1.0, 0.0, 1.0, 0.0, 1.0]).1 as real > p.burst + Refill(p, 0.0, 1.0)
  {
    var p, times := Policy(1.0, 1.0), [1.0, 0.0, 1.0, 0.0, 1.0];
    assert times[..4] == [1.0, 0.0, 1.0, 0.0] && times[..4][..3] == [1.0, 0.0, 1.0];
    assert times[..4][..3][..2] == [1.0, 0.0] && times[..4][..3][..2][..1] == [1.0];
    var b := Bucket(1.0, 0.0);
    assert TakeAll(p, b, [1.0]) == (Bucket(0.0, 1.0), 1);
    assert TakeAll(p, b, [1.0, 0.0]) == (Bucket(0.0, 0.0), 1);
    assert TakeAll(p, b, [1.0, 0.0, 1.0]) == (Bucket(0.0, 1.0), 2);
    assert TakeAll(p, b, [1.0, 0.0, 1.0, 0.0]) == (Bucket(0.0, 0.0), 2);
  }

  // ---------------------------------------------------------------------
  // Buckets by key
  // ---------------------------------------------------------------------

  type Key = string

  /** A map that keeps its keys in the order in which they were inserted. */
  datatype Table = Table(order: seq<Key>, buckets: map<Key, Bucket>)

  function Without(order: seq<Key>, key: Key): seq<Key> {
    if |order| == 0 then [] else
    var rest := Without(order[..|order| - 1], key);
    if order[|order| - 1] == key then rest else rest + [order[|order| - 1]]
  }

  /** The bucket of a key goes last, and the first one is forgotten if there are
      too many. */
  function Push(maxKeys: int, t: Table, key: Key, b: Bucket): Table {
    var order, buckets := Without(t.order, key) + [key], t.buckets[key := b];
    if |buckets| > maxKeys then Table(order[1..], buckets - {order[0]}) else Table(order, buckets)
  }

  function BucketOf(p: Policy, t: Table, key: Key, now: real): Bucket {
    if key in t.buckets then t.buckets[key] else Bucket(p.burst, now)
  }

  function Request(p: Policy, maxKeys: int, t: Table, key: Key, now: real): (Table, bool) {
    var (after, ok) := Take(p, BucketOf(p, t, key, now), now);
    (Push(maxKeys, t, key, after), ok)
  }

  class RateLimiter {
    const policy: Policy
    const maxKeys: int
    var table: Table

    constructor (perMinute: real, burst: real, keys: int)
      ensures policy == Policy(perMinute / 60000.0, burst) && maxKeys == keys && table == Table([], map[])
    {
      policy, maxKeys, table := Policy(perMinute / 60000.0, burst), keys, Table([], map[]);
    }

    method Charge(bucket: Bucket, now: real) returns (b: Bucket, ok: bool)
      ensures (b, ok) == Take(policy, bucket, now)
    {
      hide Gain;
      b := bucket.(tokens := Min(policy.burst, bucket.tokens + Gain(Max(0.0, now - bucket.at), policy.rate)));
      b := b.(at := now);
      ok := b.tokens >= 1.0;
      if ok {
        b := b.(tokens := b.tokens - 1.0);
      }
    }

    method Allow(key: Key, now: real) returns (ok: bool)
      modifies this`table
      ensures (table, ok) == Request(policy, maxKeys, old(table), key, now)
    {
      hide Without, Take;
      var b := if key in table.buckets then table.buckets[key] else Bucket(policy.burst, now);
      b, ok := Charge(b, now);
      table := table.(order := Without(table.order, key));
      table := Table(table.order + [key], table.buckets[key := b]);
      if |table.buckets| > maxKeys {
        var oldest := table.order[0];
        table := Table(table.order[1..], table.buckets - {oldest});
      }
    }
  }

  // ---------------------------------------------------------------------
  // Which keys are remembered
  // ---------------------------------------------------------------------

  ghost predicate Distinct(order: seq<Key>) {
    forall j, k :: 0 <= j < k < |order| ==> order[j] != order[k]
  }

  ghost predicate Valid(t: Table) {
    Distinct(t.order) && (forall k :: k in t.order <==> k in t.buckets)
  }

  lemma {:induction false} InWithout(order: seq<Key>, key: Key, k: Key)
    ensures k in Without(order, key) <==> k in order && k != key
  {
    if |order| > 0 {
      InWithout(order[..|order| - 1], key, k);
      assert order == order[..|order| - 1] + [order[|order| - 1]];
    }
  }

  lemma {:induction false} WithoutDistinct(order: seq<Key>, key: Key)
    requires Distinct(order)
    ensures Distinct(Without(order, key))
  {
    if |order| > 0 {
      var init, last := order[..|order| - 1], order[|order| - 1];
      WithoutDistinct(init, key);
      var rest := Without(init, key);
      forall j | 0 <= j < |rest| ensures rest[j] != last {
        InWithout(init, key, rest[j]);
      }
    }
  }

  lemma {:induction false} WithoutNothing(order: seq<Key>, key: Key)
    requires key !in order
    ensures Without(order, key) == order
  {
    if |order| > 0 {
      WithoutNothing(order[..|order| - 1], key);
      assert order == order[..|order| - 1] + [order[|order| - 1]];
    }
  }

  lemma {:induction false} WithoutLength(order: seq<Key>, key: Key)
    requires Distinct(order) && key in order
    ensures |Without(order, key)| == |order| - 1
  {
    var init, last := order[..|order| - 1], order[|order| - 1];
    assert order == init + [last];
    if last == key {
      WithoutNothing(init, key);
    } else {
      WithoutLength(init, key);
    }
  }

  lemma {:induction false} OrderIsKeys(order: seq<Key>, keys: set<Key>)
    requires Distinct(order) && forall k :: k in order <==> k in keys
    ensures |order| == |keys|
  {
    if |order| == 0 {
      assert keys == {};
    } else {
      var last := order[|order| - 1];
      assert order == order[..|order| - 1] + [last];
      OrderIsKeys(order[..|order| - 1], keys - {last});
    }
  }

  lemma UsedLast(t: Table, key: Key, b: Bucket)
    requires Valid(t)
    ensures var all := Without(t.order, key) + [key];
      Distinct(all) && |all| == |t.buckets[key := b]| && forall k :: k in all <==> k in t.buckets[key := b]
  {
    hide Without;
    WithoutDistinct(t.order, key);
    var all := Without(t.order, key) + [key];
    forall k: Key ensures k in all <==> k in t.buckets[key := b] {
      InWithout(t.order, key, k);
    }
    InWithout(t.order, key, key);
    assert forall j :: 0 <= j < |all| - 1 ==> all[j] in Without(t.order, key);
    OrderIsKeys(all, t.buckets[key := b].Keys);
  }

  lemma FirstForgotten(all: seq<Key>, buckets: map<Key, Bucket>)
    requires |all| > 0 && Distinct(all) && forall k :: k in all <==> k in buckets
    ensures Valid(Table(all[1..], buckets - {all[0]}))
  {
    assert all == [all[0]] + all[1..];
  }

  lemma PushKeepsValid(maxKeys: int, t: Table, key: Key, b: Bucket)
    requires Valid(t)
    ensures Valid(Push(maxKeys, t, key, b)) && Distinct(Without(t.order, key) + [key])
    ensures var all := Without(t.order, key) + [key];
      Push(maxKeys, t, key, b).order == (if |all| > maxKeys then all[1..] else all)
  {
    hide Without;
    UsedLast(t, key, b);
    FirstForgotten(Without(t.order, key) + [key], t.buckets[key := b]);
  }

  lemma PushBuckets(maxKeys: int, t: Table, key: Key, b: Bucket)
    ensures forall k :: k != key && k in Push(maxKeys, t, key, b).buckets ==>
      k in t.buckets && Push(maxKeys, t, key, b).buckets[k] == t.buckets[k]
    ensures key in Push(maxKeys, t, key, b).buckets ==> Push(maxKeys, t, key, b).buckets[key] == b
  {
  }

  /** Keys by last use, the most recent one last. */
  function Recency(used: seq<Key>): seq<Key> {
    if |used| == 0 then [] else Without(Recency(used[..|used| - 1]), used[|used| - 1]) + [used[|used| - 1]]
  }

  function Last(s: seq<Key>, n: int): seq<Key> {
    if n <= 0 then [] else if |s| <= n then s else s[|s| - n..]
  }

  lemma {:induction false} RecencyDistinct(used: seq<Key>)
    ensures Distinct(Recency(used))
  {
    if |used| > 0 {
      RecencyDistinct(used[..|used| - 1]);
      var rest := Without(Recency(used[..|used| - 1]), used[|used| - 1]);
      WithoutDistinct(Recency(used[..|used| - 1]), used[|used| - 1]);
      InWithout(Recency(used[..|used| - 1]), used[|used| - 1], used[|used| - 1]);
      assert forall j :: 0 <= j < |rest| ==> rest[j] in rest;
    }
  }

  lemma {:induction false} WithoutSplits(a: seq<Key>, b: seq<Key>, key: Key)
    ensures Without(a + b, key) == Without(a, key) + Without(b, key)
  {
    if |b| == 0 {
      assert a + b == a;
    } else {
      assert (a + b)[..|a + b| - 1] == a + b[..|b| - 1];
      WithoutSplits(a, b[..|b| - 1], key);
    }
  }

  /** Moving a key to the end and cutting to `n` keeps the last `n`. */
  lemma LastAfterUse(r: seq<Key>, n: int, key: Key)
    requires Distinct(r)
    ensures var all := Without(Last(r, n), key) + [key];
      Last(Without(r, key) + [key], n) == if |all| > n then all[1..] else all
  {
    if n <= 0 {
      assert Without([], key) + [key] == [key] && [key][1..] == [];
    } else if |r| > n {
      LastOfMany(r, n, key);
    } else if key in r {
      WithoutLength(r, key);
    } else {
      WithoutNothing(r, key);
    }
  }

  lemma LastOfMany(r: seq<Key>, n: int, key: Key)
    requires Distinct(r) && 0 < n < |r|
    ensures var all := Without(r[|r| - n..], key) + [key];
      Last(Without(r, key) + [key], n) == if |all| > n then all[1..] else all
  {
    hide Without;
    var a, b := r[..|r| - n], r[|r| - n..];
    assert r == a + b;
    WithoutSplits(a, b, key);
    var all := Without(b, key) + [key];
    assert Without(r, key) + [key] == Without(a, key) + all;
    if key in b {
      WithoutLength(b, key);
    } else {
      WithoutNothing(b, key);
    }
    LastOf(Without(a, key), all, n, a, b, key);
  }

  /** The first part of the order is as long as it was, or one key shorter. */
  lemma LastOf(before: seq<Key>, all: seq<Key>, n: int, a: seq<Key>, b: seq<Key>, key: Key)
    requires n > 0 && |b| == n && |all| == (if key in b then n else n + 1)
    ensures Last(before + all, n) == if |all| > n then all[1..] else all
  {
  }

  lemma {:induction false} RecencyKeys(used: seq<Key>, key: Key)
    ensures key in Recency(used) <==> key in used
  {
    if |used| > 0 {
      var init, last := used[..|used| - 1], used[|used| - 1];
      assert used == init + [last];
      RecencyKeys(init, key);
      InWithout(Recency(init), last, key);
    }
  }

  datatype Req = Req(key: Key, at: real)

  function UsedKeys(reqs: seq<Req>): seq<Key> {
    if |reqs| == 0 then [] else UsedKeys(reqs[..|reqs| - 1]) + [reqs[|reqs| - 1].key]
  }

  function Serve(p: Policy, maxKeys: int, t: Table, reqs: seq<Req>): Table {
    if |reqs| == 0 then t else
    var before := Serve(p, maxKeys, t, reqs[..|reqs| - 1]);
    Request(p, maxKeys, before, reqs[|reqs| - 1].key, reqs[|reqs| - 1].at).0
  }

  /** The table remembers exactly the most recently used keys, as many as fit. */
  lemma {:induction false} RemembersMostRecent(p: Policy, maxKeys: int, reqs: seq<Req>)
    ensures var t := Serve(p, maxKeys, Table([], map[]), reqs);
      Valid(t) && t.order == Last(Recency(UsedKeys(reqs)), maxKeys)
  {
    if |reqs| > 0 {
      hide Take, Push;
      var init, last := reqs[..|reqs| - 1], reqs[|reqs| - 1];
      RemembersMostRecent(p, maxKeys, init);
      var t := Serve(p, maxKeys, Table([], map[]), init);
      PushKeepsValid(maxKeys, t, last.key, Take(p, BucketOf(p, t, last.key, last.at), last.at).0);
      RecencyDistinct(UsedKeys(init));
      LastAfterUse(Recency(UsedKeys(init)), maxKeys, last.key);
      assert UsedKeys(reqs)[..|init|] == UsedKeys(init) by { UsedAt(init); }
    }
  }

  lemma {:induction false} UsedAt(reqs: seq<Req>)
    ensures |UsedKeys(reqs)| == |reqs| && forall i | 0 <= i < |reqs| :: UsedKeys(reqs)[i] == reqs[i].key
  {
    if |reqs| > 0 {
      UsedAt(reqs[..|reqs| - 1]);
    }
  }

  // ---------------------------------------------------------------------
  // The bound of one key
  // ---------------------------------------------------------------------

  /** The key is remembered, and only some others were used after it. */
  predicate Kept(order: seq<Key>, key: Key, others: set<Key>) {
    && |order| > 0
    && (order[|order| - 1] == key || (order[|order| - 1] in others && Kept(order[..|order| - 1], key, others)))
  }

  lemma {:induction false} KeptWithout(order: seq<Key>, key: Key, others: set<Key>, other: Key)
    requires Kept(order, key, others) && other != key
    ensures Kept(Without(order, other), key, others)
  {
    if order[|order| - 1] != key {
      KeptWithout(order[..|order| - 1], key, others, other);
      var rest := Without(order[..|order| - 1], other);
      assert (rest + [order[|order| - 1]])[..|rest|] == rest;
    }
  }

  lemma {:induction false} KeptFewer(order: seq<Key>, key: Key, others: set<Key>, x: Key)
    requires Kept(order, key, others) && x !in order
    ensures Kept(order, key, others - {x})
  {
    if order[|order| - 1] != key {
      KeptFewer(order[..|order| - 1], key, others, x);
    }
  }

  lemma {:induction false} KeptMore(order: seq<Key>, key: Key, some: set<Key>, others: set<Key>)
    requires Kept(order, key, some) && some <= others
    ensures Kept(order, key, others)
  {
    if order[|order| - 1] != key {
      KeptMore(order[..|order| - 1], key, some, others);
    }
  }

  /** With fewer others than the rest of the table, the first key is another one. */
  lemma {:induction false} KeptTail(order: seq<Key>, key: Key, others: set<Key>)
    requires Distinct(order) && Kept(order, key, others) && |order| > |others| + 1
    ensures Kept(order[1..], key, others)
  {
    var init, last := order[..|order| - 1], order[|order| - 1];
    assert order == init + [last];
    if last != key {
      KeptFewer(init, key, others, last);
      KeptTail(init, key, others - {last});
      KeptMore(init[1..], key, others - {last}, others);
      assert order[1..][..|order| - 2] == init[1..];
    }
  }

  lemma {:induction false} KeptIsThere(order: seq<Key>, key: Key, others: set<Key>)
    requires Kept(order, key, others)
    ensures key in order
  {
    if order[|order| - 1] != key {
      KeptIsThere(order[..|order| - 1], key, others);
    }
  }

  function Admitted(p: Policy, maxKeys: int, t: Table, reqs: seq<Req>, key: Key): nat {
    if |reqs| == 0 then 0 else
    var init, last := reqs[..|reqs| - 1], reqs[|reqs| - 1];
    Admitted(p, maxKeys, t, init, key)
    + if last.key == key && Request(p, maxKeys, Serve(p, maxKeys, t, init), key, last.at).1 then 1 else 0
  }

  ghost predicate InOrder(reqs: seq<Req>) {
    forall j, k :: 0 <= j <= k < |reqs| ==> reqs[j].at <= reqs[k].at
  }

  /** No bucket is in debt or ahead of the clock. */
  ghost predicate Settled(t: Table, now: real) {
    forall k :: k in t.buckets ==> 0.0 <= t.buckets[k].tokens && t.buckets[k].at <= now
  }

  /** The keys used other than one. */
  ghost function Others(reqs: seq<Req>, key: Key): set<Key> {
    set r | r in reqs && r.key != key :: r.key
  }

  /** The key has not been used yet in the window, or is remembered with what it
      was admitted paid for. */
  ghost predicate Paid(p: Policy, t: Table, key: Key, others: set<Key>, n: nat, start: real) {
    n == 0 || (Kept(t.order, key, others) && key in t.buckets
               && n as real + t.buckets[key].tokens <= p.burst + Refill(p, start, t.buckets[key].at))
  }

  lemma RequestSettles(p: Policy, maxKeys: int, t: Table, key: Key, now: real)
    requires p.Sane() && Valid(t) && Settled(t, now)
    ensures Settled(Request(p, maxKeys, t, key, now).0, now)
  {
    hide Take, Push;
    var b := BucketOf(p, t, key, now);
    TakeSpends(p, b, now);
    PushBuckets(maxKeys, t, key, Take(p, b, now).0);
  }

  /** Another key's request neither spends for this one nor forgets it. */
  lemma OthersKeepPaid(p: Policy, maxKeys: int, t: Table, key: Key, other: Key, now: real,
                       others: set<Key>, n: nat, start: real)
    requires Valid(t) && Paid(p, t, key, others, n, start)
    requires other != key && other in others && |others| < maxKeys
    ensures Paid(p, Request(p, maxKeys, t, other, now).0, key, others, n, start)
  {
    hide Take, Push, Refill;
    if n > 0 {
      var after := Take(p, BucketOf(p, t, other, now), now).0;
      PushBuckets(maxKeys, t, other, after);
      KeptAfterPush(maxKeys, t, key, other, after, others);
    }
  }

  lemma KeptAfterPush(maxKeys: int, t: Table, key: Key, other: Key, b: Bucket, others: set<Key>)
    requires Valid(t) && Kept(t.order, key, others) && other != key && other in others && |others| < maxKeys
    ensures Kept(Push(maxKeys, t, other, b).order, key, others) && key in Push(maxKeys, t, other, b).buckets
  {
    hide Push, Without;
    PushKeepsValid(maxKeys, t, other, b);
    var all := Without(t.order, other) + [other];
    KeptWithout(t.order, key, others, other);
    assert all[..|all| - 1] == Without(t.order, other);
    if |all| > maxKeys {
      KeptTail(all, key, others);
    }
    KeptIsThere(Push(maxKeys, t, other, b).order, key, others);
  }

  /** The key's own request is paid out of its bucket, which stays. */
  lemma OwnKeepsPaid(p: Policy, maxKeys: int, t: Table, key: Key, now: real, others: set<Key>, n: nat, start: real)
    requires p.Sane() && Valid(t) && Settled(t, now) && Paid(p, t, key, others, n, start)
    requires maxKeys > 0 && start <= now
    ensures var (after, ok) := Request(p, maxKeys, t, key, now);
      Paid(p, after, key, others, if ok then n + 1 else n, start)
  {
    hide Take, Push, Refill;
    var b := BucketOf(p, t, key, now);
    var after := Take(p, b, now).0;
    TakeSpends(p, b, now);
    RefillIsGain(p, b.at, now);
    PushKeepsValid(maxKeys, t, key, after);
    PushBuckets(maxKeys, t, key, after);
    var pushed := Push(maxKeys, t, key, after);
    assert pushed.order[|pushed.order| - 1] == key;
    KeptIsThere(pushed.order, key, others);
    RefillAdds(p, start, b.at, now);
    RefillForward(p, start, now);
  }

  lemma RefillIsGain(p: Policy, a: real, b: real)
    requires a <= b
    ensures Gain(Max(0.0, b - a), p.rate) == Refill(p, a, b)
  {
  }

  lemma RefillForward(p: Policy, a: real, b: real)
    requires p.Sane() && a <= b
    ensures Refill(p, a, b) >= 0.0
  {
    NonNegative(p.rate, b - a);
  }

  lemma {:induction false} ServePays(p: Policy, maxKeys: int, t: Table, reqs: seq<Req>, key: Key, others: set<Key>)
    requires p.Sane() && Valid(t) && maxKeys > 0 && |reqs| > 0 && InOrder(reqs) && Settled(t, reqs[0].at)
    requires Others(reqs, key) <= others && |others| < maxKeys
    ensures var after := Serve(p, maxKeys, t, reqs);
      && Valid(after) && Settled(after, reqs[|reqs| - 1].at)
      && Paid(p, after, key, others, Admitted(p, maxKeys, t, reqs, key), reqs[0].at)
  {
    hide Request, Valid, Settled, Paid;
    var init, last := reqs[..|reqs| - 1], reqs[|reqs| - 1];
    assert last in reqs;
    var before := Serve(p, maxKeys, t, init);
    if |init| > 0 {
      ServePays(p, maxKeys, t, init, key, others);
      Later(before, init[|init| - 1].at, last.at);
    } else {
      Unpaid(p, t, key, others, reqs[0].at);
    }
    StaysValid(p, maxKeys, before, last.key, last.at);
    RequestSettles(p, maxKeys, before, last.key, last.at);
    var n := Admitted(p, maxKeys, t, init, key);
    if last.key == key {
      OwnKeepsPaid(p, maxKeys, before, key, last.at, others, n, reqs[0].at);
    } else {
      assert last.key in Others(reqs, key);
      OthersKeepPaid(p, maxKeys, before, key, last.key, last.at, others, n, reqs[0].at);
    }
  }

  lemma Later(t: Table, a: real, b: real)
    requires Settled(t, a) && a <= b
    ensures Settled(t, b)
  {
  }

  lemma Unpaid(p: Policy, t: Table, key: Key, others: set<Key>, start: real)
    ensures Paid(p, t, key, others, 0, start)
  {
  }

  lemma StaysValid(p: Policy, maxKeys: int, t: Table, key: Key, now: real)
    requires Valid(t)
    ensures Valid(Request(p, maxKeys, t, key, now).0)
  {
    PushKeepsValid(maxKeys, t, key, Take(p, BucketOf(p, t, key, now), now).0);
  }

  /** Over any window of requests in which fewer than `maxKeys` other keys are
      used, whatever came before it, a key is admitted at most its burst plus the
      refill of the window. */
  lemma KeyWindowBound(p: Policy, maxKeys: int, t: Table, reqs: seq<Req>, key: Key)
    requires p.Sane() && Valid(t) && |reqs| > 0 && InOrder(reqs) && Settled(t, reqs[0].at)
    requires |Others(reqs, key)| < maxKeys
    ensures Admitted(p, maxKeys, t, reqs, key) as real <= p.burst + Refill(p, reqs[0].at, reqs[|reqs| - 1].at)
  {
    hide Refill, Valid, Admitted, Serve, Others, Policy.Sane;
    ServePays(p, maxKeys, t, reqs, key, Others(reqs, key));
    WindowPaid(p, Serve(p, maxKeys, t, reqs), key, Others(reqs, key), Admitted(p, maxKeys, t, reqs, key),
               reqs[0].at, reqs[|reqs| - 1].at);
  }

  lemma WindowPaid(p: Policy, t: Table, key: Key, others: set<Key>, n: nat, start: real, end: real)
    requires p.Sane() && Settled(t, end) && Paid(p, t, key, others, n, start) && start <= end
    ensures n as real <= p.burst + Refill(p, start, end)
  {
    hide Refill;
    RefillForward(p, start, end);
    if n > 0 {
      RefillForward(p, t.buckets[key].at, end);
      RefillAdds(p, start, t.buckets[key].at, end);
    }
  }

  // ---------------------------------------------------------------------
  // What forgetting a key gives away
  // ---------------------------------------------------------------------

  const NOTHING := Table([], map[])

  /** A key that is not among the most recently used ones is admitted, whatever it
      has spent. */
  lemma ForgottenIsAdmitted(p: Policy, maxKeys: int, reqs: seq<Req>, key: Key, now: real)
    requires 1.0 <= p.burst && key !in Last(Recency(UsedKeys(reqs)), maxKeys)
    ensures Request(p, maxKeys, Serve(p, maxKeys, NOTHING, reqs), key, now).1
  {
    hide Take, Push;
    RemembersMostRecent(p, maxKeys, reqs);
    FullBucketAdmits(p, now);
  }

  lemma FullBucketAdmits(p: Policy, now: real)
    requires 1.0 <= p.burst
    ensures Take(p, Bucket(p.burst, now), now).1
  {
    assert Gain(0.0, p.rate) == 0.0;
  }

  /** By now the bucket is as full as a new one. */
  predicate Recovered(p: Policy, b: Bucket, now: real) {
    b.tokens + Gain(Max(0.0, now - b.at), p.rate) >= p.burst
  }

  /** Starting afresh is the same as having kept the bucket exactly when the bucket
      has recovered. */
  lemma AfreshIffRecovered(p: Policy, b: Bucket, now: real)
    ensures Take(p, Bucket(p.burst, now), now) == Take(p, b, now) <==> Recovered(p, b, now)
  {
    assert Gain(0.0, p.rate) == 0.0;
  }

  /** The buckets of a limiter that never forgets a key. */
  function Ledger(p: Policy, reqs: seq<Req>): map<Key, Bucket> {
    if |reqs| == 0 then map[] else
    var before, last := Ledger(p, reqs[..|reqs| - 1]), reqs[|reqs| - 1];
    before[last.key := Take(p, BucketOf(p, Table([], before), last.key, last.at), last.at).0]
  }

  /** The request is answered, and its bucket left, as if no key were ever forgotten. */
  ghost predicate AsIfKept(p: Policy, maxKeys: int, before: seq<Req>, req: Req) {
    Take(p, BucketOf(p, Serve(p, maxKeys, NOTHING, before), req.key, req.at), req.at)
    == Take(p, BucketOf(p, Table([], Ledger(p, before)), req.key, req.at), req.at)
  }

  /** If the key of the request has been forgotten, its bucket has recovered. */
  ghost predicate ReturnsFull(p: Policy, maxKeys: int, before: seq<Req>, req: Req) {
    var ledger := Ledger(p, before);
    req.key in ledger && req.key !in Last(Recency(UsedKeys(before)), maxKeys) ==>
      Recovered(p, ledger[req.key], req.at)
  }

  /** Every bucket that is remembered is the one in the ledger. */
  ghost predicate Agrees(p: Policy, maxKeys: int, reqs: seq<Req>) {
    var t, ledger := Serve(p, maxKeys, NOTHING, reqs), Ledger(p, reqs);
    forall k :: k in t.buckets ==> k in ledger && t.buckets[k] == ledger[k]
  }

  lemma AgreesStep(p: Policy, maxKeys: int, reqs: seq<Req>)
    requires |reqs| > 0 && Agrees(p, maxKeys, reqs[..|reqs| - 1])
    ensures AsIfKept(p, maxKeys, reqs[..|reqs| - 1], reqs[|reqs| - 1])
            <==> ReturnsFull(p, maxKeys, reqs[..|reqs| - 1], reqs[|reqs| - 1])
    ensures AsIfKept(p, maxKeys, reqs[..|reqs| - 1], reqs[|reqs| - 1]) ==> Agrees(p, maxKeys, reqs)
  {
    hide Take, Push, Recovered, Without, Recency;
    var init, last := reqs[..|reqs| - 1], reqs[|reqs| - 1];
    var t, ledger := Serve(p, maxKeys, NOTHING, init), Ledger(p, init);
    RemembersMostRecent(p, maxKeys, init);
    PushBuckets(maxKeys, t, last.key, Take(p, BucketOf(p, t, last.key, last.at), last.at).0);
    if last.key in ledger {
      AfreshIffRecovered(p, ledger[last.key], last.at);
    }
  }

  ghost predicate AllAsIfKept(p: Policy, maxKeys: int, reqs: seq<Req>) {
    forall i | 0 <= i < |reqs| :: AsIfKept(p, maxKeys, reqs[..i], reqs[i])
  }

  ghost predicate AllReturnFull(p: Policy, maxKeys: int, reqs: seq<Req>) {
    forall i | 0 <= i < |reqs| :: ReturnsFull(p, maxKeys, reqs[..i], reqs[i])
  }

  lemma AllSplit(p: Policy, maxKeys: int, init: seq<Req>, last: Req)
    ensures AllAsIfKept(p, maxKeys, init + [last]) <==>
            AllAsIfKept(p, maxKeys, init) && AsIfKept(p, maxKeys, init, last)
    ensures AllReturnFull(p, maxKeys, init + [last]) <==>
            AllReturnFull(p, maxKeys, init) && ReturnsFull(p, maxKeys, init, last)
  {
    hide ReturnsFull, AsIfKept;
    var reqs := init + [last];
    assert forall i | 0 <= i < |init| :: init[..i] == reqs[..i] && init[i] == reqs[i];
    assert reqs[..|init|] == init && reqs[|init|] == last;
  }

  /** Over any run, forgetting keys changes no answer and no bucket exactly when
      every forgotten key that comes back has recovered its bucket. */
  lemma {:induction false} ForgettingIsHarmlessIff(p: Policy, maxKeys: int, reqs: seq<Req>)
    ensures AllAsIfKept(p, maxKeys, reqs) <==> AllReturnFull(p, maxKeys, reqs)
    ensures AllAsIfKept(p, maxKeys, reqs) ==> Agrees(p, maxKeys, reqs)
  {
    if |reqs| > 0 {
      hide Agrees, ReturnsFull, AsIfKept, AllReturnFull, AllAsIfKept;
      var init := reqs[..|reqs| - 1];
      assert reqs == init + [reqs[|reqs| - 1]];
      ForgettingIsHarmlessIff(p, maxKeys, init);
      AllSplit(p, maxKeys, init, reqs[|reqs| - 1]);
      if Agrees(p, maxKeys, init) {
        AgreesStep(p, maxKeys, reqs);
      }
    }
  }

  /** When a key was used. */
  function TimesOf(reqs: seq<Req>, key: Key): seq<real> {
    if |reqs| == 0 then [] else
    TimesOf(reqs[..|reqs| - 1], key) + if reqs[|reqs| - 1].key == key then [reqs[|reqs| - 1].at] else []
  }

  /** A bucket of the key's own, full at its first use, after its uses so far. */
  function OwnBucket(p: Policy, reqs: seq<Req>, key: Key, now: real): Bucket {
    var times := TimesOf(reqs, key);
    if times == [] then Bucket(p.burst, now) else TakeAll(p, Bucket(p.burst, times[0]), times).0
  }

  lemma OneMoreUse(p: Policy, reqs: seq<Req>, key: Key, now: real)
    ensures var times := TimesOf(reqs, key) + [now];
      TakeAll(p, Bucket(p.burst, times[0]), times).0 == Take(p, OwnBucket(p, reqs, key, now), now).0
  {
    hide Take;
    var was := TimesOf(reqs, key);
    assert (was + [now])[..|was|] == was;
  }

  lemma {:induction false} LedgerIsOwn(p: Policy, reqs: seq<Req>, key: Key, now: real)
    ensures key in Ledger(p, reqs) <==> TimesOf(reqs, key) != []
    ensures BucketOf(p, Table([], Ledger(p, reqs)), key, now) == OwnBucket(p, reqs, key, now)
  {
    hide Take, TakeAll;
    if |reqs| > 0 {
      var init, last := reqs[..|reqs| - 1], reqs[|reqs| - 1];
      if last.key == key {
        LedgerIsOwn(p, init, key, last.at);
        OneMoreUse(p, init, key, last.at);
        assert TimesOf(reqs, key) == TimesOf(init, key) + [last.at];
      } else {
        LedgerIsOwn(p, init, key, now);
        assert TimesOf(reqs, key) == TimesOf(init, key);
      }
    }
  }

  lemma AllRemembered(maxKeys: int, used: seq<Key>, keys: set<Key>)
    requires |keys| <= maxKeys && forall k :: k in used ==> k in keys
    ensures Last(Recency(used), maxKeys) == Recency(used)
  {
    var r := Recency(used);
    RecencyDistinct(used);
    forall k | k in r ensures k in keys {
      RecencyKeys(used, k);
    }
    DistinctFit(r, keys);
  }

  lemma {:induction false} DistinctFit(r: seq<Key>, keys: set<Key>)
    requires Distinct(r) && forall k :: k in r ==> k in keys
    ensures |r| <= |keys|
  {
    if |r| > 0 {
      var init, last := r[..|r| - 1], r[|r| - 1];
      assert last in keys && forall k :: k in init ==> k != last;
      DistinctFit(init, keys - {last});
    }
  }

  /** While no more keys are used than can be remembered, each is answered from a
      bucket of its own, full at its first use, whatever the others do. */
  lemma KeysStandAlone(p: Policy, maxKeys: int, reqs: seq<Req>, key: Key, now: real)
    requires |(set req | req in reqs :: req.key)| <= maxKeys
    ensures Request(p, maxKeys, Serve(p, maxKeys, NOTHING, reqs), key, now).1
       <==> Take(p, OwnBucket(p, reqs, key, now), now).1
  {
    hide Take, Push, Ledger, Recency, Recovered;
    var keys := set req | req in reqs :: req.key;
    var used := UsedKeys(reqs);
    UsedAt(reqs);
    forall i | 0 <= i < |reqs| ensures ReturnsFull(p, maxKeys, reqs[..i], reqs[i]) {
      UsedAt(reqs[..i]);
      assert forall k :: k in UsedKeys(reqs[..i]) ==> k in keys by {
        assert forall j :: 0 <= j < i ==> reqs[..i][j] in reqs;
      }
      AllRemembered(maxKeys, UsedKeys(reqs[..i]), keys);
      RememberedIfUsed(p, reqs[..i], reqs[i].key);
    }
    ForgettingIsHarmlessIff(p, maxKeys, reqs);
    assert forall k :: k in used ==> k in keys by {
      assert forall j :: 0 <= j < |reqs| ==> reqs[j] in reqs;
    }
    AllRemembered(maxKeys, used, keys);
    RememberedIfUsed(p, reqs, key);
    RemembersMostRecent(p, maxKeys, reqs);
    LedgerIsOwn(p, reqs, key, now);
  }

  lemma RememberedIfUsed(p: Policy, reqs: seq<Req>, key: Key)
    ensures key in Ledger(p, reqs) <==> key in Recency(UsedKeys(reqs))
  {
    RecencyKeys(UsedKeys(reqs), key);
    LedgerKeys(p, reqs, key);
  }

  lemma {:induction false} LedgerKeys(p: Policy, reqs: seq<Req>, key: Key)
    ensures key in Ledger(p, reqs) <==> key in UsedKeys(reqs)
  {
    hide Take;
    if |reqs| > 0 {
      LedgerKeys(p, reqs[..|reqs| - 1], key);
    }
  }

  // ---------------------------------------------------------------------
  // Keys that come no faster than another bucket lets them
  // ---------------------------------------------------------------------

  /** No window holds more requests than a bucket of policy `g` would admit. */
  ghost predicate Paced(g: Policy, reqs: seq<Req>) {
    forall i, j | 0 <= i <= j < |reqs| :: (j - i + 1) as real <= g.burst + Refill(g, reqs[i].at, reqs[j].at)
  }

  /** The requests that one bucket lets through, and the bucket after them. */
  function Gate(g: Policy, b: Bucket, reqs: seq<Req>): (seq<Req>, Bucket) {
    if |reqs| == 0 then ([], b) else
    var (passed, before) := Gate(g, b, reqs[..|reqs| - 1]);
    var (after, ok) := Take(g, before, reqs[|reqs| - 1].at);
    (if ok then passed + [reqs[|reqs| - 1]] else passed, after)
  }

  /** The requests from `i` on are paid out of a burst and the refill since. */
  ghost predicate PaidSince(g: Policy, passed: seq<Req>, b: Bucket, i: int) {
    0 <= i < |passed| ==> (|passed| - i) as real + b.tokens <= g.burst + Refill(g, passed[i].at, b.at)
  }

  /** What a bucket lets through is paced by its policy. */
  lemma {:induction false} GatePaces(g: Policy, b: Bucket, reqs: seq<Req>)
    requires g.Sane() && 0.0 <= b.tokens && InOrder(reqs) && (|reqs| > 0 ==> b.at <= reqs[0].at)
    ensures var (passed, after) := Gate(g, b, reqs);
      && InOrder(passed) && Paced(g, passed) && 0.0 <= after.tokens
      && after.at == (if |reqs| == 0 then b.at else reqs[|reqs| - 1].at)
      && (|passed| > 0 ==> passed[|passed| - 1].at <= after.at)
      && forall i | 0 <= i < |passed| :: PaidSince(g, passed, after, i)
  {
    if |reqs| > 0 {
      hide Refill, Take, Policy.Sane, Paced;
      var init, last := reqs[..|reqs| - 1], reqs[|reqs| - 1];
      GatePaces(g, b, init);
      var (passed, before) := Gate(g, b, init);
      var (after, ok) := Take(g, before, last.at);
      TakeSpends(g, before, last.at);
      RefillIsGain(g, before.at, last.at);
      RefillAdds(g, last.at, last.at, last.at);
      var now := if ok then passed + [last] else passed;
      forall i | 0 <= i < |now| ensures PaidSince(g, now, after, i) {
        assert PaidSince(g, passed, before, i);
        RefillAdds(g, now[i].at, before.at, last.at);
      }
      if ok {
        PacedOneMore(g, passed, last, after);
      }
    }
  }

  lemma PacedOneMore(g: Policy, passed: seq<Req>, last: Req, after: Bucket)
    requires Paced(g, passed) && 0.0 <= after.tokens && after.at == last.at
    requires forall i | 0 <= i < |passed| + 1 :: PaidSince(g, passed + [last], after, i)
    ensures Paced(g, passed + [last])
  {
    hide Refill;
    var reqs := passed + [last];
    forall i, j | 0 <= i <= j < |reqs|
      ensures (j - i + 1) as real <= g.burst + Refill(g, reqs[i].at, reqs[j].at)
    {
      if j == |passed| {
        assert PaidSince(g, reqs, after, i);
      }
    }
  }

  /** How many keys stand behind the last use of a key. */
  function Depth(order: seq<Key>, key: Key): (n: nat)
    ensures n <= |order|
  {
    if |order| == 0 || order[|order| - 1] == key then 0 else Depth(order[..|order| - 1], key) + 1
  }

  lemma {:induction false} DepthWithout(order: seq<Key>, key: Key, other: Key)
    requires other != key
    ensures Depth(Without(order, other), key) <= Depth(order, key)
  {
    if |order| > 0 && order[|order| - 1] != key {
      var init, last := order[..|order| - 1], order[|order| - 1];
      DepthWithout(init, key, other);
      var rest := Without(init, other);
      assert (rest + [last])[..|rest|] == rest;
    }
  }

  lemma {:induction false} DepthOfRecency(used: seq<Key>, key: Key)
    ensures Depth(Recency(used), key) <= Depth(used, key)
  {
    if |used| > 0 && used[|used| - 1] != key {
      var init, last := used[..|used| - 1], used[|used| - 1];
      DepthOfRecency(init, key);
      DepthWithout(Recency(init), key, last);
      var rest := Without(Recency(init), last);
      assert (rest + [last])[..|rest|] == rest;
    }
  }

  lemma {:induction false} ShallowIsRemembered(order: seq<Key>, key: Key, n: int)
    requires key in order && Depth(order, key) < n
    ensures key in Last(order, n)
  {
    var init, last := order[..|order| - 1], order[|order| - 1];
    assert order == init + [last];
    if last == key {
      assert Last(order, n)[|Last(order, n)| - 1] == key;
    } else {
      ShallowIsRemembered(init, key, n - 1);
      assert forall k :: k in Last(init, n - 1) ==> k in Last(order, n);
    }
  }

  lemma LastUsed(reqs: seq<Req>)
    requires |reqs| > 0
    ensures UsedKeys(reqs) == UsedKeys(reqs[..|reqs| - 1]) + [reqs[|reqs| - 1].key]
    ensures |UsedKeys(reqs)| == |reqs| && UsedKeys(reqs)[..|reqs| - 1] == UsedKeys(reqs[..|reqs| - 1])
  {
    UsedAt(reqs[..|reqs| - 1]);
  }

  /** The bucket in the ledger was last charged at the last use of the key. */
  lemma {:induction false} LedgerAt(p: Policy, reqs: seq<Req>, key: Key)
    requires p.Sane() && key in Ledger(p, reqs)
    ensures key in UsedKeys(reqs) && Depth(UsedKeys(reqs), key) < |reqs|
    ensures Ledger(p, reqs)[key].at == reqs[|reqs| - 1 - Depth(UsedKeys(reqs), key)].at
    ensures 0.0 <= Ledger(p, reqs)[key].tokens
  {
    hide Take, UsedKeys, Max, Gain;
    var init, last := reqs[..|reqs| - 1], reqs[|reqs| - 1];
    LastUsed(reqs);
    if key in Ledger(p, init) {
      LedgerAt(p, init, key);
    }
    if last.key == key {
      TakeSpends(p, BucketOf(p, Table([], Ledger(p, init)), key, last.at), last.at);
    }
  }

  /** A key forgotten since its last use has seen `maxKeys` requests of others go by. */
  lemma ForgottenLongAgo(p: Policy, maxKeys: int, before: seq<Req>, key: Key)
    requires p.Sane() && key in Ledger(p, before) && key !in Last(Recency(UsedKeys(before)), maxKeys)
    ensures Depth(UsedKeys(before), key) >= maxKeys
  {
    hide Depth, Recency, Ledger, Last;
    LedgerAt(p, before, key);
    RecencyKeys(UsedKeys(before), key);
    DepthOfRecency(UsedKeys(before), key);
    if Depth(UsedKeys(before), key) < maxKeys {
      ShallowIsRemembered(Recency(UsedKeys(before)), key, maxKeys);
    }
  }

  /** Enough time for `n` requests of pace `g` is enough to fill a bucket. */
  lemma LongEnough(p: Policy, g: Policy, n: int, elapsed: real)
    requires p.Sane() && g.rate > 0.0 && elapsed >= 0.0
    requires n as real <= g.burst + Gain(elapsed, g.rate)
    requires p.burst * g.rate <= p.rate * (n as real - g.burst)
    ensures Gain(elapsed, p.rate) >= p.burst
  {
    var x := n as real - g.burst;
    assert x <= elapsed * g.rate;
    assert p.rate * x <= p.rate * (elapsed * g.rate) by {
      NonNegative(p.rate, elapsed * g.rate - x);
    }
    assert p.rate * (elapsed * g.rate) == (elapsed * p.rate) * g.rate;
    if elapsed * p.rate < p.burst {
      assert (p.burst - elapsed * p.rate) * g.rate > 0.0;
    }
  }

  /** Where keys come no faster than a bucket of policy `g` lets them, and the table
      is big enough for a bucket to fill in the time that this many keys take,
      forgetting changes no answer at all. */
  lemma PacedForgettingIsHarmless(p: Policy, g: Policy, maxKeys: nat, reqs: seq<Req>)
    requires p.Sane() && g.rate > 0.0 && InOrder(reqs) && Paced(g, reqs)
    requires p.burst * g.rate <= p.rate * ((maxKeys + 2) as real - g.burst)
    ensures AllAsIfKept(p, maxKeys, reqs)
  {
    hide AllAsIfKept, ReturnsFull;
    forall i | 0 <= i < |reqs| ensures ReturnsFull(p, maxKeys, reqs[..i], reqs[i]) {
      PacedReturnsFull(p, g, maxKeys, reqs, i);
    }
    ForgettingIsHarmlessIff(p, maxKeys, reqs);
  }

  lemma PacedReturnsFull(p: Policy, g: Policy, maxKeys: nat, reqs: seq<Req>, i: nat)
    requires p.Sane() && g.rate > 0.0 && InOrder(reqs) && Paced(g, reqs) && i < |reqs|
    requires p.burst * g.rate <= p.rate * ((maxKeys + 2) as real - g.burst)
    ensures ReturnsFull(p, maxKeys, reqs[..i], reqs[i])
  {
    hide Depth, Recency, Ledger, Last, Gain;
    var before, req := reqs[..i], reqs[i];
    if req.key in Ledger(p, before) && req.key !in Last(Recency(UsedKeys(before)), maxKeys) {
      LedgerAt(p, before, req.key);
      ForgottenLongAgo(p, maxKeys, before, req.key);
      var j := i - 1 - Depth(UsedKeys(before), req.key);
      assert before[j] == reqs[j];
      assert (i - j + 1) as real <= g.burst + Refill(g, reqs[j].at, reqs[i].at);
      LongEnough(p, g, maxKeys + 2, req.at - reqs[j].at);
    }
  }

  // ---------------------------------------------------------------------
  // Spending more than the bound by having the key forgotten
  // ---------------------------------------------------------------------

  function Repeat(req: Req, n: nat): (reqs: seq<Req>)
    ensures |reqs| == n && forall i | 0 <= i < n :: reqs[i] == req
  {
    seq(n, i => req)
  }

  /** As many requests as the table has room for, each of another key than `key`. */
  ghost predicate AreStrangers(others: seq<Req>, key: Key, maxKeys: int) {
    |others| == maxKeys && Distinct(UsedKeys(others)) && key !in UsedKeys(others)
  }

  /** As many requests as the burst holds are all admitted. */
  lemma {:induction false} SpendsBurst(p: Policy, maxKeys: int, req: Req, n: nat)
    requires maxKeys > 0 && n as real <= p.burst
    ensures Admitted(p, maxKeys, NOTHING, Repeat(req, n), req.key) == n
    ensures BucketOf(p, Serve(p, maxKeys, NOTHING, Repeat(req, n)), req.key, req.at)
            == Bucket(p.burst - n as real, req.at)
  {
    hide Push, Take, Gain;
    if n > 0 {
      SpendsBurst(p, maxKeys, req, n - 1);
      var init := Repeat(req, n - 1);
      assert Repeat(req, n)[..n - 1] == init;
      var t := Serve(p, maxKeys, NOTHING, init);
      RemembersMostRecent(p, maxKeys, init);
      TakesOne(p, p.burst - (n - 1) as real, req.at);
      var after := Bucket(p.burst - n as real, req.at);
      PushBuckets(maxKeys, t, req.key, after);
      PushKeepsLast(maxKeys, t, req.key, after);
    }
  }

  lemma TakesOne(p: Policy, tokens: real, now: real)
    requires 1.0 <= tokens <= p.burst
    ensures Take(p, Bucket(tokens, now), now) == (Bucket(tokens - 1.0, now), true)
  {
    assert Gain(0.0, p.rate) == 0.0;
  }

  lemma PushKeepsLast(maxKeys: int, t: Table, key: Key, b: Bucket)
    requires Valid(t) && maxKeys > 0
    ensures key in Push(maxKeys, t, key, b).buckets
  {
    hide Without;
    PushKeepsValid(maxKeys, t, key, b);
    var all := Without(t.order, key) + [key];
    assert all[|all| - 1] == key;
    if |all| > maxKeys {
      assert all[1..][|all| - 2] == key;
    }
  }

  lemma {:induction false} UsedSplits(a: seq<Req>, b: seq<Req>)
    ensures UsedKeys(a + b) == UsedKeys(a) + UsedKeys(b)
  {
    if |b| == 0 {
      assert a + b == a;
    } else {
      assert (a + b)[..|a + b| - 1] == a + b[..|b| - 1];
      UsedSplits(a, b[..|b| - 1]);
    }
  }

  /** The keys used last, if they are all different, line up at the end. */
  lemma {:induction false} RecencyEnds(used: seq<Key>, recent: seq<Key>)
    requires Distinct(recent)
    ensures var r := Recency(used + recent); |r| >= |recent| && r[|r| - |recent|..] == recent
  {
    hide Recency;
    if |recent| > 0 {
      var init, last := recent[..|recent| - 1], recent[|recent| - 1];
      assert used + recent == (used + init) + [last] && recent == init + [last];
      RecencyEnds(used, init);
      EndsWithLast(Recency(used + init), init, last);
      RecencyStep(used + init, last);
    }
  }

  lemma RecencyStep(used: seq<Key>, key: Key)
    ensures Recency(used + [key]) == Without(Recency(used), key) + [key]
  {
    assert (used + [key])[..|used|] == used;
  }

  lemma EndsWithLast(r: seq<Key>, init: seq<Key>, last: Key)
    requires |r| >= |init| && r[|r| - |init|..] == init && last !in init
    ensures var s := Without(r, last) + [last]; |s| > |init| && s[|s| - |init| - 1..] == init + [last]
  {
    hide Without;
    var before := r[..|r| - |init|];
    assert r == before + init;
    WithoutSplits(before, init, last);
    WithoutNothing(init, last);
  }

  lemma {:induction false} StrangersAdmitNothing(p: Policy, maxKeys: int, t: Table, a: seq<Req>, b: seq<Req>, key: Key)
    requires forall i | 0 <= i < |b| :: b[i].key != key
    ensures Admitted(p, maxKeys, t, a + b, key) == Admitted(p, maxKeys, t, a, key)
  {
    if |b| == 0 {
      assert a + b == a;
    } else {
      hide Request, Serve;
      assert (a + b)[..|a + b| - 1] == a + b[..|b| - 1];
      StrangersAdmitNothing(p, maxKeys, t, a, b[..|b| - 1], key);
    }
  }

  lemma StrangersForget(before: seq<Req>, others: seq<Req>, key: Key, maxKeys: nat)
    requires maxKeys > 0 && AreStrangers(others, key, maxKeys)
    ensures key !in Last(Recency(UsedKeys(before + others)), maxKeys)
  {
    hide Recency, UsedKeys, Distinct;
    UsedAt(others);
    UsedSplits(before, others);
    RecencyEnds(UsedKeys(before), UsedKeys(others));
  }

  /** After any run, as many other keys as there is room for let a key be admitted
      once more. */
  lemma ForgottenOnceMore(p: Policy, maxKeys: nat, spent: seq<Req>, others: seq<Req>, key: Key, at: real)
    requires 1.0 <= p.burst && maxKeys > 0 && AreStrangers(others, key, maxKeys)
    ensures Admitted(p, maxKeys, NOTHING, spent + others + [Req(key, at)], key)
         == Admitted(p, maxKeys, NOTHING, spent, key) + 1
  {
    hide Request, Serve, Recency, Last, Admitted, UsedKeys, Distinct;
    var reqs := spent + others + [Req(key, at)];
    assert reqs[..|reqs| - 1] == spent + others;
    UsedAt(others);
    forall i | 0 <= i < |others| ensures others[i].key != key {
      assert UsedKeys(others)[i] in UsedKeys(others);
    }
    StrangersAdmitNothing(p, maxKeys, NOTHING, spent, others, key);
    StrangersForget(spent, others, key, maxKeys);
    ForgottenIsAdmitted(p, maxKeys, spent + others, key, at);
    LastAdmits(p, maxKeys, reqs, key);
  }

  /** The whole burst of a key, then the others, and once more. */
  function Return(p: Policy, own: Req, others: seq<Req>, at: real): seq<Req>
    requires p.Sane()
  {
    Repeat(own, p.burst.Floor) + others + [Req(own.key, at)]
  }

  /** The bound of a key needs fewer than `maxKeys` others. For every policy, every
      size of the table, every key that has spent its burst, any `maxKeys` different
      others and any times in order, its return breaks the bound exactly when it comes
      before its bucket, had it been kept, would have had a token for it. */
  lemma ForgettingBreaksTheBoundIff(p: Policy, maxKeys: nat, own: Req, others: seq<Req>, at: real)
    requires p.Sane() && 1.0 <= p.burst && maxKeys > 0 && AreStrangers(others, own.key, maxKeys)
    requires InOrder(Return(p, own, others, at))
    ensures var reqs := Return(p, own, others, at);
      && |Others(reqs, own.key)| == maxKeys
      && (Admitted(p, maxKeys, NOTHING, reqs, own.key) as real
            > p.burst + Refill(p, reqs[0].at, reqs[|reqs| - 1].at)
          <==> !Take(p, Bucket(p.burst - p.burst.Floor as real, own.at), at).1)
  {
    hide Admitted, Others, Distinct, Refill, UsedKeys, Take, InOrder;
    var n := p.burst.Floor;
    var spent := Repeat(own, n);
    var reqs := Return(p, own, others, at);
    assert reqs[0] == own && reqs[|reqs| - 1] == Req(own.key, at);
    SpendsBurst(p, maxKeys, own, n);
    ForgottenOnceMore(p, maxKeys, spent, others, own.key, at);
    OthersAreStrangers(spent, others, Req(own.key, at));
    UsedAt(others);
    OrderIsKeys(UsedKeys(others), Others(reqs, own.key));
    assert own.at <= at by { FirstBeforeLast(reqs); }
    RefusedIff(p, n, own.at, at);
  }

  lemma FirstBeforeLast(reqs: seq<Req>)
    requires InOrder(reqs) && |reqs| > 0
    ensures reqs[0].at <= reqs[|reqs| - 1].at
  {
  }

  /** A bucket that has spent `n` tokens refuses exactly while the refill falls short
      of one more. */
  lemma RefusedIff(p: Policy, n: int, start: real, at: real)
    requires p.Sane() && 1.0 <= p.burst && start <= at
    ensures Take(p, Bucket(p.burst - n as real, start), at).1 <==> n as real + 1.0 <= p.burst + Refill(p, start, at)
  {
    hide Gain;
    assert Max(0.0, at - start) == at - start;
  }

  lemma OthersAreStrangers(spent: seq<Req>, others: seq<Req>, last: Req)
    requires forall i | 0 <= i < |spent| :: spent[i].key == last.key
    requires last.key !in UsedKeys(others)
    ensures forall k :: k in UsedKeys(others) <==> k in Others(spent + others + [last], last.key)
  {
    hide UsedKeys;
    UsedAt(others);
    var reqs := spent + others + [last];
    forall k | k in UsedKeys(others) ensures k in Others(reqs, last.key) {
      var i :| 0 <= i < |others| && UsedKeys(others)[i] == k;
      assert reqs[|spent| + i] == others[i];
    }
    forall k | k in Others(reqs, last.key) ensures k in UsedKeys(others) {
      var r :| r in reqs && r.key != last.key && r.key == k;
      var i :| 0 <= i < |reqs| && reqs[i] == r;
      assert UsedKeys(others)[i - |spent|] == k;
    }
  }

  lemma LastAdmits(p: Policy, maxKeys: int, reqs: seq<Req>, key: Key)
    requires |reqs| > 0 && reqs[|reqs| - 1].key == key
    requires Request(p, maxKeys, Serve(p, maxKeys, NOTHING, reqs[..|reqs| - 1]), key, reqs[|reqs| - 1].at).1
    ensures Admitted(p, maxKeys, NOTHING, reqs, key) == Admitted(p, maxKeys, NOTHING, reqs[..|reqs| - 1], key) + 1
  {
  }
}
