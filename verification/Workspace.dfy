// The arrays that the pathfinder reuses between queries. An entry counts only
// if it carries the number of the current query, its generation.

module Workspace {
  import opened Heap
  import opened BestFirst

  /** A generation is a uint32. */
  const MAX_GENERATION := 0xFFFF_FFFF

  /** The stamps of a workspace: `stamp` and `closed` at full capacity, of which
      the first `size` entries are in use. */
  datatype Marks = Marks(generation: nat, stamp: seq<nat>, closed: seq<nat>, size: nat)

  /** The marks that the next query starts with. */
  function Reset(m: Marks, size: nat): Marks {
    if |m.stamp| < size then
      Marks(1, Zeros(size), Zeros(size), size)
    else if m.generation < MAX_GENERATION then
      Marks(m.generation + 1, m.stamp, m.closed, size)
    else
      Marks(1, Cleared(m.stamp, size), Cleared(m.closed, size), size)
  }

  function Zeros(n: nat): (r: seq<nat>)
    ensures |r| == n && forall i | 0 <= i < n :: r[i] == 0
  {
    seq(n, i => 0)
  }

  function Cleared(s: seq<nat>, size: nat): (r: seq<nat>)
    ensures |r| == |s| && forall i | 0 <= i < |s| :: r[i] == if i < size then 0 else s[i]
  {
    seq(|s|, i requires 0 <= i < |s| => if i < size then 0 else s[i])
  }

  /** Nothing is marked yet in the part in use. */
  ghost predicate Fresh(m: Marks) {
    && m.size <= |m.stamp| == |m.closed|
    && forall i | 0 <= i < m.size :: m.stamp[i] != m.generation && m.closed[i] != m.generation
  }

  /** No entry, in use or not, is newer than the current generation. */
  ghost predicate NoneNewer(m: Marks) {
    && |m.stamp| == |m.closed|
    && m.generation <= MAX_GENERATION
    && forall i | 0 <= i < |m.stamp| :: m.stamp[i] <= m.generation && m.closed[i] <= m.generation
  }

  /** The counter is about to wrap around under an array bigger than the query. */
  predicate WrapsShort(m: Marks, size: int) {
    m.generation == MAX_GENERATION && size < |m.stamp|
  }

  /** The entries in use that count as closed. */
  ghost function ClosedIn(m: Marks): set<int> {
    set i | 0 <= i < m.size && i < |m.closed| && m.closed[i] == m.generation
  }

  /** A query over the part in use finds nothing marked. */
  ghost predicate StartsFresh(m: Marks, size: int) {
    0 <= size ==> Fresh(Reset(m, size))
  }

  /** A query finds its own start closed already. */
  ghost predicate StartTaken(m: Marks, size: int, start: int) {
    && 0 <= start < size && |m.stamp| == |m.closed|
    && Reset(m, size).closed[start] == Reset(m, size).generation
  }

  lemma ResetFresh(m: Marks, size: nat)
    requires NoneNewer(m)
    ensures Fresh(Reset(m, size))
  {}

  /** A query leaves no newer entries exactly when the counter does not wrap, or
      the entries beyond the part that the wrap clears are already old. */
  lemma ResetNoneNewer(m: Marks, size: nat)
    requires NoneNewer(m)
    ensures NoneNewer(Reset(m, size)) <==>
            !(WrapsShort(m, size) && exists i | size <= i < |m.stamp| :: m.stamp[i] > 1 || m.closed[i] > 1)
  {
    var r := Reset(m, size);
    if WrapsShort(m, size) && exists i | size <= i < |m.stamp| :: m.stamp[i] > 1 || m.closed[i] > 1 {
      var i :| size <= i < |m.stamp| && (m.stamp[i] > 1 || m.closed[i] > 1);
      assert r.stamp[i] == m.stamp[i] && r.closed[i] == m.closed[i];
    }
  }

  /** Only entries in use were written, and only with the current generation. */
  ghost predicate Marked(r: Marks, m: Marks) {
    && m.generation == r.generation && m.size == r.size
    && |m.stamp| == |r.stamp| && |m.closed| == |r.closed|
    && (forall i | 0 <= i < |m.stamp| :: m.stamp[i] == r.stamp[i] || (i < m.size && m.stamp[i] == m.generation))
    && (forall i | 0 <= i < |m.closed| :: m.closed[i] == r.closed[i] || (i < m.size && m.closed[i] == m.generation))
  }

  /** The search that left these marks has visited and closed the entry. */
  ghost predicate Took(m: Marks, i: int) {
    0 <= i < m.size && i < |m.stamp| == |m.closed| && m.stamp[i] == m.closed[i] == m.generation
  }

  /** A query of `size` tiles resets the marks and marks some of them again, its start
      at least. Whoever has the same tile for both ends is answered before that. */
  ghost predicate Query(m: Marks, m': Marks, size: nat) {
    2 <= size && Marked(Reset(m, size), m') && exists start :: Took(m', start)
  }

  /** A query that fails a check before the search does not touch the marks. */
  ghost predicate Answered(m: Marks, m': Marks, size: int) {
    m' == m || (0 <= size && Query(m, m', size))
  }

  /** What one query after another makes of the marks. */
  ghost predicate Queries(first: Marks, run: seq<Marks>, sizes: seq<nat>) {
    && |run| == |sizes| + 1 && run[0] == first
    && forall i | 0 <= i < |sizes| :: Query(run[i], run[i + 1], sizes[i])
  }

  const EMPTY := Marks(0, [], [], 0)

  lemma QueryNoneNewer(m: Marks, m': Marks, size: nat)
    requires NoneNewer(m) && Query(m, m', size) && !WrapsShort(m, size)
    ensures NoneNewer(m')
  {
    ResetNoneNewer(m, size);
  }

  lemma MarkedNone(m: Marks)
    ensures Marked(m, m)
  {}

  lemma MarkedTwice(r: Marks, m: Marks, n: Marks)
    requires Marked(r, m) && Marked(m, n)
    ensures Marked(r, n)
  {}

  ghost predicate NeverShrinks(sizes: seq<int>) {
    forall j, k | 0 <= j <= k < |sizes| :: sizes[j] <= sizes[k]
  }

  /** No wrap of the counter under a bigger array: the sizes never shrink, as on one
      grid, or the queries are too few for the counter to get there. */
  ghost predicate NeverWrapsShort(sizes: seq<int>) {
    NeverShrinks(sizes) || |sizes| <= MAX_GENERATION
  }

  /** Marks that `i` of these queries may have left. */
  ghost predicate Within(m: Marks, sizes: seq<int>, i: nat) {
    && NoneNewer(m) && m.generation <= i
    && (NeverShrinks(sizes) ==> forall j | i <= j < |sizes| && 0 <= sizes[j] :: |m.stamp| <= sizes[j])
  }

  lemma EmptyWithin(sizes: seq<int>)
    ensures Within(EMPTY, sizes, 0) && NoneNewer(EMPTY)
  {}

  lemma WithinStarts(m: Marks, sizes: seq<int>, i: nat)
    requires Within(m, sizes, i) && i < |sizes|
    ensures StartsFresh(m, sizes[i])
  {
    if 0 <= sizes[i] {
      ResetFresh(m, sizes[i]);
    }
  }

  /** The next query starts fresh, and the one after it can too. */
  lemma AnsweredWithin(m: Marks, m': Marks, sizes: seq<int>, i: nat)
    requires NeverWrapsShort(sizes) && Within(m, sizes, i) && i < |sizes| && Answered(m, m', sizes[i])
    ensures Within(m', sizes, i + 1) && NoneNewer(m')
    ensures 0 <= sizes[i] ==> Fresh(Reset(m, sizes[i]))
  {
    if 0 <= sizes[i] {
      ResetFresh(m, sizes[i]);
      if m' != m {
        QueryNoneNewer(m, m', sizes[i]);
      }
    }
  }

  /** On a grid of fixed size, or one that grows, every query of a workspace starts
      fresh, however many there have been and however often the counter has wrapped;
      and on any sizes until the counter wraps for the first time. */
  lemma {:induction false} AlwaysFresh(run: seq<Marks>, sizes: seq<nat>, k: nat)
    requires Queries(EMPTY, run, sizes) && NeverWrapsShort(sizes) && k <= |sizes|
    ensures Within(run[k], sizes, k)
    ensures k < |sizes| ==> Fresh(Reset(run[k], sizes[k]))
  {
    if k > 0 {
      AlwaysFresh(run, sizes, k - 1);
      assert Query(run[k - 1], run[k], sizes[k - 1]);
      AnsweredWithin(run[k - 1], run[k], sizes, k - 1);
    }
    if k < |sizes| {
      ResetFresh(run[k], sizes[k]);
    }
  }

  // ---------------------------------------------------------------------
  // Entries newer than the counter
  // ---------------------------------------------------------------------

  /** As in every workspace: both arrays are of one length, and no entry is newer
      than the counter can get. */
  ghost predicate Stamped(m: Marks) {
    && |m.stamp| == |m.closed| && m.generation <= MAX_GENERATION
    && forall i | 0 <= i < |m.stamp| :: m.stamp[i] <= MAX_GENERATION && m.closed[i] <= MAX_GENERATION
  }

  /** Whatever is asked next, over the whole arrays, starts fresh. */
  ghost predicate StaysFresh(m: Marks) {
    forall run: seq<Marks>, sizes: seq<nat> |
      Queries(m, run, sizes) && (forall j | 0 <= j < |sizes| :: sizes[j] == |m.stamp|) ::
      Fresh(Reset(run[|sizes|], |m.stamp|))
  }

  lemma {:induction false} NoneNewerLasts(m: Marks, run: seq<Marks>, sizes: seq<nat>, k: nat)
    requires NoneNewer(m) && Queries(m, run, sizes) && k <= |sizes|
    requires forall j | 0 <= j < |sizes| :: sizes[j] == |m.stamp|
    ensures NoneNewer(run[k]) && |run[k].stamp| == |m.stamp|
  {
    if k > 0 {
      NoneNewerLasts(m, run, sizes, k - 1);
      assert Query(run[k - 1], run[k], sizes[k - 1]);
      QueryNoneNewer(run[k - 1], run[k], sizes[k - 1]);
    }
  }

  /** The marks of a query that visits and closes one tile. */
  function After(m: Marks, size: nat, start: nat): Marks
    requires start < size && |m.stamp| == |m.closed|
  {
    var r := Reset(m, size);
    r.(stamp := r.stamp[start := r.generation], closed := r.closed[start := r.generation])
  }

  lemma AfterIsQuery(m: Marks, size: nat, start: nat)
    requires 2 <= size && start < size && |m.stamp| == |m.closed|
    ensures Query(m, After(m, size, start), size)
  {
    assert Took(After(m, size, start), start);
  }

  /** A newer entry counts as visited as soon as the counter gets to it, if the
      queries until then pass by its tile. */
  lemma {:induction false} NewerComesBack(m: Marks, i: nat) returns (run: seq<Marks>, sizes: seq<nat>)
    requires Stamped(m) && i < |m.stamp| && (m.stamp[i] > m.generation || m.closed[i] > m.generation)
    requires |m.stamp| >= 2
    ensures Queries(m, run, sizes) && forall j | 0 <= j < |sizes| :: sizes[j] == |m.stamp|
    ensures !Fresh(Reset(run[|sizes|], |m.stamp|))
    decreases MAX_GENERATION - m.generation
  {
    var reset := Reset(m, |m.stamp|);
    if m.stamp[i] == reset.generation || m.closed[i] == reset.generation {
      run, sizes := [m], [];
    } else {
      var start := if i == 0 then 1 else 0;
      var next := After(m, |m.stamp|, start);
      AfterIsQuery(m, |m.stamp|, start);
      var rest, more := NewerComesBack(next, i);
      run, sizes := [m] + rest, [|m.stamp|] + more;
      forall j | 0 <= j < |sizes| ensures Query(run[j], run[j + 1], sizes[j]) {
        if j > 0 {
          assert Query(rest[j - 1], rest[j], more[j - 1]);
        }
      }
    }
  }

  /** Later queries are sure to start fresh exactly when no entry is newer than the
      counter. */
  lemma StaysFreshIff(m: Marks)
    requires Stamped(m) && |m.stamp| >= 2
    ensures StaysFresh(m) <==> NoneNewer(m)
  {
    if NoneNewer(m) {
      forall run: seq<Marks>, sizes: seq<nat> |
        Queries(m, run, sizes) && (forall j | 0 <= j < |sizes| :: sizes[j] == |m.stamp|)
        ensures Fresh(Reset(run[|sizes|], |m.stamp|))
      {
        NoneNewerLasts(m, run, sizes, |sizes|);
        ResetFresh(run[|sizes|], |m.stamp|);
      }
    } else {
      var i :| 0 <= i < |m.stamp| && (m.stamp[i] > m.generation || m.closed[i] > m.generation);
      var run, sizes := NewerComesBack(m, i);
    }
  }

  /** What `n` queries over three tiles leave if each visits and closes the third. */
  function Aged(n: nat): Marks {
    if n == 0 then EMPTY else Marks(n, [0, 0, n], [0, 0, n], 3)
  }

  lemma {:induction false} Ages(n: nat) returns (run: seq<Marks>, sizes: seq<nat>)
    requires n <= MAX_GENERATION
    ensures Queries(EMPTY, run, sizes) && |sizes| == n && forall j | 0 <= j < n :: sizes[j] == 3
    ensures run[n] == Aged(n)
  {
    if n == 0 {
      run, sizes := [EMPTY], [];
    } else {
      var before, fewer := Ages(n - 1);
      run, sizes := before + [Aged(n)], fewer + [3];
      assert Took(Aged(n), 2);
      assert Query(before[n - 1], Aged(n), 3);
      forall j | 0 <= j < n ensures Query(run[j], run[j + 1], sizes[j]) {
        if j < n - 1 {
          assert Query(before[j], before[j + 1], fewer[j]);
        }
      }
    }
  }

  lemma QueriesThen(first: Marks, a: seq<Marks>, m: seq<nat>, b: seq<Marks>, n: seq<nat>)
    requires Queries(first, a, m) && Queries(a[|m|], b, n)
    ensures Queries(first, a + b[1..], m + n) && (a + b[1..])[|m + n|] == b[|n|]
  {
    var run, sizes := a + b[1..], m + n;
    forall j | 0 <= j < |sizes| ensures Query(run[j], run[j + 1], sizes[j]) {
      if j < |m| {
        assert Query(a[j], a[j + 1], m[j]);
      } else {
        assert Query(b[j - |m|], b[j - |m| + 1], n[j - |m|]);
        assert run[j] == b[j - |m|];
      }
    }
  }

  /** With two grid sizes it does fail. From a new workspace, the counter comes to
      its end on three tiles and wraps in a query of two, which clears two entries out
      of three; later queries of three tiles count up to the entry that was left, and
      then one starts with a tile already visited. */
  lemma WrapLeavesStale() returns (run: seq<Marks>, sizes: seq<nat>)
    ensures Queries(EMPTY, run, sizes) && forall j | 0 <= j < |sizes| :: 2 <= sizes[j] <= 3
    ensures !Fresh(Reset(run[|sizes|], 3))
  {
    var a, m := Ages(MAX_GENERATION);
    var wrapped := Marks(1, [1, 1, MAX_GENERATION], [1, 1, MAX_GENERATION], 2);
    assert Took(wrapped, 0);
    assert Query(a[|m|], wrapped, 2);
    assert Queries(a[|m|], [a[|m|], wrapped], [2]);
    QueriesThen(EMPTY, a, m, [a[|m|], wrapped], [2]);
    var b, n := NewerComesBack(wrapped, 2);
    var first := a + [a[|m|], wrapped][1..];
    QueriesThen(EMPTY, first, m + [2], b, n);
    run, sizes := first + b[1..], m + [2] + n;
  }

  class Workspace {
    var generation: nat
    var stamp: array<nat>
    var gScore: array<int>
    var cameFrom: array<int>
    var closed: array<nat>
    var size: nat
    const heap: NodeHeap

    ghost predicate BuffersOk()
      reads this
    {
      && size <= stamp.Length == closed.Length == gScore.Length == cameFrom.Length
      && stamp != closed && gScore != cameFrom && generation <= MAX_GENERATION
    }

    ghost predicate Valid()
      reads this, heap
    {
      BuffersOk() && Ordered(heap.nodes)
    }

    ghost function Repr(): set<object>
      reads this
    {
      {this, stamp, gScore, cameFrom, closed, heap}
    }

    ghost function AllMarks(): Marks
      reads this, stamp, closed
    {
      Marks(generation, stamp[..], closed[..], size)
    }

    ghost function G(): map<int, int>
      reads this, stamp, gScore
      requires BuffersOk()
    {
      map i | 0 <= i < size && stamp[i] == generation :: gScore[i]
    }

    ghost function From(): map<int, int>
      reads this, stamp, cameFrom
      requires BuffersOk()
    {
      map i | 0 <= i < size && stamp[i] == generation :: cameFrom[i]
    }

    ghost function Closed(): set<int>
      reads this, closed
      requires BuffersOk()
    {
      set i | 0 <= i < size && closed[i] == generation
    }

    /** The state of the search that the arrays stand for. */
    ghost function View(): Search
      reads this, heap, stamp, gScore, cameFrom, closed
      requires Valid()
    {
      Search(G(), From(), Closed(), multiset(heap.nodes))
    }

    lemma InRange(idx: int)
      requires BuffersOk() && idx in G()
      ensures 0 <= idx < size
    {}

    constructor ()
      ensures Valid() && fresh(Repr()) && AllMarks() == EMPTY
    {
      generation, size := 0, 0;
      stamp, gScore, cameFrom, closed := new nat[0], new int[0], new int[0], new nat[0];
      heap := new NodeHeap();
      new;
      assert stamp[..] == [] && closed[..] == [];
    }

    method ResetFor(n: nat)
      requires Valid()
      modifies Repr()
      ensures Valid() && fresh(Repr() - old(Repr()))
      ensures AllMarks() == Reset(old(AllMarks()), n) && View().open == multiset{}
      ensures Fresh(AllMarks()) ==> View() == Search(map[], map[], {}, multiset{})
    {
      if stamp.Length < n {
        Grow(n);
      }
      size := n;
      generation := if generation == MAX_GENERATION then 0 else generation + 1;
      if generation == 0 {
        ClearMarks(n);
        generation := 1;
      }
      heap.Clear();
    }

    method Grow(n: nat)
      requires Valid() && stamp.Length < n
      modifies this
      ensures Valid() && fresh(Repr() - old(Repr()))
      ensures AllMarks() == Marks(0, Zeros(n), Zeros(n), old(size))
    {
      stamp := new nat[n](i => 0);
      gScore := new int[n];
      cameFrom := new int[n];
      closed := new nat[n](i => 0);
      generation := 0;
    }

    method ClearMarks(n: nat)
      requires Valid() && n <= stamp.Length
      modifies stamp, closed
      ensures stamp[..] == Cleared(old(stamp[..]), n) && closed[..] == Cleared(old(closed[..]), n)
    {
      var i := 0;
      while i < n
        invariant 0 <= i <= n
        invariant stamp[..] == Cleared(old(stamp[..]), i)
        invariant closed[..] == Cleared(old(closed[..]), i)
      {
        stamp[i] := 0;
        closed[i] := 0;
        i := i + 1;
      }
    }

    /** Same buffers, size and generation, and entries in use marked at most. */
    twostate predicate SameBuffers()
      reads this, stamp, closed
    {
      unchanged(this) && Marked(old(AllMarks()), AllMarks())
    }

    method SetG(idx: int, v: int)
      requires Valid() && 0 <= idx < size
      modifies stamp, gScore
      ensures Valid() && SameBuffers()
      ensures G() == old(G())[idx := v]
      ensures From() == old(From())[idx := cameFrom[idx]]
    {
      stamp[idx] := generation;
      gScore[idx] := v;
    }

    method SetFrom(idx: int, from: int)
      requires Valid() && 0 <= idx < size && idx in G()
      modifies cameFrom
      ensures Valid()
      ensures From() == old(From())[idx := from]
    {
      cameFrom[idx] := from;
    }

    /** Records a better way to a vertex and queues it. */
    method Discover(idx: int, v: int, from: int, n: Node)
      requires Valid() && 0 <= idx < size
      modifies stamp, gScore, cameFrom, heap
      ensures Valid() && SameBuffers()
      ensures View() == Search(old(View()).g[idx := v], old(View()).from[idx := from],
                               old(View()).closed, old(View()).open + multiset{n})
    {
      hide Marked, Less, Ordered;
      SetG(idx, v);
      SetFrom(idx, from);
      assert From() == old(From())[idx := from];
      heap.Push(n);
    }

    method GOf(idx: int) returns (v: int)
      requires Valid() && idx in G()
      ensures v == G()[idx]
    {
      v := gScore[idx];
    }

    method GIfSet(idx: int) returns (v: int, ok: bool)
      requires Valid() && 0 <= idx < size
      ensures ok <==> idx in G()
      ensures ok ==> v == G()[idx]
    {
      if stamp[idx] != generation {
        return 0, false;
      }
      return gScore[idx], true;
    }

    method Close(idx: int)
      requires Valid() && 0 <= idx < size
      modifies closed
      ensures Valid() && SameBuffers()
      ensures View() == old(View()).(closed := old(View()).closed + {idx})
    {
      closed[idx] := generation;
    }

    method IsClosed(idx: int) returns (b: bool)
      requires Valid() && 0 <= idx < size
      ensures b <==> idx in Closed()
    {
      b := closed[idx] == generation;
    }
  }
}
