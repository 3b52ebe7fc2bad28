// Paging the event log loses nothing and repeats nothing.

module EventLogPaging {
  import opened Wrappers
  import opened EventLog

  // ---------------------------------------------------------------------
  // What an entry stands for
  // ---------------------------------------------------------------------

  function Amounts(g: seq<Event>): int {
    if |g| == 0 then 0 else Amounts(g[..|g| - 1]) + g[|g| - 1].amount
  }

  function Earliest(g: seq<Event>): int
    requires |g| > 0
  {
    if |g| == 1 then g[0].atMs else Min(Earliest(g[..|g| - 1]), g[|g| - 1].atMs)
  }

  function Latest(g: seq<Event>): int
    requires |g| > 0
  {
    if |g| == 1 then g[0].atMs else Max(Latest(g[..|g| - 1]), g[|g| - 1].atMs)
  }

  /** The times of an entry are those of the first and the last of its rows. */
  lemma {:induction false} SpanMeans(g: seq<Event>)
    requires |g| > 0
    ensures (exists e :: e in g && e.atMs == Earliest(g)) && (exists e :: e in g && e.atMs == Latest(g))
    ensures forall e :: e in g ==> Earliest(g) <= e.atMs <= Latest(g)
  {
    var init, last := g[..|g| - 1], g[|g| - 1];
    assert g == init + [last];
    if |g| > 1 {
      SpanMeans(init);
    }
    assert last in g;
  }

  /** All rows tell the viewer the same, about the same player, from the same side
      of the cursor. */
  ghost predicate Alike(b: Settings, g: seq<Event>) {
    && |g| > 0 && Classify(b.viewer, g[0]).Some?
    && forall e | e in g :: Classify(b.viewer, e).Some? && KeyOf(b, e) == KeyOf(b, g[0])
  }

  ghost predicate NewestFirst(g: seq<Event>) {
    forall i, j | 0 <= i < j < |g| :: g[i].id > g[j].id
  }

  /** Each row is within the gap of those that joined before it. */
  ghost predicate Close(b: Settings, g: seq<Event>) {
    forall k | 0 < k < |g| :: g[k].atMs >= Earliest(g[..k]) - b.gapMs
  }

  /** `entry` sums up the rows of `g`; the newest one names it. */
  ghost predicate SumsUp(b: Settings, g: seq<Event>, entry: Entry) {
    && Alike(b, g) && NewestFirst(g) && Close(b, g)
    && entry.id == g[0].id && entry.count == |g|
    && entry.kind == KeyOf(b, g[0]).kind && entry.other == KeyOf(b, g[0]).other
    && entry.firstAtMs == Earliest(g) && entry.lastAtMs == Latest(g)
    && entry.amount == if IsPillage(entry.kind) then Amounts(g) else Amounts(g[1..])
  }

  function Count(entries: seq<Entry>): nat {
    if |entries| == 0 then 0 else Count(entries[..|entries| - 1]) + entries[|entries| - 1].count
  }

  function PillageOf(entry: Entry): int {
    if IsPillage(entry.kind) then entry.amount else 0
  }

  function Pillage(entries: seq<Entry>): int {
    if |entries| == 0 then 0 else Pillage(entries[..|entries| - 1]) + PillageOf(entries[|entries| - 1])
  }

  function Telling(viewer: Uuid, rows: seq<Event>): nat {
    if |rows| == 0 then 0
    else Telling(viewer, rows[..|rows| - 1]) + if Classify(viewer, rows[|rows| - 1]).Some? then 1 else 0
  }

  function RowPillage(viewer: Uuid, e: Event): int {
    var c := Classify(viewer, e);
    if c.Some? && IsPillage(c.value.0) then e.amount else 0
  }

  function Pillaging(viewer: Uuid, rows: seq<Event>): int {
    if |rows| == 0 then 0 else Pillaging(viewer, rows[..|rows| - 1]) + RowPillage(viewer, rows[|rows| - 1])
  }

  /** The rows behind some entries, each as often as it is there. */
  function Placed(groups: seq<seq<Event>>): multiset<Event> {
    if |groups| == 0 then multiset{} else Placed(groups[..|groups| - 1]) + multiset(groups[|groups| - 1])
  }

  /** The rows that tell the viewer something, each as often as it is there. */
  function TellingRows(viewer: Uuid, rows: seq<Event>): multiset<Event> {
    if |rows| == 0 then multiset{} else
    var before, e := TellingRows(viewer, rows[..|rows| - 1]), rows[|rows| - 1];
    if Classify(viewer, e).Some? then before + multiset{e} else before
  }

  ghost predicate Descending(rows: seq<Event>) {
    && (forall i | 0 <= i < |rows| :: rows[i].id > 0)
    && forall i, j | 0 <= i < j < |rows| :: rows[i].id > rows[j].id
  }

  ghost predicate Grouped(b: Settings, entries: seq<Entry>, groups: seq<seq<Event>>) {
    && |entries| == |groups| <= b.pageSize
    && forall i | 0 <= i < |groups| :: SumsUp(b, groups[i], entries[i])
  }

  ghost predicate TakenFrom(groups: seq<seq<Event>>, rows: seq<Event>) {
    forall i, e | 0 <= i < |groups| && e in groups[i] :: e in rows
  }

  ghost predicate OpenOk(b: Settings, open: map<GroupKey, nat>, groups: seq<seq<Event>>) {
    forall k | k in open ::
      open[k] < |groups| && Alike(b, groups[open[k]]) && KeyOf(b, groups[open[k]][0]) == k
  }

  /** Group `i` is the last one before `j` whose rows are like those of `j`. */
  ghost predicate Before(b: Settings, groups: seq<seq<Event>>, i: int, j: int) {
    && 0 <= i < j < |groups| && |groups[i]| > 0 && |groups[j]| > 0 && AlikeGroups(b, groups[i], groups[j])
    && forall m | i < m < j :: !AlikeGroups(b, groups[m], groups[j])
  }

  ghost predicate AlikeGroups(b: Settings, g: seq<Event>, h: seq<Event>) {
    Alike(b, g) && Alike(b, h) && KeyOf(b, g[0]) == KeyOf(b, h[0])
  }

  /** Nothing that could have joined a group has opened another one: the latest group
      of each sort is the open one, and the first row of a later group of the same
      sort is further from it than the gap. */
  ghost predicate Maximal(b: Settings, open: map<GroupKey, nat>, groups: seq<seq<Event>>) {
    && (forall i | 0 <= i < |groups| && Alike(b, groups[i]) ::
          KeyOf(b, groups[i][0]) in open && i <= open[KeyOf(b, groups[i][0])])
    && (forall i, j | Before(b, groups, i, j) :: groups[j][0].atMs < Earliest(groups[i]) - b.gapMs)
  }

  ghost predicate Accounted(b: Settings, p: Page, rows: seq<Event>) {
    && p.minID == (if |rows| == 0 then 0 else rows[|rows| - 1].id)
    && Count(p.entries) == Telling(b.viewer, rows)
    && Pillage(p.entries) == Pillaging(b.viewer, rows)
  }

  /** A page after the rows it has taken: entry by entry the group of rows behind
      it, and every row that tells the viewer something in exactly one group. */
  ghost predicate Holds(b: Settings, p: Page, rows: seq<Event>, groups: seq<seq<Event>>) {
    && Grouped(b, p.entries, groups) && TakenFrom(groups, rows) && OpenOk(b, p.open, groups) && Accounted(b, p, rows)
    && Placed(groups) == TellingRows(b.viewer, rows) && Maximal(b, p.open, groups)
  }

  // ---------------------------------------------------------------------
  // Adding a row
  // ---------------------------------------------------------------------

  lemma {:induction false} CountChanged(entries: seq<Entry>, i: nat, entry: Entry)
    requires i < |entries|
    ensures Count(entries[i := entry]) == Count(entries) - entries[i].count + entry.count
    ensures Pillage(entries[i := entry]) == Pillage(entries) - PillageOf(entries[i]) + PillageOf(entry)
  {
    var n := |entries| - 1;
    if i < n {
      CountChanged(entries[..n], i, entry);
      assert entries[i := entry][..n] == entries[..n][i := entry];
    } else {
      assert entries[i := entry][..n] == entries[..n];
    }
  }

  lemma {:induction false} PlacedChanged(groups: seq<seq<Event>>, i: nat, e: Event)
    requires i < |groups|
    ensures Placed(groups[i := groups[i] + [e]]) == Placed(groups) + multiset{e}
  {
    var n := |groups| - 1;
    if i < n {
      PlacedChanged(groups[..n], i, e);
      assert groups[i := groups[i] + [e]][..n] == groups[..n][i := groups[i] + [e]];
    } else {
      assert groups[i := groups[i] + [e]][..n] == groups[..n];
    }
  }

  lemma PlacedAppended(groups: seq<seq<Event>>, e: Event)
    ensures Placed(groups + [[e]]) == Placed(groups) + multiset{e}
  {
    assert (groups + [[e]])[..|groups|] == groups;
  }

  lemma CountAppended(entries: seq<Entry>, entry: Entry)
    ensures Count(entries + [entry]) == Count(entries) + entry.count
    ensures Pillage(entries + [entry]) == Pillage(entries) + PillageOf(entry)
  {
    assert (entries + [entry])[..|entries|] == entries;
  }

  lemma RowsAppended(viewer: Uuid, rows: seq<Event>, e: Event)
    ensures Telling(viewer, rows + [e]) == Telling(viewer, rows) + if Classify(viewer, e).Some? then 1 else 0
    ensures Pillaging(viewer, rows + [e]) == Pillaging(viewer, rows) + RowPillage(viewer, e)
  {
    assert (rows + [e])[..|rows|] == rows;
  }

  lemma TellingAppended(viewer: Uuid, rows: seq<Event>, e: Event)
    ensures TellingRows(viewer, rows + [e]) == TellingRows(viewer, rows)
            + if Classify(viewer, e).Some? then multiset{e} else multiset{}
  {
    assert (rows + [e])[..|rows|] == rows;
  }

  /** A row that joins a group is summed up with it. */
  lemma JoinedSumsUp(b: Settings, g: seq<Event>, entry: Entry, e: Event)
    requires SumsUp(b, g, entry) && Classify(b.viewer, e).Some? && KeyOf(b, e) == KeyOf(b, g[0])
    requires e.atMs >= entry.firstAtMs - b.gapMs && e.id < g[|g| - 1].id
    ensures SumsUp(b, g + [e], Joined(entry, e))
  {
    hide Classify, KeyOf, Close, NewestFirst;
    CloseGrows(b, g, e);
    AlikeGrows(b, g, e);
    var h := g + [e];
    assert h[..|g|] == g && h[0] == g[0];
    assert h[1..] == g[1..] + [e] && h[1..][..|g| - 1] == g[1..];
  }

  lemma AlikeGrows(b: Settings, g: seq<Event>, e: Event)
    requires Alike(b, g) && NewestFirst(g)
    requires Classify(b.viewer, e).Some? && KeyOf(b, e) == KeyOf(b, g[0]) && e.id < g[|g| - 1].id
    ensures Alike(b, g + [e]) && NewestFirst(g + [e])
  {
    hide Classify, KeyOf;
  }

  lemma CloseGrows(b: Settings, g: seq<Event>, e: Event)
    requires |g| > 0 && Close(b, g) && e.atMs >= Earliest(g) - b.gapMs
    ensures Close(b, g + [e])
  {
    hide Earliest;
    var h := g + [e];
    forall k | 0 < k < |h| ensures h[k].atMs >= Earliest(h[..k]) - b.gapMs {
      assert h[..k] == g[..k];
      assert k == |g| ==> g[..k] == g;
    }
  }

  lemma OpenedSumsUp(b: Settings, e: Event)
    requires Classify(b.viewer, e).Some?
    ensures SumsUp(b, [e], Opened(b, e))
  {
    assert [e][..0] == [] && [e][1..] == [];
  }

  /** What stands behind the entries once the next row has been added. */
  function NextGroups(b: Settings, p: Page, groups: seq<seq<Event>>, e: Event): seq<seq<Event>> {
    if Classify(b.viewer, e).None? then groups
    else if Joins(b, p, e) && p.open[KeyOf(b, e)] < |groups| then
      groups[p.open[KeyOf(b, e)] := groups[p.open[KeyOf(b, e)]] + [e]]
    else groups + [[e]]
  }

  lemma AddKeeps(b: Settings, p: Page, rows: seq<Event>, groups: seq<seq<Event>>, e: Event)
    requires Holds(b, p, rows, groups) && Admits(b, p, e) && e.id > 0
    requires forall r | r in rows :: r.id > e.id
    ensures Holds(b, Added(b, p, e), rows + [e], NextGroups(b, p, groups, e))
  {
    hide Classify, KeyOf, Opened, Grouped, OpenOk, Maximal;
    if Classify(b.viewer, e).None? {
      RowsAppended(b.viewer, rows, e);
      TellingAppended(b.viewer, rows, e);
      assert |rows| > 0 ==> rows[|rows| - 1] in rows;
    } else if Joins(b, p, e) {
      JoinKeeps(b, p, rows, groups, e);
    } else {
      OpenKeeps(b, p, rows, groups, e);
    }
  }

  lemma JoinKeeps(b: Settings, p: Page, rows: seq<Event>, groups: seq<seq<Event>>, e: Event)
    requires Holds(b, p, rows, groups) && Joins(b, p, e) && e.id > 0
    requires forall r | r in rows :: r.id > e.id
    ensures Holds(b, Added(b, p, e), rows + [e], NextGroups(b, p, groups, e))
  {
    hide Classify, KeyOf, SumsUp, Alike, Maximal;
    var i := p.open[KeyOf(b, e)];
    JoinStaysMaximal(b, p, groups, e);
    var g, entry := groups[i], Joined(p.entries[i], e);
    var gs := groups[i := g + [e]];
    GroupFacts(b, p, rows, groups, i);
    JoinedSumsUp(b, g, p.entries[i], e);
    CountChanged(p.entries, i, entry);
    RowsAppended(b.viewer, rows, e);
    TellingAppended(b.viewer, rows, e);
    JoinedPillage(b, p.entries[i], g, e);
    PlacedChanged(groups, i, e);
    assert Grouped(b, p.entries[i := entry], gs);
    assert TakenFrom(gs, rows + [e]) by {
      forall j, x | 0 <= j < |gs| && x in gs[j] ensures x in rows + [e] {
        assert x in groups[j] || x == e;
      }
    }
    SumsUpIsAlike(b, g + [e], entry);
    assert OpenOk(b, p.open, gs);
  }

  /** A row that joins the open group of its sort, which is the latest. */
  lemma JoinStaysMaximal(b: Settings, p: Page, groups: seq<seq<Event>>, e: Event)
    requires Maximal(b, p.open, groups) && OpenOk(b, p.open, groups) && Joins(b, p, e) && Grouped(b, p.entries, groups)
    ensures var i := p.open[KeyOf(b, e)]; Maximal(b, p.open, groups[i := groups[i] + [e]])
  {
    hide Classify, KeyOf, SumsUp;
    var i := p.open[KeyOf(b, e)];
    var gs := groups[i := groups[i] + [e]];
    assert Alike(b, groups[i]);
    forall m | 0 <= m < |gs| ensures Alike(b, gs[m]) <==> Alike(b, groups[m])
      ensures Alike(b, gs[m]) ==> KeyOf(b, gs[m][0]) == KeyOf(b, groups[m][0])
    {
      SameSort(b, groups[i], e);
    }
    forall m, j | Before(b, gs, m, j) ensures gs[j][0].atMs < Earliest(gs[m]) - b.gapMs {
      assert Before(b, groups, m, j);
      assert gs[j][0] == groups[j][0];
      assert m != i;
    }
  }

  lemma SameSort(b: Settings, g: seq<Event>, e: Event)
    requires Alike(b, g) && Classify(b.viewer, e).Some? && KeyOf(b, e) == KeyOf(b, g[0])
    ensures Alike(b, g + [e])
  {
    hide Classify, KeyOf;
  }

  /** A row that opens a group is too far from the latest one of its sort. */
  lemma OpenStaysMaximal(b: Settings, p: Page, groups: seq<seq<Event>>, e: Event)
    requires Maximal(b, p.open, groups) && OpenOk(b, p.open, groups) && Grouped(b, p.entries, groups)
    requires Classify(b.viewer, e).Some? && !Joins(b, p, e)
    ensures Maximal(b, p.open[KeyOf(b, e) := |groups|], groups + [[e]])
  {
    hide Classify, KeyOf, Alike, Joins, SumsUp, Grouped, OpenOk;
    var gs, key := groups + [[e]], KeyOf(b, e);
    AloneIsAlike(b, e);
    assert forall m | 0 <= m < |groups| :: gs[m] == groups[m];
    forall m, j | Before(b, gs, m, j) ensures gs[j][0].atMs < Earliest(gs[m]) - b.gapMs {
      if j < |groups| {
        assert Before(b, groups, m, j);
      } else {
        TooFar(b, p, groups, e, m);
      }
    }
  }

  lemma AloneIsAlike(b: Settings, e: Event)
    requires Classify(b.viewer, e).Some?
    ensures Alike(b, [e])
  {
    hide Classify;
  }

  lemma TooFar(b: Settings, p: Page, groups: seq<seq<Event>>, e: Event, m: int)
    requires Maximal(b, p.open, groups) && OpenOk(b, p.open, groups) && Grouped(b, p.entries, groups)
    requires Classify(b.viewer, e).Some? && !Joins(b, p, e) && Before(b, groups + [[e]], m, |groups|)
    ensures e.atMs < Earliest(groups[m]) - b.gapMs
  {
    hide Classify, KeyOf, Alike;
    var gs, last := groups + [[e]], p.open[KeyOf(b, e)];
    assert gs[m] == groups[m] && gs[last] == groups[last];
    assert AlikeGroups(b, gs[last], gs[|groups|]);
    assert m == last;
    assert SumsUp(b, groups[m], p.entries[m]);
  }

  lemma GroupFacts(b: Settings, p: Page, rows: seq<Event>, groups: seq<seq<Event>>, i: nat)
    requires Grouped(b, p.entries, groups) && TakenFrom(groups, rows) && i < |groups|
    ensures SumsUp(b, groups[i], p.entries[i]) && Alike(b, groups[i])
    ensures |groups[i]| > 0 && groups[i][|groups[i]| - 1] in rows
  {
    assert SumsUp(b, groups[i], p.entries[i]);
    assert groups[i][|groups[i]| - 1] in groups[i];
  }

  lemma SumsUpIsAlike(b: Settings, g: seq<Event>, entry: Entry)
    requires SumsUp(b, g, entry)
    ensures Alike(b, g)
  {}

  lemma JoinedPillage(b: Settings, entry: Entry, g: seq<Event>, e: Event)
    requires SumsUp(b, g, entry) && Classify(b.viewer, e).Some? && KeyOf(b, e) == KeyOf(b, g[0])
    ensures PillageOf(Joined(entry, e)) == PillageOf(entry) + RowPillage(b.viewer, e)
  {}

  lemma OpenedPillage(b: Settings, e: Event)
    requires Classify(b.viewer, e).Some?
    ensures PillageOf(Opened(b, e)) == RowPillage(b.viewer, e) && Opened(b, e).count == 1
  {}

  lemma OpenKeeps(b: Settings, p: Page, rows: seq<Event>, groups: seq<seq<Event>>, e: Event)
    requires Holds(b, p, rows, groups) && Classify(b.viewer, e).Some? && !Joins(b, p, e)
    requires |p.entries| != b.pageSize && e.id > 0
    requires forall r | r in rows :: r.id > e.id
    ensures Holds(b, Added(b, p, e), rows + [e], NextGroups(b, p, groups, e))
  {
    hide Classify, KeyOf, SumsUp, Alike, Opened, Maximal;
    OpenStaysMaximal(b, p, groups, e);
    OpenedSumsUp(b, e);
    OpenedPillage(b, e);
    CountAppended(p.entries, Opened(b, e));
    RowsAppended(b.viewer, rows, e);
    TellingAppended(b.viewer, rows, e);
    var gs := groups + [[e]];
    PlacedAppended(groups, e);
    assert Grouped(b, p.entries + [Opened(b, e)], gs);
    assert TakenFrom(gs, rows + [e]) by {
      forall j, x | 0 <= j < |gs| && x in gs[j] ensures x in rows + [e] {
        assert j < |groups| ==> x in groups[j];
      }
    }
    SumsUpIsAlike(b, [e], Opened(b, e));
    assert OpenOk(b, p.open[KeyOf(b, e) := |p.entries|], gs);
    assert |rows| > 0 ==> rows[|rows| - 1] in rows;
  }

  /** Trades and what happens to territories are never grouped. */
  lemma OneRowEach(b: Settings, p: Page, rows: seq<Event>, groups: seq<seq<Event>>, i: nat)
    requires Holds(b, p, rows, groups) && i < |groups|
    requires IsTrade(p.entries[i].kind) || IsTerritory(p.entries[i].kind)
    ensures p.entries[i].count == 1
  {
    assert SumsUp(b, groups[i], p.entries[i]);
    if |groups[i]| > 1 {
      SameOffer(b, groups[i]);
    }
  }

  lemma SameOffer(b: Settings, g: seq<Event>)
    requires Alike(b, g) && NewestFirst(g) && |g| > 1
    ensures !IsTrade(KeyOf(b, g[0]).kind) && !IsTerritory(KeyOf(b, g[0]).kind)
  {
    hide Classify;
    assert g[1] in g && KeyOf(b, g[1]) == KeyOf(b, g[0]) && g[0].id > g[1].id;
  }

  /** All rows of an entry are on the side of the cursor that its newest row is on. */
  lemma OneSideOfTheCursor(b: Settings, p: Page, rows: seq<Event>, groups: seq<seq<Event>>, i: nat, e: Event)
    requires Holds(b, p, rows, groups) && i < |groups| && e in groups[i]
    ensures e.id > b.cursor <==> p.entries[i].id > b.cursor
  {
    assert SumsUp(b, groups[i], p.entries[i]);
  }

  // ---------------------------------------------------------------------
  // A page, and all pages
  // ---------------------------------------------------------------------

  /** Feeds rows to a page until it refuses one or `limit` have been read; how many
      it took. */
  function Fill(b: Settings, p: Page, rows: seq<Event>, limit: nat): (Page, nat)
    decreases limit
  {
    if |rows| == 0 || limit == 0 || !Admits(b, p, rows[0]) then (p, 0) else
    var (q, n) := Fill(b, Added(b, p, rows[0]), rows[1..], limit - 1);
    (q, n + 1)
  }

  lemma {:induction false} FillHolds(
    b: Settings, p: Page, before: seq<Event>, groups: seq<seq<Event>>, rows: seq<Event>, limit: nat)
    returns (after: seq<seq<Event>>)
    requires Holds(b, p, before, groups) && Descending(before + rows)
    ensures Fill(b, p, rows, limit).1 <= |rows|
    ensures Holds(b, Fill(b, p, rows, limit).0, before + rows[..Fill(b, p, rows, limit).1], after)
    decreases limit
  {
    hide Holds, Added, Admits;
    if |rows| == 0 || limit == 0 || !Admits(b, p, rows[0]) {
      assert before + rows[..0] == before;
      after := groups;
    } else {
      var e, n := rows[0], |before|;
      assert (before + rows)[n] == e;
      forall r | r in before ensures r.id > e.id {
        var i :| 0 <= i < n && before[i] == r;
        assert (before + rows)[i] == r;
      }
      AddKeeps(b, p, before, groups, e);
      assert before + [e] + rows[1..] == before + rows;
      after := FillHolds(b, Added(b, p, e), before + [e], NextGroups(b, p, groups, e), rows[1..], limit - 1);
      var k := Fill(b, Added(b, p, e), rows[1..], limit - 1).1;
      assert before + [e] + rows[1..][..k] == before + rows[..k + 1];
    }
  }

  /** The rows that the query for the next page reads. */
  function Below(rows: seq<Event>, beforeID: int): seq<Event> {
    if |rows| == 0 then []
    else if rows[0].id < beforeID then [rows[0]] + Below(rows[1..], beforeID)
    else Below(rows[1..], beforeID)
  }

  lemma {:induction false} BelowIsRest(rows: seq<Event>, n: nat)
    requires Descending(rows) && 0 < n <= |rows|
    ensures Below(rows, rows[n - 1].id) == rows[n..]
  {
    assert rows[0].id >= rows[n - 1].id;
    if n > 1 {
      assert Descending(rows[1..]);
      BelowIsRest(rows[1..], n - 1);
    } else {
      AllBelow(rows[1..], rows[0].id);
    }
  }

  lemma {:induction false} AllBelow(rows: seq<Event>, beforeID: int)
    requires forall i | 0 <= i < |rows| :: rows[i].id < beforeID
    ensures Below(rows, beforeID) == rows
  {
    if |rows| > 0 {
      AllBelow(rows[1..], beforeID);
    }
  }

  lemma EmptyHolds(b: Settings)
    requires b.pageSize >= 1
    ensures Holds(b, EMPTY, [], [])
  {}

  /** A fresh page from the top of `rows`. */
  function First(b: Settings, rows: seq<Event>, limit: nat): (Page, nat) {
    Fill(b, EMPTY, rows, limit)
  }

  /** It takes at least the first row, and the next page starts right below what it
      took. */
  lemma FirstPage(b: Settings, rows: seq<Event>, limit: nat) returns (groups: seq<seq<Event>>)
    requires Descending(rows) && |rows| > 0 && limit > 0 && b.pageSize >= 1
    ensures var (p, n) := First(b, rows, limit);
            && 0 < n <= |rows| && Holds(b, p, rows[..n], groups)
            && p.minID == rows[n - 1].id && Below(rows, p.minID) == rows[n..]
  {
    hide Holds, First, Fill, Below, Descending;
    groups := FirstHolds(b, rows, limit);
    var (p, n) := First(b, rows, limit);
    HoldsMinID(b, p, rows[..n], groups);
    assert rows[..n][n - 1] == rows[n - 1];
    BelowIsRest(rows, n);
  }

  lemma FirstHolds(b: Settings, rows: seq<Event>, limit: nat) returns (groups: seq<seq<Event>>)
    requires Descending(rows) && |rows| > 0 && limit > 0 && b.pageSize >= 1
    ensures var (p, n) := First(b, rows, limit); 0 < n <= |rows| && Holds(b, p, rows[..n], groups)
  {
    hide Holds, Fill, Descending;
    EmptyHolds(b);
    assert [] + rows == rows;
    groups := FillHolds(b, EMPTY, [], [], rows, limit);
    FillTakesOne(b, rows, limit);
    var n := First(b, rows, limit).1;
    assert [] + rows[..n] == rows[..n];
  }

  lemma FillTakesOne(b: Settings, rows: seq<Event>, limit: nat)
    requires |rows| > 0 && limit > 0 && b.pageSize >= 1
    ensures Fill(b, EMPTY, rows, limit).1 > 0
  {
    assert Admits(b, EMPTY, rows[0]);
  }

  lemma HoldsMinID(b: Settings, p: Page, rows: seq<Event>, groups: seq<seq<Event>>)
    requires Holds(b, p, rows, groups) && |rows| > 0
    ensures p.minID == rows[|rows| - 1].id && |p.entries| <= b.pageSize
    ensures Count(p.entries) == Telling(b.viewer, rows) && Pillage(p.entries) == Pillaging(b.viewer, rows)
  {
  }

  lemma PageProgress(b: Settings, rows: seq<Event>, limit: nat)
    requires Descending(rows) && |rows| > 0 && limit > 0 && b.pageSize >= 1
    ensures var (p, n) := First(b, rows, limit);
            0 < n <= |rows| && p.minID == rows[n - 1].id && Below(rows, p.minID) == rows[n..]
  {
    hide Holds, First, Below;
    var groups := FirstPage(b, rows, limit);
  }

  /** What the viewer has seen moves on while they read; each page asks anew. */
  function At(b: Settings, seen: nat -> int, k: nat): Settings {
    b.(cursor := seen(k))
  }

  /** All pages of a log from the `k`-th on, each read from where the one before it
      stopped, with the rows each took. */
  ghost function Pages(b: Settings, seen: nat -> int, k: nat, rows: seq<Event>, limit: nat): seq<(Page, seq<Event>)>
    requires Descending(rows) && limit > 0 && b.pageSize >= 1
    decreases |rows|
  {
    if |rows| == 0 then [] else
    PageProgress(At(b, seen, k), rows, limit);
    var (p, n) := First(At(b, seen, k), rows, limit);
    [(p, rows[..n])] + Pages(b, seen, k + 1, Below(rows, p.minID), limit)
  }

  ghost function AllRows(pages: seq<(Page, seq<Event>)>): seq<Event> {
    if |pages| == 0 then [] else pages[0].1 + AllRows(pages[1..])
  }

  ghost function AllEntries(pages: seq<(Page, seq<Event>)>): seq<Entry> {
    if |pages| == 0 then [] else pages[0].0.entries + AllEntries(pages[1..])
  }

  /** The page sums up exactly the rows it took, each in one entry. */
  ghost predicate SumsUpAll(b: Settings, p: Page, rows: seq<Event>) {
    exists groups :: Holds(b, p, rows, groups)
  }

  lemma {:induction false} CountConcat(a: seq<Entry>, c: seq<Entry>)
    ensures Count(a + c) == Count(a) + Count(c) && Pillage(a + c) == Pillage(a) + Pillage(c)
  {
    if |c| == 0 {
      assert a + c == a;
    } else {
      var n := |c| - 1;
      CountConcat(a, c[..n]);
      assert a + c == (a + c[..n]) + [c[n]];
      CountAppended(a + c[..n], c[n]);
    }
  }

  lemma {:induction false} RowsConcat(viewer: Uuid, a: seq<Event>, c: seq<Event>)
    ensures Telling(viewer, a + c) == Telling(viewer, a) + Telling(viewer, c)
    ensures Pillaging(viewer, a + c) == Pillaging(viewer, a) + Pillaging(viewer, c)
  {
    if |c| == 0 {
      assert a + c == a;
    } else {
      var n := |c| - 1;
      RowsConcat(viewer, a, c[..n]);
      assert a + c == (a + c[..n]) + [c[n]];
      RowsAppended(viewer, a + c[..n], c[n]);
    }
  }

  /** Read page after page, whatever the viewer sees in between, a log gives every
      row exactly once and in order; no page is empty-handed or too long; in every
      page each telling row stands behind exactly one entry; and the entries together
      count every row that tells the viewer something, and all that was pillaged. */
  lemma {:induction false} PagingLosesNothing(b: Settings, seen: nat -> int, k: nat, rows: seq<Event>, limit: nat)
    requires Descending(rows) && limit > 0 && b.pageSize >= 1
    ensures var pages := Pages(b, seen, k, rows, limit);
            && AllRows(pages) == rows
            && (forall i | 0 <= i < |pages| :: |pages[i].1| > 0 && |pages[i].0.entries| <= b.pageSize)
            && (forall i | 0 <= i < |pages| :: SumsUpAll(At(b, seen, k + i), pages[i].0, pages[i].1))
            && Count(AllEntries(pages)) == Telling(b.viewer, rows)
            && Pillage(AllEntries(pages)) == Pillaging(b.viewer, rows)
    decreases |rows|
  {
    hide Holds, First, Below, Pages, Telling, Pillaging, Count, Pillage, SumsUpAll;
    PagesStep(b, seen, k, rows, limit);
    if |rows| > 0 {
      var now := At(b, seen, k);
      var groups := FirstPage(now, rows, limit);
      var (p, n) := First(now, rows, limit);
      HoldsMinID(now, p, rows[..n], groups);
      PagingLosesNothing(b, seen, k + 1, rows[n..], limit);
      var rest, pages := Pages(b, seen, k + 1, rows[n..], limit), Pages(b, seen, k, rows, limit);
      assert pages[1..] == rest;
      assert rows == rows[..n] + rows[n..];
      SummedUp(now, p, rows[..n], groups);
      forall i | 0 <= i < |pages| ensures SumsUpAll(At(b, seen, k + i), pages[i].0, pages[i].1) {
        if i > 0 {
          assert SumsUpAll(At(b, seen, k + 1 + (i - 1)), rest[i - 1].0, rest[i - 1].1);
        }
      }
      CountConcat(p.entries, AllEntries(rest));
      RowsConcat(b.viewer, rows[..n], rows[n..]);
    } else {
      NothingCounts(b.viewer);
    }
  }

  lemma SummedUp(b: Settings, p: Page, rows: seq<Event>, groups: seq<seq<Event>>)
    requires Holds(b, p, rows, groups)
    ensures SumsUpAll(b, p, rows)
  {}

  lemma NothingCounts(viewer: Uuid)
    ensures Count([]) == Telling(viewer, []) == 0 && Pillage([]) == Pillaging(viewer, []) == 0
  {}

  lemma PagesStep(b: Settings, seen: nat -> int, k: nat, rows: seq<Event>, limit: nat)
    requires Descending(rows) && limit > 0 && b.pageSize >= 1
    ensures |rows| == 0 ==> Pages(b, seen, k, rows, limit) == []
    ensures |rows| > 0 ==>
              var (p, n) := First(At(b, seen, k), rows, limit);
              && 0 < n <= |rows| && Descending(rows[n..])
              && Pages(b, seen, k, rows, limit) == [(p, rows[..n])] + Pages(b, seen, k + 1, rows[n..], limit)
  {
    if |rows| > 0 {
      PageProgress(At(b, seen, k), rows, limit);
    }
  }
}
