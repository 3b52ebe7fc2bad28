// The registry of sessions and who watches which chunk, kept in step from both
// sides, and who is told when an entity crosses from one chunk to another.

module Hub {
  datatype Coord = Coord(cx: int, cy: int)

  const TWO_32 := 0x1_0000_0000

  /** A chunk in one number: its two coordinates, cut to thirty-two bits each. */
  function KeyOf(c: Coord): int {
    (c.cx % TWO_32) * TWO_32 + c.cy % TWO_32
  }

  predicate IsInt32(v: int) {
    -0x8000_0000 <= v < 0x8000_0000
  }

  predicate InRange(c: Coord) {
    IsInt32(c.cx) && IsInt32(c.cy)
  }

  /** Different chunks have different keys. */
  lemma KeysDiffer(a: Coord, b: Coord)
    requires InRange(a) && InRange(b)
    requires KeyOf(a) == KeyOf(b)
    ensures a == b
  {
    hide KeyOf;
    KeyHalves(a);
    KeyHalves(b);
    CutOnce(a.cx, b.cx);
    CutOnce(a.cy, b.cy);
  }

  lemma KeyHalves(c: Coord)
    ensures KeyOf(c) / TWO_32 == c.cx % TWO_32 && KeyOf(c) % TWO_32 == c.cy % TWO_32
  {
  }

  lemma CutOnce(v: int, w: int)
    requires IsInt32(v) && IsInt32(w) && v % TWO_32 == w % TWO_32
    ensures v == w
  {
  }

  class Session {
    const id: int
    const player: int
    var chunks: map<int, Coord>

    constructor (i: int, p: int)
      ensures id == i && player == p && chunks == map[]
    {
      id, player, chunks := i, p, map[];
    }
  }

  type Sessions = map<int, Session>

  function SetAt(table: map<int, Sessions>, key: int): Sessions {
    if key in table then table[key] else map[]
  }

  /** Adding to a set that may not be there yet. */
  function Added(table: map<int, Sessions>, key: int, s: Session): map<int, Sessions> {
    table[key := SetAt(table, key)[s.id := s]]
  }

  /** Removing from a set, which goes away when it is empty. */
  function Removed(table: map<int, Sessions>, key: int, id: int): map<int, Sessions> {
    if key !in table then table else
    var rest := table[key] - {id};
    if rest == map[] then table - {key} else table[key := rest]
  }

  lemma AddedAt(table: map<int, Sessions>, key: int, s: Session, k: int)
    ensures SetAt(Added(table, key, s), k) == if k == key then SetAt(table, key)[s.id := s] else SetAt(table, k)
    ensures NoEmpty(table) ==> NoEmpty(Added(table, key, s))
  {
    assert s.id in SetAt(table, key)[s.id := s];
  }

  lemma RemovedAt(table: map<int, Sessions>, key: int, id: int, k: int)
    requires NoEmpty(table)
    ensures SetAt(Removed(table, key, id), k) == if k == key then SetAt(table, key) - {id} else SetAt(table, k)
    ensures NoEmpty(Removed(table, key, id))
  {
  }

  predicate NoEmpty(table: map<int, Sessions>) {
    forall k :: k in table ==> table[k] != map[]
  }

  ghost predicate KeysMatch(chunks: map<int, Coord>) {
    forall k :: k in chunks ==> KeyOf(chunks[k]) == k && InRange(chunks[k])
  }

  // ---------------------------------------------------------------------
  // What it means to agree
  // ---------------------------------------------------------------------

  /** The sessions of a player are those registered with that player. */
  ghost predicate PlayersIndexed(byPlayer: map<int, Sessions>, sessions: Sessions) {
    && NoEmpty(byPlayer)
    && (forall p, id :: id in SetAt(byPlayer, p) <==> id in sessions && sessions[id].player == p)
    && (forall p, id :: id in SetAt(byPlayer, p) ==> SetAt(byPlayer, p)[id] == sessions[id])
  }

  /** The watchers of a chunk are the known sessions that watch it. */
  ghost predicate ChunksIndexed(byChunk: map<int, Sessions>, members: Sessions, watched: map<int, set<int>>) {
    && NoEmpty(byChunk) && (forall id :: id in watched <==> id in members)
    && (forall k, id :: id in SetAt(byChunk, k) <==> id in watched && k in watched[id])
    && (forall k, id :: id in SetAt(byChunk, k) ==> id in members && SetAt(byChunk, k)[id] == members[id])
  }

  /** What a session watches, as far as it is known. */
  function Watching(watched: map<int, set<int>>, id: int): set<int> {
    if id in watched then watched[id] else {}
  }

  lemma PlayerAdded(table: map<int, Sessions>, sessions: Sessions, s: Session)
    requires PlayersIndexed(table, sessions) && (s.id in sessions ==> sessions[s.id] == s)
    ensures PlayersIndexed(Added(table, s.player, s), sessions[s.id := s])
  {
    AddedAt(table, s.player, s, s.player);
    forall p ensures SetAt(Added(table, s.player, s), p) == if p == s.player then SetAt(table, p)[s.id := s]
        else SetAt(table, p) {
      AddedAt(table, s.player, s, p);
    }
  }

  lemma PlayerRemoved(table: map<int, Sessions>, sessions: Sessions, s: Session)
    requires PlayersIndexed(table, sessions) && (s.id in sessions ==> sessions[s.id] == s)
    ensures PlayersIndexed(Removed(table, s.player, s.id), sessions - {s.id})
    ensures forall p :: SetAt(Removed(table, s.player, s.id), p) == SetAt(table, p) - {s.id}
  {
    RemovedAt(table, s.player, s.id, s.player);
    forall p ensures SetAt(Removed(table, s.player, s.id), p) == SetAt(table, p) - {s.id} {
      RemovedAt(table, s.player, s.id, p);
      assert p != s.player ==> s.id !in SetAt(table, p);
    }
  }

  lemma WatcherAdded(byChunk: map<int, Sessions>, members: Sessions, watched: map<int, set<int>>, s: Session)
    requires ChunksIndexed(byChunk, members, watched) && (s.id in members ==> members[s.id] == s)
    ensures ChunksIndexed(byChunk, members[s.id := s], watched[s.id := Watching(watched, s.id)])
  {
  }

  /** The chunks of `before` with `s` taken out of some and put in others. */
  ghost predicate Moves(before: map<int, Sessions>, after: map<int, Sessions>, s: Session, out: set<int>,
      into: set<int>) {
    forall k :: SetAt(after, k) == if k in into then SetAt(before, k)[s.id := s]
                                   else if k in out then SetAt(before, k) - {s.id} else SetAt(before, k)
  }

  lemma StaysPut(table: map<int, Sessions>, s: Session)
    ensures Moves(table, table, s, {}, {})
  {
  }

  lemma EnterOne(before: map<int, Sessions>, now: map<int, Sessions>, s: Session, done: set<int>, key: int)
    requires NoEmpty(now) && Moves(before, now, s, {}, done)
    ensures NoEmpty(Added(now, key, s)) && Moves(before, Added(now, key, s), s, {}, done + {key})
  {
    AddedAt(now, key, s, key);
    forall k ensures SetAt(Added(now, key, s), k) == if k == key then SetAt(now, k)[s.id := s] else SetAt(now, k) {
      AddedAt(now, key, s, k);
    }
  }

  lemma LeaveOne(before: map<int, Sessions>, now: map<int, Sessions>, s: Session, done: set<int>, key: int)
    requires NoEmpty(now) && Moves(before, now, s, done, {})
    ensures NoEmpty(Removed(now, key, s.id)) && Moves(before, Removed(now, key, s.id), s, done + {key}, {})
  {
    RemovedAt(now, key, s.id, key);
    forall k ensures SetAt(Removed(now, key, s.id), k) == if k == key then SetAt(now, k) - {s.id} else SetAt(now, k) {
      RemovedAt(now, key, s.id, k);
    }
  }

  /** Watching nothing any more: out of everything. */
  lemma WatcherRemoved(before: map<int, Sessions>, after: map<int, Sessions>, members: Sessions,
                       watched: map<int, set<int>>, s: Session)
    requires ChunksIndexed(before, members, watched) && NoEmpty(after) && s.id in members && members[s.id] == s
    requires Moves(before, after, s, watched[s.id], {})
    ensures ChunksIndexed(after, members, watched[s.id := {}])
    ensures forall k :: SetAt(after, k) == SetAt(before, k) - {s.id}
  {
    forall k ensures SetAt(after, k) == SetAt(before, k) - {s.id} {
      assert k !in watched[s.id] ==> s.id !in SetAt(before, k);
    }
  }

  /** Watching `next` instead: out of what is left, into what is new. */
  lemma WatcherMoved(before: map<int, Sessions>, after: map<int, Sessions>, members: Sessions,
                     watched: map<int, set<int>>, s: Session, next: set<int>)
    requires ChunksIndexed(before, members, watched) && NoEmpty(after)
    requires s.id in members && members[s.id] == s
    requires Moves(before, after, s, watched[s.id] - next, next - watched[s.id])
    ensures ChunksIndexed(after, members, watched[s.id := next])
  {
    forall k, id ensures id in SetAt(after, k) <==>
      id in watched && k in watched[s.id := next][id] {
      assert id in SetAt(before, k) <==> id in watched && k in watched[id];
    }
  }

  class Hub {
    var sessions: Sessions
    var byPlayer: map<int, Sessions>
    var byChunk: map<int, Sessions>
    /** Every session that any call has named, registered or not. */
    ghost var members: Sessions
    /** What each of them watches. */
    ghost var watched: map<int, set<int>>

    /** All that is written about one session says the same. */
    ghost predicate Agrees(id: int)
      reads this, members.Values
    {
      && (id in sessions ==> id in members && sessions[id] == members[id])
      && (id in members <==> id in watched)
      && (id in members ==>
            && members[id].id == id && KeysMatch(members[id].chunks)
            && watched[id] == members[id].chunks.Keys)
    }

    ghost predicate Known()
      reads this, members.Values
    {
      forall id :: Agrees(id)
    }

    ghost predicate IsMember(s: Session)
      reads this
    {
      s.id in members && members[s.id] == s
    }

    /** The indexes and the sessions agree, and there are no empty sets. */
    ghost predicate Valid()
      reads this, members.Values
    {
      Known() && PlayersIndexed(byPlayer, sessions) && ChunksIndexed(byChunk, members, watched)
    }

    /** A session that is known, or a new one. */
    ghost predicate Takes(s: Session)
      reads this, s
    {
      if s.id in members then members[s.id] == s else s.chunks == map[]
    }

    /** Only registered sessions watch anything. */
    ghost predicate NoGhosts()
      reads this
    {
      forall k, id :: id in SetAt(byChunk, k) ==> id in sessions
    }

    constructor ()
      ensures Valid() && NoGhosts() && sessions == map[] && byPlayer == map[] && byChunk == map[] && members == map[]
    {
      sessions, byPlayer, byChunk, members, watched := map[], map[], map[], map[], map[];
    }

    /** A session watches a chunk in its own list exactly when the chunk's list has
        it. */
    lemma BothSidesAgree(s: Session, k: int)
      requires Valid() && IsMember(s)
      ensures k in s.chunks <==> k in byChunk && s.id in byChunk[k] && byChunk[k][s.id] == s
    {
      assert Agrees(s.id);
      assert s.id in SetAt(byChunk, k) <==> s.id in watched && k in watched[s.id];
    }

    /** Names a session, which changes nothing about it. */
    ghost method Meet(s: Session)
      requires Valid() && Takes(s)
      modifies this`members, this`watched
      ensures Valid() && IsMember(s) && members == old(members)[s.id := s]
      ensures watched == old(watched)[s.id := s.chunks.Keys]
    {
      hide PlayersIndexed, ChunksIndexed, KeysMatch;
      assert Agrees(s.id);
      WatcherAdded(byChunk, members, watched, s);
      assert s.chunks == map[] ==> s.chunks.Keys == {};
      assert Watching(watched, s.id) == s.chunks.Keys;
      NoKeys();
      members := members[s.id := s];
      watched := watched[s.id := s.chunks.Keys];
      forall id ensures Agrees(id) {
        assert old(Agrees(id));
      }
    }

    method Register(s: Session)
      requires Valid() && Takes(s)
      modifies this
      ensures Valid() && members == old(members)[s.id := s] && (old(NoGhosts()) ==> NoGhosts())
      ensures sessions == old(sessions)[s.id := s] && byChunk == old(byChunk)
      ensures byPlayer == Added(old(byPlayer), s.player, s)
    {
      hide PlayersIndexed, ChunksIndexed, Added, KeysMatch, SetAt, NoEmpty;
      assert Agrees(s.id);
      Meet(s);
      assert Agrees(s.id);
      label met:
      PlayerAdded(byPlayer, sessions, s);
      sessions := sessions[s.id := s];
      byPlayer := Added(byPlayer, s.player, s);
      forall id ensures Agrees(id) {
        assert old@met(Agrees(id));
      }
    }

    /** Takes a session out of the given chunks. */
    method LeaveChunks(s: Session, keys: set<int>)
      requires NoEmpty(byChunk)
      modifies this`byChunk
      ensures NoEmpty(byChunk) && Moves(old(byChunk), byChunk, s, keys, {})
    {
      hide NoEmpty, Moves, SetAt, Removed;
      var rest := keys;
      StaysPut(byChunk, s);
      assert keys - rest == {};
      while |rest| > 0
        invariant rest <= keys && NoEmpty(byChunk) && Moves(old(byChunk), byChunk, s, keys - rest, {})
      {
        SomeKey(rest);
        var key :| key in rest;
        LeaveOne(old(byChunk), byChunk, s, keys - rest, key);
        byChunk := Removed(byChunk, key, s.id);
        assert keys - (rest - {key}) == keys - rest + {key};
        rest := rest - {key};
      }
      assert keys - rest == keys;
    }

    /** Adds a session to the chunks it did not watch. */
    method EnterNew(s: Session, next: map<int, Coord>) returns (entered: seq<Coord>)
      requires NoEmpty(byChunk)
      modifies this`byChunk
      ensures NoEmpty(byChunk) && Moves(old(byChunk), byChunk, s, {}, next.Keys - s.chunks.Keys)
      ensures Lists(entered, next, next.Keys - s.chunks.Keys)
    {
      hide Lists, KeyOf, NoEmpty, Moves, SetAt, Added;
      StaysPut(byChunk, s);
      var had := s.chunks;
      entered := [];
      var rest := next.Keys;
      ghost var done: set<int> := {};
      ListsNone(next);
      while |rest| > 0
        invariant rest <= next.Keys && NoEmpty(byChunk) && Moves(old(byChunk), byChunk, s, {}, done)
        invariant Lists(entered, next, done) && Swept(done, rest, next.Keys, had.Keys)
      {
        SomeKey(rest);
        var key :| key in rest;
        rest := rest - {key};
        if key !in had {
          ListsMore(entered, next, done, key);
          EnterOne(old(byChunk), byChunk, s, done, key);
          entered := entered + [next[key]];
          byChunk := Added(byChunk, key, s);
          done := done + {key};
        }
      }
      SweptAll(done, rest, next.Keys, had.Keys);
    }

    /** Takes a session out of the chunks it no longer watches. */
    method LeaveOld(s: Session, next: map<int, Coord>) returns (left: seq<Coord>)
      requires NoEmpty(byChunk)
      modifies this`byChunk
      ensures NoEmpty(byChunk) && Moves(old(byChunk), byChunk, s, s.chunks.Keys - next.Keys, {})
      ensures Lists(left, s.chunks, s.chunks.Keys - next.Keys)
    {
      hide Lists, KeyOf, NoEmpty, Moves, SetAt, Removed;
      StaysPut(byChunk, s);
      var had := s.chunks;
      left := [];
      var rest := had.Keys;
      ghost var done: set<int> := {};
      ListsNone(had);
      while |rest| > 0
        invariant rest <= had.Keys && NoEmpty(byChunk) && Moves(old(byChunk), byChunk, s, done, {})
        invariant Lists(left, had, done) && Swept(done, rest, had.Keys, next.Keys)
      {
        SomeKey(rest);
        var key :| key in rest;
        rest := rest - {key};
        if key !in next {
          ListsMore(left, had, done, key);
          LeaveOne(old(byChunk), byChunk, s, done, key);
          left := left + [had[key]];
          byChunk := Removed(byChunk, key, s.id);
          done := done + {key};
        }
      }
      SweptAll(done, rest, had.Keys, next.Keys);
    }

    /** Replaces what a session watches, and says which chunks it began and which it
        stopped watching: exactly the differences, each once. */
    method Subscribe(s: Session, chunks: seq<Coord>) returns (entered: seq<Coord>, left: seq<Coord>)
      requires Valid() && Takes(s) && forall c :: c in chunks ==> InRange(c)
      modifies this`byChunk, this`watched, this`members, s
      ensures Valid() && Watches(s, chunks) && members == old(members)[s.id := s]
      ensures old(NoGhosts()) ==> (NoGhosts() <==> s.id in sessions || chunks == [])
      ensures forall c :: c in entered <==> c in chunks && KeyOf(c) !in old(s.chunks)
      ensures forall c :: c in left <==> Has(old(s.chunks), c) && c !in chunks
      ensures Distinct(entered) && Distinct(left)
      ensures forall k, id :: id != s.id ==> (id in SetAt(byChunk, k) <==> id in SetAt(old(byChunk), k))
    {
      hide PlayersIndexed, ChunksIndexed, KeysMatch, SetAt, Moves, NoEmpty, Lists, KeyOf, InRange, Distinct;
      Meet(s);
      assert Agrees(s.id);
      ChunksNotEmpty();
      var next := KeyedChunks(chunks);
      label met:
      ghost var before, was := byChunk, s.chunks;
      entered := EnterNew(s, next);
      ghost var middle := byChunk;
      left := LeaveOld(s, next);
      MovesBoth(before, middle, byChunk, s, was.Keys, next.Keys);
      WatcherMoved(before, byChunk, members, watched, s, next.Keys);
      EnteredExactly(entered, chunks, next, was);
      LeftExactly(left, chunks, next, was);
      WatchedBy(before, members, watched, s.id);
      if old(NoGhosts()) {
        GhostIff(before, byChunk, s, was.Keys, next, chunks, sessions);
      }
      watched := watched[s.id := next.Keys];
      s.chunks := next;
      forall id ensures Agrees(id) {
        assert old@met(Agrees(id));
      }
    }

    /** Who is told that an entity went from one chunk to another. Nobody who sees
        both is told anything, and nobody is told both things. */
    method BroadcastChunkTransition(from: Coord, to: Coord, onlyPlayer: int)
      returns (spawns: seq<Session>, despawns: seq<Session>)
      requires Valid() && InRange(from) && InRange(to)
      ensures from == to ==> spawns == [] && despawns == []
      ensures forall s :: s in spawns <==>
        && s.id in members && members[s.id] == s && KeyOf(to) in s.chunks && KeyOf(from) !in s.chunks
        && (onlyPlayer != 0 ==> s.player == onlyPlayer)
      ensures forall s :: s in despawns <==>
        && s.id in members && members[s.id] == s && KeyOf(from) in s.chunks && KeyOf(to) !in s.chunks
        && (onlyPlayer != 0 ==> s.player == onlyPlayer)
      ensures forall s :: !(s in spawns && s in despawns)
      ensures NoneTwice(spawns) && NoneTwice(despawns)
    {
      if from == to {
        return [], [];
      }
      UnderOwnId(from);
      UnderOwnId(to);
      spawns := Only(SetAt(byChunk, KeyOf(to)), SetAt(byChunk, KeyOf(from)), onlyPlayer);
      despawns := Only(SetAt(byChunk, KeyOf(from)), SetAt(byChunk, KeyOf(to)), onlyPlayer);
      forall s ensures s in spawns <==> Told(s, to, from, onlyPlayer) {
        WatcherIsTold(spawns, s, to, from, onlyPlayer);
      }
      forall s ensures s in despawns <==> Told(s, from, to, onlyPlayer) {
        WatcherIsTold(despawns, s, from, to, onlyPlayer);
      }
    }

    /** A set of watchers lists every session under its own number. */
    lemma UnderOwnId(c: Coord)
      requires Valid()
      ensures forall id :: id in SetAt(byChunk, KeyOf(c)) ==> SetAt(byChunk, KeyOf(c))[id].id == id
    {
      forall id | id in SetAt(byChunk, KeyOf(c)) ensures SetAt(byChunk, KeyOf(c))[id].id == id {
        assert Agrees(id);
      }
    }

    /** A session that watches one chunk and not the other. */
    ghost predicate Told(s: Session, watching: Coord, not: Coord, onlyPlayer: int)
      reads this, s
    {
      && IsMember(s) && KeyOf(watching) in s.chunks && KeyOf(not) !in s.chunks
      && Admits(onlyPlayer, s)
    }

    lemma WatcherIsTold(targets: seq<Session>, s: Session, watching: Coord, not: Coord, onlyPlayer: int)
      requires Valid()
      requires IsOnly(targets, SetAt(byChunk, KeyOf(watching)), SetAt(byChunk, KeyOf(not)), onlyPlayer)
      ensures s in targets <==> Told(s, watching, not, onlyPlayer)
    {
      hide KeyOf;
      assert Agrees(s.id);
      var on, off := SetAt(byChunk, KeyOf(watching)), SetAt(byChunk, KeyOf(not));
      forall id ensures id in on ==> on[id].id == id {
        assert Agrees(id);
      }
    }

    /** Takes a session out of everything: no table holds it any more, and nobody
        else's subscriptions change. */
    method Unregister(s: Session)
      requires Valid() && Takes(s)
      modifies this`sessions, this`byPlayer, this`byChunk, this`members, this`watched, s
      ensures Valid() && members == old(members)[s.id := s] && (old(NoGhosts()) ==> NoGhosts())
      ensures sessions == old(sessions) - {s.id} && s.chunks == map[]
      ensures forall p :: SetAt(byPlayer, p) == SetAt(old(byPlayer), p) - {s.id}
      ensures forall k :: SetAt(byChunk, k) == SetAt(old(byChunk), k) - {s.id}
    {
      hide PlayersIndexed, ChunksIndexed, Removed, KeysMatch, SetAt, Moves, NoEmpty;
      assert Agrees(s.id);
      Meet(s);
      assert Agrees(s.id);
      label met:
      ChunksNotEmpty();
      PlayerRemoved(byPlayer, sessions, s);
      sessions := sessions - {s.id};
      byPlayer := Removed(byPlayer, s.player, s.id);
      ghost var before := byChunk;
      LeaveChunks(s, s.chunks.Keys);
      WatcherRemoved(before, byChunk, members, watched, s);
      s.chunks := map[];
      assert s.chunks.Keys == {};
      watched := watched[s.id := {}];
      NoKeys();
      forall id ensures Agrees(id) {
        assert old@met(Agrees(id));
      }
    }

    lemma ChunksNotEmpty()
      requires Valid()
      ensures NoEmpty(byChunk)
    {
    }
  }

  const NIL := 0

  ghost predicate IsOnly(targets: seq<Session>, on: Sessions, off: Sessions, onlyPlayer: int) {
    && (forall s :: s in targets ==> exists id :: id in on && id !in off && on[id] == s && Admits(onlyPlayer, s))
    && (forall id :: id in on && id !in off && Admits(onlyPlayer, on[id]) ==> on[id] in targets)
  }

  predicate Admits(onlyPlayer: int, s: Session) {
    onlyPlayer == NIL || s.player == onlyPlayer
  }

  ghost predicate NoneTwice(targets: seq<Session>) {
    forall i, j :: 0 <= i < j < |targets| ==> targets[i] != targets[j]
  }

  /** The sessions of one set that are not in the other, each once. */
  method Only(on: Sessions, off: Sessions, onlyPlayer: int) returns (targets: seq<Session>)
    requires forall id :: id in on ==> on[id].id == id
    ensures IsOnly(targets, on, off, onlyPlayer) && NoneTwice(targets)
  {
    targets := [];
    var rest := on.Keys;
    while |rest| > 0
      invariant rest <= on.Keys && NoneTwice(targets)
      invariant forall i :: 0 <= i < |targets| ==> targets[i].id in on.Keys - rest
      invariant forall s :: s in targets ==> exists id :: id in on && id !in off && on[id] == s && Admits(onlyPlayer, s)
      invariant forall id :: id in on.Keys - rest && id !in off && Admits(onlyPlayer, on[id]) ==> on[id] in targets
    {
      SomeKey(rest);
      var id :| id in rest;
      if id !in off && Admits(onlyPlayer, on[id]) {
        targets := targets + [on[id]];
      }
      rest := rest - {id};
    }
  }

  ghost predicate Distinct(cs: seq<Coord>) {
    forall j, k :: 0 <= j < k < |cs| ==> cs[j] != cs[k]
  }

  ghost predicate Has(m: map<int, Coord>, c: Coord) {
    exists k :: k in m && m[k] == c
  }

  /** The session watches these chunks and no others. */
  ghost predicate Watches(s: Session, chunks: seq<Coord>)
    reads s
  {
    (forall c :: Has(s.chunks, c) <==> c in chunks) && KeysMatch(s.chunks)
  }

  /** The coordinates under some keys, one for each. */
  ghost predicate Lists(cs: seq<Coord>, m: map<int, Coord>, keys: set<int>) {
    && keys <= m.Keys
    && (forall c :: c in cs <==> exists k :: k in keys && m[k] == c)
    && (KeysMatch(m) ==> Distinct(cs))
  }

  lemma ListsNone(m: map<int, Coord>)
    ensures Lists([], m, {})
  {
  }

  lemma ListsMore(cs: seq<Coord>, m: map<int, Coord>, keys: set<int>, key: int)
    requires Lists(cs, m, keys) && key in m && key !in keys
    ensures Lists(cs + [m[key]], m, keys + {key})
  {
    hide KeyOf, InRange;
    if KeysMatch(m) {
      forall j | 0 <= j < |cs| ensures cs[j] != m[key] {
        assert cs[j] in cs;
        var k :| k in keys && m[k] == cs[j];
        assert KeyOf(m[k]) == k && KeyOf(m[key]) == key;
      }
    }
  }

  method KeyedChunks(chunks: seq<Coord>) returns (next: map<int, Coord>)
    requires forall c :: c in chunks ==> InRange(c)
    ensures KeysMatch(next) && forall c :: Has(next, c) <==> c in chunks
    ensures forall k :: k in next ==> next[k] in chunks
    ensures forall c :: c in chunks ==> KeyOf(c) in next && next[KeyOf(c)] == c
  {
    hide KeyOf;
    next := map[];
    for n := 0 to |chunks|
      invariant KeysMatch(next) && forall k :: k in next ==> next[k] in chunks[..n]
      invariant forall c :: c in chunks[..n] ==> KeyOf(c) in next && next[KeyOf(c)] == c
    {
      var c := chunks[n];
      forall d | d in chunks[..n] && KeyOf(d) == KeyOf(c) ensures d == c {
        KeysDiffer(c, d);
      }
      next := next[KeyOf(c) := c];
    }
    assert chunks[..|chunks|] == chunks;
  }

  lemma MovesBoth(before: map<int, Sessions>, middle: map<int, Sessions>, after: map<int, Sessions>,
                  s: Session, was: set<int>, next: set<int>)
    requires Moves(before, middle, s, {}, next - was) && Moves(middle, after, s, was - next, {})
    ensures Moves(before, after, s, was - next, next - was)
    ensures forall k, id :: id != s.id ==> (id in SetAt(after, k) <==> id in SetAt(before, k))
  {
    hide SetAt;
  }

  lemma WatchedBy(byChunk: map<int, Sessions>, members: Sessions, watched: map<int, set<int>>, id: int)
    requires ChunksIndexed(byChunk, members, watched)
    ensures forall k :: id in SetAt(byChunk, k) <==> k in Watching(watched, id)
  {
  }

  /** A subscription makes a watcher of an unregistered session exactly when it
      names a chunk at all. */
  lemma GhostIff(before: map<int, Sessions>, after: map<int, Sessions>, s: Session, was: set<int>,
                 next: map<int, Coord>, chunks: seq<Coord>, sessions: Sessions)
    requires Moves(before, after, s, was - next.Keys, next.Keys - was)
    requires forall k :: s.id in SetAt(before, k) <==> k in was
    requires forall k :: k in next ==> next[k] in chunks
    requires forall c :: c in chunks ==> KeyOf(c) in next
    requires forall k, id :: id in SetAt(before, k) ==> id in sessions || id == s.id
    ensures (forall k, id :: id in SetAt(after, k) ==> id in sessions) <==> s.id in sessions || chunks == []
  {
    hide SetAt, KeyOf;
    if s.id !in sessions && chunks != [] {
      var k := KeyOf(chunks[0]);
      assert chunks[0] in chunks && k in next;
      assert s.id in SetAt(after, k);
    }
    forall k ensures s.id in SetAt(after, k) <==> k in next {
    }
  }

  lemma EnteredExactly(entered: seq<Coord>, chunks: seq<Coord>, next: map<int, Coord>, was: map<int, Coord>)
    requires Lists(entered, next, next.Keys - was.Keys) && KeysMatch(next)
    requires forall k :: k in next ==> next[k] in chunks
    requires forall c :: c in chunks ==> KeyOf(c) in next && next[KeyOf(c)] == c
    ensures forall c :: c in entered <==> c in chunks && KeyOf(c) !in was
    ensures Distinct(entered)
  {
    hide KeyOf, InRange;
  }

  lemma LeftExactly(left: seq<Coord>, chunks: seq<Coord>, next: map<int, Coord>, was: map<int, Coord>)
    requires Lists(left, was, was.Keys - next.Keys) && KeysMatch(next) && KeysMatch(was)
    requires forall k :: k in next ==> next[k] in chunks
    requires forall c :: c in chunks ==> KeyOf(c) in next && next[KeyOf(c)] == c
    ensures forall c :: c in left <==> Has(was, c) && c !in chunks
    ensures Distinct(left)
  {
    hide KeyOf;
    forall c ensures c in left <==> Has(was, c) && c !in chunks {
      if Has(was, c) && c !in chunks {
        var k :| k in was && was[k] == c;
        if k in next {
          KeysDiffer(next[k], was[k]);
        }
      }
    }
  }

  /** `done` is what has been looked at and is not among the others. */
  ghost predicate Swept(done: set<int>, rest: set<int>, all: set<int>, others: set<int>) {
    forall k :: k in done <==> k in all && k !in rest && k !in others
  }

  lemma SweptAll(done: set<int>, rest: set<int>, all: set<int>, others: set<int>)
    requires Swept(done, rest, all, others) && |rest| == 0
    ensures done == all - others
  {
    assert rest == {};
    forall k ensures k in done <==> k in all - others {
    }
  }

  lemma NoKeys()
    ensures KeysMatch(map[])
  {
  }

  lemma SomeKey(keys: set<int>)
    requires |keys| > 0
    ensures exists k :: k in keys
  {
    assert (forall k :: k !in keys) ==> keys == {};
  }
}
