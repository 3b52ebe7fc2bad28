// The territories of the world with their dense index, and the grid of
// territories that a new world is seeded with.

module TerritorySet {
  import opened Wrappers
  import opened World
  import opened Territory
  import opened Raster
  import Grids = GridGraph
  import Seqs

  /** The index holds ids in sixteen bits; none is lost on the way, since larger
      ones are refused first. */
  const MAX_TERRITORIES := 65535

  /** A chunk by its column and row. */
  type Chunk = Tile

  datatype SetError = BadWorld | BadChunkSize | IdOutOfRange(id: int) | UnorderedLimits(id: int)
                    | OutsideWorld(id: int) | Duplicate(id: int)

  function Whole(t: Tile): Side {
    Side.Inside
  }

  function LayerOf(t: Territory): Layer {
    Layer(t.id, t.minX, t.minY, t.maxX, t.maxY, Whole)
  }

  function LayersOf(ts: seq<Territory>): seq<Layer> {
    Seqs.Map(ts, LayerOf)
  }

  function TerritoryId(t: Territory): int {
    t.id
  }

  function CheckRectangle(t: Territory, width: int, height: int): Option<SetError> {
    if t.id < 1 || t.id > MAX_TERRITORIES then Some(IdOutOfRange(t.id))
    else if t.minX > t.maxX || t.minY > t.maxY then Some(UnorderedLimits(t.id))
    else if t.minX < 0 || t.minY < 0 || t.maxX >= width || t.maxY >= height then Some(OutsideWorld(t.id))
    else None
  }

  /** The first complaint about a list in order of id. */
  function FirstError(ts: seq<Territory>, width: int, height: int): Option<SetError> {
    if |ts| == 0 then None else
    var init, last := ts[..|ts| - 1], ts[|ts| - 1];
    var earlier := FirstError(init, width, height);
    if earlier.Some? then earlier
    else if CheckRectangle(last, width, height).Some? then CheckRectangle(last, width, height)
    else if exists t :: t in init && t.id == last.id then Some(Duplicate(last.id))
    else None
  }

  predicate Distinct(ts: seq<Territory>) {
    forall j, k :: 0 <= j < k < |ts| ==> ts[j].id != ts[k].id
  }

  predicate Numbered(t: Territory) {
    1 <= t.id <= 65535
  }

  predicate Straight(t: Territory) {
    t.minX <= t.maxX && t.minY <= t.maxY
  }

  predicate Inside(t: Territory, width: int, height: int) {
    0 <= t.minX <= t.maxX < width && 0 <= t.minY <= t.maxY < height
  }

  /** What is wrong with a rectangle: the first of an id that does not fit, limits
      out of order and a tile outside the world. */
  lemma RectangleMeans(t: Territory, width: int, height: int)
    ensures CheckRectangle(t, width, height) == None <==> Numbered(t) && Inside(t, width, height)
    ensures match CheckRectangle(t, width, height)
            case None => Straight(t)
            case Some(e) =>
              e == if !Numbered(t) then IdOutOfRange(t.id)
                   else if !Straight(t) then UnorderedLimits(t.id) else OutsideWorld(t.id)
  {
  }

  /** What is wrong with the k-th of a list, after those before it. */
  ghost predicate Complains(ts: seq<Territory>, k: nat, width: int, height: int, e: SetError)
    requires k < |ts|
  {
    if Numbered(ts[k]) && Inside(ts[k], width, height) then e == Duplicate(ts[k].id) && Repeats(ts, k)
    else CheckRectangle(ts[k], width, height) == Some(e)
  }

  ghost predicate Repeats(ts: seq<Territory>, k: nat)
    requires k < |ts|
  {
    exists j :: 0 <= j < k && ts[j].id == ts[k].id
  }

  ghost predicate Passes(ts: seq<Territory>, k: nat, width: int, height: int)
    requires k < |ts|
  {
    Numbered(ts[k]) && Inside(ts[k], width, height) && !Repeats(ts, k)
  }

  ghost predicate AllPass(ts: seq<Territory>, n: nat, width: int, height: int)
    requires n <= |ts|
  {
    forall j :: 0 <= j < n ==> Passes(ts, j, width, height)
  }

  /** A list is refused for the first of its territories that does not pass, and for
      what is wrong with that one. */
  lemma {:induction false} RefusedFor(ts: seq<Territory>, width: int, height: int, e: SetError)
    ensures FirstError(ts, width, height) == None <==> AllPass(ts, |ts|, width, height)
    ensures FirstError(ts, width, height) == Some(e) <==>
      exists k :: 0 <= k < |ts| && Complains(ts, k, width, height, e) && AllPass(ts, k, width, height)
  {
    hide CheckRectangle, Numbered, Inside;
    if |ts| > 0 {
      var init, n := ts[..|ts| - 1], |ts| - 1;
      RefusedFor(init, width, height, e);
      SamePrefix(ts, width, height, e);
      assert AllPass(ts, |ts|, width, height) <==> AllPass(init, n, width, height) && Passes(ts, n, width, height);
      LastComplains(ts, width, height, e);
    }
  }

  lemma SamePrefix(ts: seq<Territory>, width: int, height: int, e: SetError)
    requires |ts| > 0
    ensures var init := ts[..|ts| - 1]; forall k :: 0 <= k <= |init| ==>
      && (AllPass(init, k, width, height) <==> AllPass(ts, k, width, height))
      && (k < |init| ==> (Complains(init, k, width, height, e) <==> Complains(ts, k, width, height, e)))
  {
    hide CheckRectangle, Numbered, Inside;
    var init := ts[..|ts| - 1];
    forall k | 0 <= k < |init|
      ensures Passes(init, k, width, height) <==> Passes(ts, k, width, height)
      ensures Complains(init, k, width, height, e) <==> Complains(ts, k, width, height, e)
    {
      assert init[k] == ts[k] && (Repeats(init, k) <==> Repeats(ts, k));
    }
  }

  /** What passes does not complain, and the last is asked only if all others pass. */
  lemma LastComplains(ts: seq<Territory>, width: int, height: int, e: SetError)
    requires |ts| > 0
    ensures var init, n := ts[..|ts| - 1], |ts| - 1;
      && (FirstError(init, width, height).None? ==>
            && (FirstError(ts, width, height) == None <==> Passes(ts, n, width, height))
            && (FirstError(ts, width, height) == Some(e) <==> Complains(ts, n, width, height, e)))
      && (FirstError(init, width, height).Some? ==> FirstError(ts, width, height) == FirstError(init, width, height))
      && forall k :: 0 <= k < |ts| && Passes(ts, k, width, height) ==> !Complains(ts, k, width, height, e)
  {
    hide CheckRectangle, Numbered, Inside;
    RectangleMeans(ts[|ts| - 1], width, height);
    LastRepeats(ts);
  }

  lemma LastRepeats(ts: seq<Territory>)
    requires |ts| > 0
    ensures (exists t :: t in ts[..|ts| - 1] && t.id == ts[|ts| - 1].id) <==> Repeats(ts, |ts| - 1)
  {
    var init := ts[..|ts| - 1];
    if j :| 0 <= j < |ts| - 1 && ts[j].id == ts[|ts| - 1].id {
      assert init[j] in init;
    }
  }

  /** A list is accepted exactly when every rectangle is inside the world, every
      id fits the index and no two are the same. */
  lemma {:induction false} AcceptedIff(ts: seq<Territory>, width: int, height: int)
    ensures FirstError(ts, width, height).None? <==>
      (forall t :: t in ts ==> CheckRectangle(t, width, height).None?) && Distinct(ts)
  {
    hide CheckRectangle;
    if |ts| > 0 {
      var init, last := ts[..|ts| - 1], ts[|ts| - 1];
      AcceptedIff(init, width, height);
      SplitLast(ts);
      assert forall t :: t in ts <==> t in init || t == last;
    }
  }

  lemma SplitLast(ts: seq<Territory>)
    requires |ts| > 0
    ensures ts == ts[..|ts| - 1] + [ts[|ts| - 1]]
    ensures Distinct(ts) <==>
      Distinct(ts[..|ts| - 1]) && !exists t :: t in ts[..|ts| - 1] && t.id == ts[|ts| - 1].id
  {
    var init, last := ts[..|ts| - 1], ts[|ts| - 1];
    if t :| t in init && t.id == last.id {
      var j :| 0 <= j < |init| && init[j] == t;
      assert ts[j].id == ts[|ts| - 1].id;
    }
    assert forall j :: 0 <= j < |init| ==> ts[j] in init;
  }

  lemma LayersAscend(ts: seq<Territory>, width: int, height: int)
    requires Seqs.SortedBy(ts, TerritoryId) && FirstError(ts, width, height).None?
    ensures |LayersOf(ts)| == |ts| && forall k :: 0 <= k < |ts| ==> LayersOf(ts)[k] == LayerOf(ts[k])
    ensures Ascending(LayersOf(ts))
    ensures forall l :: l in LayersOf(ts) ==> l.Fits(width, height)
  {
    AcceptedIff(ts, width, height);
    Seqs.InMap(ts, LayerOf);
    assert forall j, k :: 0 <= j < k < |ts| ==> TerritoryId(ts[j]) <= TerritoryId(ts[k]);
  }

  /** The owner of a tile, among the territories themselves. */
  lemma OwnerHere(ts: seq<Territory>, width: int, height: int, u: Tile)
    requires Seqs.SortedBy(ts, TerritoryId) && FirstError(ts, width, height).None?
    ensures Owner(LayersOf(ts), u) == 0 ==> forall t :: t in ts ==> !t.Contains(u.x, u.y)
    ensures Owner(LayersOf(ts), u) != 0 ==> exists t ::
        t in ts && t.id == Owner(LayersOf(ts), u) && t.Contains(u.x, u.y)
    ensures Owner(LayersOf(ts), u) != 0 ==> forall t :: t in ts && t.Contains(u.x, u.y) ==>
        Owner(LayersOf(ts), u) <= t.id
  {
    hide Owner, FirstError, Ascending, LayersOf;
    var layers := LayersOf(ts);
    LayersAscend(ts, width, height);
    OwnerIsLeast(layers, u);
    forall t | t in ts ensures LayerOf(t) in layers && (LayerOf(t).Covers(u) <==> t.Contains(u.x, u.y)) {
      var k :| 0 <= k < |ts| && ts[k] == t;
      assert layers[k] == LayerOf(t);
    }
    if Owner(layers, u) != 0 {
      var l :| l in layers && l.id == Owner(layers, u) && l.Covers(u);
      var k :| 0 <= k < |layers| && layers[k] == l;
      assert ts[k] in ts && LayerOf(ts[k]) == l;
    }
  }

  // ---------------------------------------------------------------------
  // Chunks
  // ---------------------------------------------------------------------

  /** Integer division as the source has it, cut off towards zero. */
  function Quot(v: int, size: int): int
    requires size > 0
  {
    if v >= 0 then v / size else -(-v / size)
  }

  function ChunkOf(t: Tile, chunkSize: int): Chunk
    requires chunkSize > 0
  {
    Tile(Quot(t.x, chunkSize), Quot(t.y, chunkSize))
  }

  /** The chunk that a tile of the world is in. */
  lemma ChunkMeans(u: Tile, chunkSize: int, c: Chunk)
    requires 0 <= u.x && 0 <= u.y && chunkSize > 0
    ensures ChunkOf(u, chunkSize) == c <==>
      c.x * chunkSize <= u.x < c.x * chunkSize + chunkSize && c.y * chunkSize <= u.y < c.y * chunkSize + chunkSize
  {
    QuotientMeans(u.x, chunkSize, c.x);
    QuotientMeans(u.y, chunkSize, c.y);
  }

  lemma QuotientMeans(v: int, size: int, q: int)
    requires 0 <= v && size > 0
    ensures Quot(v, size) == q <==> q * size <= v < q * size + size
  {
    if q * size <= v < q * size + size {
      Grids.DivModUnique(v, size, q, v - q * size);
    }
  }

  function Footprint(t: Territory, chunkSize: int): seq<Chunk>
    requires chunkSize > 0
  {
    Sweep(Quot(t.minX, chunkSize), Quot(t.minY, chunkSize), Quot(t.maxX, chunkSize), Quot(t.maxY, chunkSize))
  }

  /** How many chunks room is made for; the source stops with an error below zero. */
  function Room(t: Territory, chunkSize: int): int
    requires chunkSize > 0
  {
    (Quot(t.maxX, chunkSize) - Quot(t.minX, chunkSize) + 1) * (Quot(t.maxY, chunkSize) - Quot(t.minY, chunkSize) + 1)
  }

  method ChunkFootprint(t: Territory, chunkSize: int) returns (out: seq<Chunk>)
    requires chunkSize > 0 ==> Room(t, chunkSize) >= 0
    ensures out == if chunkSize <= 0 then [] else Footprint(t, chunkSize)
  {
    out := [];
    if chunkSize <= 0 {
      return;
    }
    hide Quot, Row;
    var minCX, maxCX := Quot(t.minX, chunkSize), Quot(t.maxX, chunkSize);
    var minCY, maxCY := Quot(t.minY, chunkSize), Quot(t.maxY, chunkSize);
    var cy := minCY;
    while cy <= maxCY
      invariant minCY <= cy && (cy <= maxCY + 1 || cy == minCY) && out == Rows(minCX, maxCX, minCY, cy)
      decreases maxCY - cy
    {
      var row := ChunkRow(cy, minCX, maxCX);
      out := out + row;
      cy := cy + 1;
    }
  }

  method ChunkRow(cy: int, minCX: int, maxCX: int) returns (out: seq<Chunk>)
    ensures out == Row(cy, minCX, maxCX + 1)
  {
    out := [];
    var cx := minCX;
    while cx <= maxCX
      invariant minCX <= cx && (cx <= maxCX + 1 || cx == minCX) && out == Row(cy, minCX, cx)
      decreases maxCX - cx
    {
      out := out + [Tile(cx, cy)];
      cx := cx + 1;
    }
  }

  lemma DivMono(a: int, b: int, c: int)
    requires a <= b && c > 0
    ensures a / c <= b / c
  {
    var qa, qb := a / c, b / c;
    if qb < qa {
      Grids.MulMono(qb + 1, qa, c);
    }
  }

  lemma QuotMono(a: int, b: int, c: int)
    requires a <= b && c > 0
    ensures Quot(a, c) <= Quot(b, c)
  {
    QuotSign(a, c);
    QuotSign(b, c);
    if a >= 0 {
      DivMono(a, b, c);
    } else if b < 0 {
      DivMono(-b, -a, c);
    }
  }

  lemma QuotSign(v: int, c: int)
    requires c > 0
    ensures v >= 0 ==> Quot(v, c) >= 0
    ensures v <= 0 ==> Quot(v, c) <= 0
  {
    DivMono(0, if v < 0 then -v else v, c);
    Grids.DivModUnique(0, c, 0, 0);
  }

  /** Where a stretch of cells from zero on reaches a chunk. */
  lemma ReachesUp(lo: nat, hi: int, size: int, c: int) returns (v: int)
    requires lo <= hi && size > 0 && lo / size <= c <= hi / size
    ensures lo <= v <= hi && v / size == c
  {
    v := if c * size < lo then lo else c * size;
    if c * size < lo {
      var q := lo / size;
      if c > q {
        Grids.MulMono(q + 1, c, size);
      }
    } else {
      Grids.DivModUnique(v, size, c, 0);
      Grids.MulMono(c, hi / size, size);
    }
  }

  /** A stretch of cells reaches a stretch of chunks, and every chunk between. */
  lemma ReachesChunk(lo: int, hi: int, size: int, c: int)
    requires lo <= hi && size > 0
    ensures Quot(lo, size) <= c <= Quot(hi, size) <==> exists v :: lo <= v <= hi && Quot(v, size) == c
  {
    if Quot(lo, size) <= c <= Quot(hi, size) {
      QuotSign(lo, size);
      QuotSign(hi, size);
      Grids.DivModUnique(0, size, 0, 0);
      var v := 0;
      if c > 0 || lo > 0 {
        v := ReachesUp(if lo < 0 then 0 else lo, hi, size, c);
        DivMono(0, v, size);
      } else if c < 0 || hi < 0 {
        v := ReachesUp(if hi > 0 then 0 else -hi, -lo, size, -c);
        v := -v;
      }
      assert lo <= v <= hi && Quot(v, size) == c;
    }
    if v :| lo <= v <= hi && Quot(v, size) == c {
      QuotMono(lo, v, size);
      QuotMono(v, hi, size);
    }
  }

  /** The footprint is the chunks in which the territory has a tile. */
  lemma FootprintExact(t: Territory, chunkSize: int, c: Chunk)
    requires t.minX <= t.maxX && t.minY <= t.maxY && chunkSize > 0
    ensures c in Footprint(t, chunkSize) <==> exists u: Tile :: t.Contains(u.x, u.y) && ChunkOf(u, chunkSize) == c
  {
    hide Quot;
    InSweep(Quot(t.minX, chunkSize), Quot(t.minY, chunkSize), Quot(t.maxX, chunkSize), Quot(t.maxY, chunkSize), c);
    ReachesChunk(t.minX, t.maxX, chunkSize, c.x);
    ReachesChunk(t.minY, t.maxY, chunkSize, c.y);
    if c in Footprint(t, chunkSize) {
      var x :| t.minX <= x <= t.maxX && Quot(x, chunkSize) == c.x;
      var y :| t.minY <= y <= t.maxY && Quot(y, chunkSize) == c.y;
      assert t.Contains(Tile(x, y).x, Tile(x, y).y) && ChunkOf(Tile(x, y), chunkSize) == c;
    }
  }

  lemma HasRoom(t: Territory, chunkSize: int)
    requires t.minX <= t.maxX && t.minY <= t.maxY && chunkSize > 0
    ensures Room(t, chunkSize) >= 0
  {
    hide Quot;
    QuotMono(t.minX, t.maxX, chunkSize);
    QuotMono(t.minY, t.maxY, chunkSize);
    var columns := Quot(t.maxX, chunkSize) - Quot(t.minX, chunkSize) + 1;
    var rows := Quot(t.maxY, chunkSize) - Quot(t.minY, chunkSize) + 1;
    Grids.MulMono(0, columns, rows);
  }

  // ---------------------------------------------------------------------
  // The set
  // ---------------------------------------------------------------------

  class Set {
    const width: int
    const height: int
    const chunkSize: int
    const canvas: Canvas
    const ordered: seq<Territory>
    const byID: map<int, Territory>
    const footprints: map<int, seq<Chunk>>

    ghost predicate Valid()
      reads canvas.tiles
    {
      && chunkSize > 0 && canvas.Valid() && canvas.width == width && canvas.height == height
      && Seqs.SortedBy(ordered, TerritoryId) && FirstError(ordered, width, height).None?
      && canvas.Shows(OwnerOf(LayersOf(ordered)))
      && (forall t :: t in ordered ==> t.id in byID && byID[t.id] == t)
      && (forall t :: t in ordered ==> t.id in footprints && footprints[t.id] == Footprint(t, chunkSize))
    }

    constructor (w: int, h: int, size: int, c: Canvas, ts: seq<Territory>,
                 ids: map<int, Territory>, prints: map<int, seq<Chunk>>)
      ensures width == w && height == h && chunkSize == size && canvas == c
      ensures ordered == ts && byID == ids && footprints == prints
    {
      width, height, chunkSize, canvas, ordered, byID, footprints := w, h, size, c, ts, ids, prints;
    }

    /** The territory of the least id that contains the tile; none outside. */
    method TerritoryAt(x: int, y: int) returns (r: Option<Territory>)
      requires Valid()
      ensures r.Some? ==> r.value in ordered && r.value.Contains(x, y) && 0 <= x < width && 0 <= y < height
      ensures r.Some? ==> forall t :: t in ordered && t.Contains(x, y) ==> r.value.id <= t.id
      ensures r.None? && 0 <= x < width && 0 <= y < height ==> forall t :: t in ordered ==> !t.Contains(x, y)
    {
      if x < 0 || y < 0 || x >= width || y >= height {
        return None;
      }
      hide FirstError, LayersOf, Seqs.SortedBy, Owner;
      var u := Tile(x, y);
      OwnerHere(ordered, width, height, u);
      canvas.InTable(u);
      var id := canvas.tiles[y * width + x];
      assert id == canvas.At(u) == OwnerOf(LayersOf(ordered))(u);
      r := if id != 0 && id in byID then Some(byID[id]) else None;
    }

    /** The territories with a tile in one of the chunks, in order of id. */
    method InChunks(chunks: seq<Chunk>) returns (out: seq<Territory>)
      requires Valid()
      ensures out == Seqs.Filter(ordered, Touches(chunks, chunkSize))
    {
      hide Set.Valid, Seqs.Filter, Footprint, Touches;
      out := [];
      Sized();
      Seqs.FilterNone([], Touches(chunks, chunkSize));
      if |chunks| == 0 {
        NoChunks(chunkSize);
        Seqs.FilterNone(ordered, Touches(chunks, chunkSize));
        return;
      }
      var wanted := set c | c in chunks;
      for k := 0 to |ordered|
        invariant out == Seqs.Filter(ordered[..k], Touches(chunks, chunkSize))
      {
        Seqs.FilterStep(ordered, k, Touches(chunks, chunkSize));
        var t := ordered[k];
        MarkOf(t);
        var mark := footprints[t.id];
        var n := 0;
        while n < |mark| && mark[n] !in wanted
          invariant 0 <= n <= |mark| && forall m :: 0 <= m < n ==> mark[m] !in wanted
        {
          n := n + 1;
        }
        Meets(t, chunks, chunkSize, mark);
        if n < |mark| {
          out := out + [t];
        }
      }
      assert ordered[..|ordered|] == ordered;
    }

    lemma Sized()
      requires Valid()
      ensures chunkSize > 0
    {
    }

    lemma MarkOf(t: Territory)
      requires Valid() && t in ordered
      ensures chunkSize > 0 && t.minX <= t.maxX && t.minY <= t.maxY
      ensures t.id in footprints && footprints[t.id] == Footprint(t, chunkSize)
    {
      AcceptedIff(ordered, width, height);
    }
  }

  lemma NoChunks(chunkSize: int)
    requires chunkSize > 0
    ensures forall t: Territory :: !Touches([], chunkSize)(t)
  {
  }

  /** The territory has a tile in one of the chunks. */
  ghost function Touches(chunks: seq<Chunk>, chunkSize: int): Territory -> bool
    requires chunkSize > 0
  {
    (t: Territory) => exists u: Tile :: t.Contains(u.x, u.y) && ChunkOf(u, chunkSize) in chunks
  }

  lemma Meets(t: Territory, chunks: seq<Chunk>, chunkSize: int, mark: seq<Chunk>)
    requires t.minX <= t.maxX && t.minY <= t.maxY && chunkSize > 0 && mark == Footprint(t, chunkSize)
    ensures Touches(chunks, chunkSize)(t) <==> exists c :: c in mark && c in chunks
  {
    forall c: Chunk ensures c in mark <==> exists u: Tile :: t.Contains(u.x, u.y) && ChunkOf(u, chunkSize) == c {
      FootprintExact(t, chunkSize, c);
    }
  }

  // ---------------------------------------------------------------------
  // Building
  // ---------------------------------------------------------------------

  ghost predicate Listed(ts: seq<Territory>, byID: map<int, Territory>, footprints: map<int, seq<Chunk>>,
      chunkSize: int)
    requires chunkSize > 0
  {
    && (forall t :: t in ts ==> t.id in byID && byID[t.id] == t)
    && (forall id :: id in byID ==> exists t :: t in ts && t.id == id)
    && (forall t :: t in ts ==> t.id in footprints && footprints[t.id] == Footprint(t, chunkSize))
  }

  lemma ListedNext(ts: seq<Territory>, k: nat, byID: map<int, Territory>, footprints: map<int, seq<Chunk>>,
      chunkSize: int)
    requires k < |ts| && chunkSize > 0 && Listed(ts[..k], byID, footprints, chunkSize) && ts[k].id !in byID
    ensures Listed(ts[..k + 1], byID[ts[k].id := ts[k]], footprints[ts[k].id := Footprint(ts[k], chunkSize)], chunkSize)
  {
    assert ts[..k + 1] == ts[..k] + [ts[k]];
  }

  lemma FirstErrorStep(ts: seq<Territory>, k: nat, width: int, height: int, byID: map<int, Territory>)
    requires k < |ts| && FirstError(ts[..k], width, height).None?
    requires forall t :: t in ts[..k] ==> t.id in byID
    requires forall id :: id in byID ==> exists t :: t in ts[..k] && t.id == id
    ensures FirstError(ts[..k + 1], width, height)
         == (if CheckRectangle(ts[k], width, height).Some? then CheckRectangle(ts[k], width, height)
             else if ts[k].id in byID then Some(Duplicate(ts[k].id)) else None)
  {
    assert ts[..k + 1][..k] == ts[..k];
  }

  lemma {:induction false} ErrorComesFirst(ts: seq<Territory>, k: nat, width: int, height: int)
    requires k <= |ts| && FirstError(ts[..k], width, height).Some?
    ensures FirstError(ts, width, height) == FirstError(ts[..k], width, height)
  {
    if k < |ts| {
      assert ts[..|ts| - 1][..k] == ts[..k];
      ErrorComesFirst(ts[..|ts| - 1], k, width, height);
    } else {
      assert ts[..k] == ts;
    }
  }

  /** Indexes a list in order of id, or says what is wrong with it. */
  method Tabulate(ts: seq<Territory>, width: int, height: int, chunkSize: int)
    returns (error: Option<SetError>, byID: map<int, Territory>, footprints: map<int, seq<Chunk>>)
    requires chunkSize > 0
    ensures error == FirstError(ts, width, height)
    ensures error.None? ==> Listed(ts, byID, footprints, chunkSize)
  {
    hide Listed, FirstError, Footprint;
    error, byID, footprints := None, map[], map[];
    Nothing(ts, width, height, chunkSize);
    for k := 0 to |ts|
      invariant error == None && FirstError(ts[..k], width, height) == None
          && Listed(ts[..k], byID, footprints, chunkSize)
    {
      ListedIds(ts[..k], byID, footprints, chunkSize);
      FirstErrorStep(ts, k, width, height, byID);
      error := CheckRectangle(ts[k], width, height);
      if error.Some? {
        ErrorComesFirst(ts, k + 1, width, height);
        return;
      }
      if ts[k].id in byID {
        error := Some(Duplicate(ts[k].id));
        ErrorComesFirst(ts, k + 1, width, height);
        return;
      }
      ListedNext(ts, k, byID, footprints, chunkSize);
      HasRoom(ts[k], chunkSize);
      var chunks := ChunkFootprint(ts[k], chunkSize);
      byID := byID[ts[k].id := ts[k]];
      footprints := footprints[ts[k].id := chunks];
    }
    assert ts[..|ts|] == ts;
  }

  lemma Nothing(ts: seq<Territory>, width: int, height: int, chunkSize: int)
    requires chunkSize > 0
    ensures FirstError(ts[..0], width, height).None? && Listed(ts[..0], map[], map[], chunkSize)
  {
  }

  lemma ListedIds(ts: seq<Territory>, byID: map<int, Territory>, footprints: map<int, seq<Chunk>>, chunkSize: int)
    requires chunkSize > 0 && Listed(ts, byID, footprints, chunkSize)
    ensures forall t :: t in ts ==> t.id in byID
    ensures forall id :: id in byID ==> exists t :: t in ts && t.id == id
  {
  }

  /** Builds the set and its index, and reports the overlaps; a list that cannot
      be represented is refused with its first error. */
  method BuildSet(territories: seq<Territory>, width: int, height: int, chunkSize: int)
    returns (r: Result<Set, SetError>, overlaps: seq<Overlap>)
    ensures width <= 0 || height <= 0 ==> r == Err(BadWorld)
    ensures 0 < width && 0 < height && chunkSize <= 0 ==> r == Err(BadChunkSize)
    ensures 0 < width && 0 < height && 0 < chunkSize ==>
      var sorted := Seqs.SortBy(territories, TerritoryId);
      match FirstError(sorted, width, height)
      case Some(e) => r == Err(e)
      case None =>
        && r.Ok? && fresh(r.value.canvas.tiles) && r.value.Valid()
        && r.value.ordered == sorted && r.value.width == width && r.value.height == height
        && r.value.chunkSize == chunkSize && Reports(overlaps, LayersOf(sorted))
  {
    hide FirstError, Seqs.SortBy, Reports, Owner;
    overlaps := [];
    if width <= 0 || height <= 0 {
      return Err(BadWorld), [];
    }
    if chunkSize <= 0 {
      return Err(BadChunkSize), [];
    }
    var sorted := Seqs.SortBy(territories, TerritoryId);
    Seqs.SortIsSorted(territories, TerritoryId);
    var error, byID, footprints := Tabulate(sorted, width, height, chunkSize);
    if error.Some? {
      return Err(error.value), [];
    }
    LayersAscend(sorted, width, height);
    var canvas := new Canvas(width, height);
    PaintTerritories(canvas, sorted);
    NotedIsKeyed(canvas.conflicts, LayersOf(sorted));
    overlaps := SortedOverlaps(canvas.conflicts);
    ListingReports(overlaps, canvas.conflicts, LayersOf(sorted));
    var built := new Set(width, height, chunkSize, canvas, sorted, byID, footprints);
    r := Ok(built);
  }

  method PaintTerritories(canvas: Canvas, ts: seq<Territory>)
    requires canvas.Valid() && canvas.Shows(t => 0) && canvas.conflicts == map[]
    requires Seqs.SortedBy(ts, TerritoryId) && FirstError(ts, canvas.width, canvas.height).None?
    modifies canvas, canvas.tiles
    ensures canvas.Shows(OwnerOf(LayersOf(ts))) && Noted(canvas.conflicts, LayersOf(ts), |LayersOf(ts)|)
  {
    hide FirstError, Owner, Noted, LayersOf;
    LayersAscend(ts, canvas.width, canvas.height);
    ghost var layers := LayersOf(ts);
    Unpainted(canvas, layers);
    for k := 0 to |ts|
      invariant canvas.Shows(OwnerOf(layers[..k])) && Noted(canvas.conflicts, layers[..k], k)
    {
      assert layers[k] == LayerOf(ts[k]) && layers[k] in layers;
      assert layers[..k + 1] == layers[..k] + [LayerOf(ts[k])];
      var _ := canvas.PaintNext(layers[..k], LayerOf(ts[k]));
    }
    assert layers[..|layers|] == layers;
  }

  lemma Unpainted(canvas: Canvas, layers: seq<Layer>)
    requires canvas.Valid() && canvas.Shows(t => 0) && canvas.conflicts == map[]
    ensures canvas.Shows(OwnerOf(layers[..0])) && Noted(canvas.conflicts, layers[..0], 0)
  {
  }

  /** The territory of the least id among those that contain the tile. */
  ghost predicate FirstTo(ts: seq<Territory>, id: int, u: Tile) {
    && (exists t :: t in ts && t.id == id && t.Contains(u.x, u.y))
    && forall t :: t in ts && t.Contains(u.x, u.y) ==> id <= t.id
  }

  /** The tiles of a territory that belong to another. */
  ghost function LostBy(ts: seq<Territory>, t: Territory, kept: int): set<Tile> {
    set x, y | t.minX <= x <= t.maxX && t.minY <= y <= t.maxY
            && kept < t.id && FirstTo(ts, kept, Tile(x, y)) :: Tile(x, y)
  }

  /** The overlaps reported are, for every territory and each one that it loses tiles
      to, how many they are and which is the first. */
  lemma OverlapsMean(ts: seq<Territory>, width: int, height: int, overlaps: seq<Overlap>, o: Overlap)
    requires Seqs.SortedBy(ts, TerritoryId) && FirstError(ts, width, height).None? && Reports(overlaps, LayersOf(ts))
    ensures o in overlaps <==> exists t :: t in ts && t.id == o.discarded && SumsUp(o, LostBy(ts, t, o.kept))
  {
    hide FirstError, Reports, SumsUp, LayersOf, FirstOf, FirstTo;
    var layers := LayersOf(ts);
    LayersAscend(ts, width, height);
    ReportMeans(overlaps, layers, o);
    forall k | 0 <= k < |ts|
      ensures layers[k] in layers && LostTiles(layers, layers[k], o.kept) == LostBy(ts, ts[k], o.kept)
    {
      forall u: Tile ensures FirstOf(layers, o.kept, u) <==> FirstTo(ts, o.kept, u) {
        FirstIsFirst(ts, layers, o.kept, u);
      }
    }
    assert forall t :: t in ts ==> exists k :: 0 <= k < |ts| && ts[k] == t;
  }

  lemma FirstIsFirst(ts: seq<Territory>, layers: seq<Layer>, id: int, u: Tile)
    requires |layers| == |ts| && forall k :: 0 <= k < |ts| ==> layers[k] == LayerOf(ts[k])
    ensures FirstOf(layers, id, u) <==> FirstTo(ts, id, u)
  {
    forall k | 0 <= k < |ts| ensures layers[k] in layers && (layers[k].Covers(u) <==> ts[k].Contains(u.x, u.y)) {
    }
    assert forall l :: l in layers ==> exists k :: 0 <= k < |ts| && layers[k] == l && ts[k] in ts;
    assert forall t :: t in ts ==> exists k :: 0 <= k < |ts| && ts[k] == t;
  }

  // ---------------------------------------------------------------------
  // Areas
  // ---------------------------------------------------------------------

  function Area(t: Territory): int {
    (t.maxX - t.minX + 1) * (t.maxY - t.minY + 1)
  }

  lemma {:induction false} CountAll<A>(s: seq<A>, p: A -> bool)
    requires forall x :: x in s ==> p(x)
    ensures Seqs.Count(s, p) == |s|
  {
    if |s| > 0 {
      CountAll(s[..|s| - 1], p);
    }
  }

  /** The tiles a territory owns, plus those the report says it lost, are its area. */
  lemma TilesAddUp(ts: seq<Territory>, width: int, height: int, overlaps: seq<Overlap>, k: nat)
    requires k < |ts| && Seqs.SortedBy(ts, TerritoryId) && FirstError(ts, width, height).None?
    requires Reports(overlaps, LayersOf(ts))
    ensures Seqs.Count(Cells(LayerOf(ts[k])), OwnedBy(LayersOf(ts), ts[k].id)) + TilesLost(overlaps, ts[k].id)
        == Area(ts[k])
  {
    hide FirstError, Reports, Owner, Cells;
    LayersAscend(ts, width, height);
    var layer := LayerOf(ts[k]);
    assert LayersOf(ts)[k] == layer && layer in LayersOf(ts);
    OwnedPlusLost(overlaps, LayersOf(ts), k);
    CellsOf(layer);
    CountAll(Cells(layer), CoveredBy(layer));
  }

  lemma CellsOf(l: Layer)
    requires l.minX <= l.maxX && l.minY <= l.maxY
    ensures forall t :: t in Cells(l) <==> l.InBox(t)
    ensures |Cells(l)| == (l.maxX - l.minX + 1) * (l.maxY - l.minY + 1)
  {
    forall t ensures t in Cells(l) <==> l.InBox(t) {
      InSweep(l.minX, l.minY, l.maxX, l.maxY, t);
    }
    RowsLength(l.minX, l.maxX, l.minY, l.maxY + 1);
  }

  // ---------------------------------------------------------------------
  // Seeding
  // ---------------------------------------------------------------------

  function Digits(n: nat): string {
    if n < 10 then ["0123456789"[n]] else Digits(n / 10) + ["0123456789"[n % 10]]
  }

  function SeedAt(width: int, height: int, size: int, fx: nat, fy: nat): Territory {
    Territory(0, "Región " + Digits(fx) + "-" + Digits(fy), fx * size, fy * size,
              Min(fx * size + size - 1, width - 1), Min(fy * size + size - 1, height - 1))
  }

  function Min(a: int, b: int): int {
    if a < b then a else b
  }

  /** How many strips of `size` cover a side. */
  function Strips(side: int, size: int): int
    requires size > 0
  {
    (side + size - 1) / size
  }

  datatype SeedError = BadSide | BadSize | TooMany(total: int)

  /** The first `n` territories of the grid, row by row. */
  ghost predicate Seeded(ts: seq<Territory>, width: int, height: int, size: int, n: nat)
    requires 0 < width && 0 < size
  {
    |ts| == n && 0 < Strips(width, size)
    && forall k: nat :: k < n ==> ts[k] == SeedAt(width, height, size, k % Strips(width, size), k / Strips(width, size))
  }

  method SeedGrid(width: int, height: int, size: int) returns (r: Result<seq<Territory>, SeedError>)
    ensures width <= 0 || height <= 0 ==> r == Err(BadSide)
    ensures 0 < width && 0 < height && size <= 0 ==> r == Err(BadSize)
    ensures 0 < width && 0 < height && 0 < size ==>
      var total := Strips(width, size) * Strips(height, size);
      if total > MAX_TERRITORIES then r == Err(TooMany(total))
      else r.Ok? && 0 <= total && Seeded(r.value, width, height, size, total)
  {
    if width <= 0 || height <= 0 {
      return Err(BadSide);
    }
    if size <= 0 {
      return Err(BadSize);
    }
    hide Strips, SeedAt, Seeded;
    var columns, rows := Strips(width, size), Strips(height, size);
    StripOf(width, size, 0);
    StripOf(height, size, 0);
    Grids.MulMono(0, rows, columns);
    var total := columns * rows;
    if total > MAX_TERRITORIES {
      return Err(TooMany(total));
    }
    var out: seq<Territory> := [];
    ghost var n: nat := 0;
    SeededNone(width, height, size);
    for fy := 0 to rows
      invariant n == fy * columns && Seeded(out, width, height, size, n)
    {
      for fx := 0 to columns
        invariant n == fy * columns + fx && Seeded(out, width, height, size, n)
      {
        SeededMore(out, width, height, size, n, fx, fy);
        out := out + [SeedAt(width, height, size, fx, fy)];
        n := n + 1;
      }
      NextRow(fy, columns);
    }
    r := Ok(out);
  }

  lemma SeededNone(width: int, height: int, size: int)
    requires 0 < width && 0 < size
    ensures Seeded([], width, height, size, 0)
  {
    StripOf(width, size, 0);
  }

  lemma SeededMore(out: seq<Territory>, width: int, height: int, size: int, n: nat, fx: nat, fy: nat)
    requires 0 < width && 0 < size && Seeded(out, width, height, size, n)
    requires fx < Strips(width, size) && n == fy * Strips(width, size) + fx
    ensures Seeded(out + [SeedAt(width, height, size, fx, fy)], width, height, size, n + 1)
  {
    hide Strips, SeedAt;
    Grids.DivModUnique(n, Strips(width, size), fy, fx);
  }

  lemma NextRow(fy: int, columns: int)
    ensures (fy + 1) * columns == fy * columns + columns
  {
  }

  /** A cell of the side lies in exactly one strip, and in range. */
  lemma StripOf(side: int, size: int, v: int)
    requires size > 0 && 0 <= v < side
    ensures 0 <= v / size < Strips(side, size)
  {
    var q, m := (side - 1) / size, (side - 1) % size;
    assert side + size - 1 == (q + 1) * size + m;
    Grids.DivModUnique(side + size - 1, size, q + 1, m);
    DivMono(v, side - 1, size);
    DivMono(0, v, size);
  }

  lemma InStrip(side: int, size: int, v: int, f: nat)
    requires size > 0 && 0 <= v < side
    ensures f * size <= v <= Min(f * size + size - 1, side - 1) <==> v / size == f
  {
    if f * size <= v <= f * size + size - 1 {
      Grids.DivModUnique(v, size, f, v - f * size);
    }
    assert v == v / size * size + v % size;
  }

  /** What a text of digits says. */
  function Number(digits: string): int {
    if |digits| == 0 then 0 else 10 * Number(digits[..|digits| - 1]) + (digits[|digits| - 1] as int - '0' as int)
  }

  lemma {:induction false} DigitsSay(n: nat)
    ensures Number(Digits(n)) == n
    ensures |Digits(n)| > 0 && (|Digits(n)| > 1 ==> Digits(n)[0] != '0') && (n > 0 ==> Digits(n)[0] != '0')
    ensures forall d :: d in Digits(n) ==> '0' <= d <= '9'
  {
    if n >= 10 {
      DigitsSay(n / 10);
      assert Digits(n)[..|Digits(n)| - 1] == Digits(n / 10);
    } else {
      assert Digits(n)[..0] == [];
    }
  }

  /** The strips are just enough for the side. */
  lemma StripsAreEnough(side: int, size: int)
    requires 0 < side && 0 < size
    ensures (Strips(side, size) - 1) * size < side <= Strips(side, size) * size
  {
    var all, n := side + size - 1, Strips(side, size);
    assert n * size <= all < n * size + size;
    assert (n - 1) * size == n * size - size;
  }

  /** Which territory is the k-th of the grid: they start at whole multiples of the
      size, are as long and as high as it but for what the edge of the world cuts off,
      come row by row from the top and from left to right, and carry the names of
      their column and row. */
  lemma SeedMeans(ts: seq<Territory>, width: int, height: int, size: int, n: nat, k: nat)
    requires IsGridSize(width, height, size, n) && Seeded(ts, width, height, size, n) && k < n
    ensures var t := ts[k];
      && (exists fx: nat, fy: nat :: fx * size == t.minX && fy * size == t.minY
           && t.name == "Región " + Digits(fx) + "-" + Digits(fy))
      && t.id == 0
      && (t.maxX == t.minX + size - 1 || (t.maxX == width - 1 && t.maxX < t.minX + size - 1))
      && (t.maxY == t.minY + size - 1 || (t.maxY == height - 1 && t.maxY < t.minY + size - 1))
    ensures forall j :: 0 <= j < k ==>
      ts[j].minY < ts[k].minY || (ts[j].minY == ts[k].minY && ts[j].minX < ts[k].minX)
  {
    hide Strips, Digits, SeedAt;
    var columns := Strips(width, size);
    var fx, fy := k % columns, k / columns;
    AtStart(width, height, size, fx, fy);
    forall j | 0 <= j < k ensures ts[j].minY < ts[k].minY || (ts[j].minY == ts[k].minY && ts[j].minX < ts[k].minX) {
      AtStart(width, height, size, j % columns, j / columns);
      Rises(j, k, columns, size);
    }
  }

  lemma AtStart(width: int, height: int, size: int, fx: nat, fy: nat)
    ensures var t := SeedAt(width, height, size, fx, fy);
      && t.minX == fx * size && t.minY == fy * size && t.id == 0
      && t.name == "Región " + Digits(fx) + "-" + Digits(fy)
      && (t.maxX == t.minX + size - 1 || (t.maxX == width - 1 && t.maxX < t.minX + size - 1))
      && (t.maxY == t.minY + size - 1 || (t.maxY == height - 1 && t.maxY < t.minY + size - 1))
  {
  }

  /** Row by row, and from left to right. */
  lemma Rises(j: nat, k: nat, columns: int, size: int)
    requires j < k && columns > 0 && size > 0
    ensures j / columns * size < k / columns * size
         || (j / columns * size == k / columns * size && j % columns * size < k % columns * size)
  {
    DivMono(j, k, columns);
    if j / columns < k / columns {
      Scaled(j / columns, k / columns, size);
    } else {
      Scaled(j % columns, k % columns, size);
    }
  }

  lemma Scaled(a: int, b: int, c: int)
    requires a < b && c > 0
    ensures a * c < b * c
  {
    Grids.MulMono(a + 1, b, c);
    assert (a + 1) * c == a * c + c;
  }

  /** The database gives out ids in order of insertion. */
  function Inserted(ts: seq<Territory>): seq<Territory> {
    if |ts| == 0 then [] else Inserted(ts[..|ts| - 1]) + [ts[|ts| - 1].(id := |ts|)]
  }

  lemma {:induction false} InsertedAt(ts: seq<Territory>)
    ensures |Inserted(ts)| == |ts|
    ensures forall k :: 0 <= k < |ts| ==> Inserted(ts)[k] == ts[k].(id := k + 1)
  {
    if |ts| > 0 {
      InsertedAt(ts[..|ts| - 1]);
    }
  }

  /** A tile is in one territory of the grid: that of its column and row. */
  lemma SeedContains(width: int, height: int, size: int, u: Tile, k: nat)
    requires 0 < width && 0 < height && 0 < size && 0 <= u.x < width && 0 <= u.y < height
    requires 0 < Strips(width, size)
    ensures SeedAt(width, height, size, k % Strips(width, size), k / Strips(width, size)).Contains(u.x, u.y)
       <==> k == (u.y / size) * Strips(width, size) + u.x / size
  {
    hide Strips, Min;
    var columns := Strips(width, size);
    InStrip(width, size, u.x, k % columns);
    InStrip(height, size, u.y, k / columns);
    StripOf(width, size, u.x);
    RowAndColumn(k, columns, u.y / size, u.x / size);
  }

  lemma RowAndColumn(k: int, columns: int, q: int, r: int)
    requires 0 <= r < columns
    ensures k / columns == q && k % columns == r <==> k == q * columns + r
  {
    if k == q * columns + r {
      Grids.DivModUnique(k, columns, q, r);
    }
  }

  /** The grid covers the world: every tile is in exactly one territory, and that
      one is accepted, so that building the index finds nothing to report. */
  lemma SeedPartitions(ts: seq<Territory>, width: int, height: int, size: int, u: Tile)
    requires 0 < width && 0 < height && 0 < size && 0 <= u.x < width && 0 <= u.y < height
    requires Seeded(ts, width, height, size, Strips(width, size) * Strips(height, size))
    ensures exists k :: 0 <= k < |ts| && ts[k].Contains(u.x, u.y)
    ensures forall j, k :: 0 <= j < |ts| && 0 <= k < |ts| && ts[j].Contains(u.x, u.y) && ts[k].Contains(u.x, u.y) ==>
        j == k
  {
    var columns, rows := Strips(width, size), Strips(height, size);
    var home := (u.y / size) * columns + u.x / size;
    StripOf(width, size, u.x);
    StripOf(height, size, u.y);
    Grids.MulMono(u.y / size + 1, rows, columns);
    Grids.MulMono(0, u.y / size, columns);
    assert 0 <= home < columns * rows;
    forall k: nat | k < |ts| ensures ts[k].Contains(u.x, u.y) <==> k == home {
      SeedContains(width, height, size, u, k);
    }
    assert ts[home].Contains(u.x, u.y);
  }

  /** The grid's rectangles are inside the world. */
  lemma SeedFits(width: int, height: int, size: int, k: nat)
    requires 0 < width && 0 < height && 0 < size
    requires 0 < Strips(width, size) && k < Strips(width, size) * Strips(height, size)
    ensures var t := SeedAt(width, height, size, k % Strips(width, size), k / Strips(width, size));
      0 <= t.minX <= t.maxX < width && 0 <= t.minY <= t.maxY < height
  {
    hide Strips, Min;
    var columns, rows := Strips(width, size), Strips(height, size);
    RowOf(k, columns, rows);
    StripStarts(width, size, k % columns);
    StripStarts(height, size, k / columns);
  }

  lemma RowOf(k: nat, columns: int, rows: int)
    requires 0 < columns && k < columns * rows
    ensures 0 <= k % columns < columns && 0 <= k / columns < rows
  {
    if k / columns >= rows {
      Grids.MulMono(rows, k / columns, columns);
    }
  }

  lemma StripStarts(side: int, size: int, f: nat)
    requires 0 < side && 0 < size && f < Strips(side, size)
    ensures 0 <= f * size <= Min(f * size + size - 1, side - 1) < side
  {
    var q, m := (side - 1) / size, (side - 1) % size;
    assert side + size - 1 == (q + 1) * size + m;
    Grids.DivModUnique(side + size - 1, size, q + 1, m);
    Grids.MulMono(f, q, size);
  }

  /** `n` is how many territories the grid has. */
  predicate IsGridSize(width: int, height: int, size: int, n: nat) {
    0 < width && 0 < height && 0 < size && n <= MAX_TERRITORIES && n == Strips(width, size) * Strips(height, size)
  }

  lemma SeedRectangle(ts: seq<Territory>, width: int, height: int, size: int, n: nat, k: nat)
    requires IsGridSize(width, height, size, n) && Seeded(ts, width, height, size, n) && k < n
    ensures CheckRectangle(ts[k].(id := k + 1), width, height).None?
  {
    hide SeedAt;
    SeedFits(width, height, size, k);
  }

  /** With the ids of their insertion, the seeded territories are accepted. */
  lemma SeedAccepted(ts: seq<Territory>, width: int, height: int, size: int, n: nat)
    requires IsGridSize(width, height, size, n) && Seeded(ts, width, height, size, n)
    ensures Seqs.SortedBy(Inserted(ts), TerritoryId) && FirstError(Inserted(ts), width, height).None?
  {
    hide IsGridSize, CheckRectangle, Seeded, SeedAt, Strips;
    var all := Inserted(ts);
    InsertedAt(ts);
    SeedLength(ts, width, height, size, n);
    forall t | t in all ensures CheckRectangle(t, width, height).None? {
      var k :| 0 <= k < |all| && all[k] == t;
      SeedRectangle(ts, width, height, size, n, k);
    }
    AcceptedIff(all, width, height);
  }

  lemma SeedLength(ts: seq<Territory>, width: int, height: int, size: int, n: nat)
    requires IsGridSize(width, height, size, n) && Seeded(ts, width, height, size, n)
    ensures |ts| == n
  {
  }

  /** No report on the seeded territories can list an overlap. */
  lemma SeedNeverOverlaps(ts: seq<Territory>, width: int, height: int, size: int, n: nat, overlaps: seq<Overlap>)
    requires IsGridSize(width, height, size, n) && Seeded(ts, width, height, size, n)
    requires Reports(overlaps, LayersOf(Inserted(ts)))
    ensures overlaps == []
  {
    hide IsGridSize, Seeded, FirstError, LayersOf, OverlapOf;
    var all := Inserted(ts);
    SeedAccepted(ts, width, height, size, n);
    LayersAscend(all, width, height);
    forall j: nat, k: int | j < |all| ensures OverlapOf(LayersOf(all), j, k).None? {
      SeedOverlapsNone(ts, width, height, size, n, j, k);
    }
    NothingToReport(overlaps, LayersOf(all));
  }

  lemma SeedOverlapsNone(ts: seq<Territory>, width: int, height: int, size: int, n: nat, j: nat, k: int)
    requires IsGridSize(width, height, size, n) && Seeded(ts, width, height, size, n)
    requires |LayersOf(Inserted(ts))| == |Inserted(ts)| && j < |Inserted(ts)|
    ensures OverlapOf(LayersOf(Inserted(ts)), j, k).None?
  {
    hide IsGridSize, Seeded, FirstError, LayersOf, Owner;
    var layers := LayersOf(Inserted(ts));
    forall t | t in Cells(layers[j]) ensures !LostTo(layers[..j], layers[j], k)(t) {
      if layers[j].Covers(t) {
        Unclaimed(ts, width, height, size, n, j, t);
      }
    }
    Seqs.FilterNone(Cells(layers[j]), LostTo(layers[..j], layers[j], k));
  }

  /** No earlier territory of the grid has a tile of this one. */
  lemma Unclaimed(ts: seq<Territory>, width: int, height: int, size: int, n: nat, j: nat, t: Tile)
    requires IsGridSize(width, height, size, n) && Seeded(ts, width, height, size, n)
    requires |LayersOf(Inserted(ts))| == |Inserted(ts)| && j < |Inserted(ts)|
    requires LayersOf(Inserted(ts))[j].Covers(t)
    ensures Owner(LayersOf(Inserted(ts))[..j], t) == 0
  {
    hide FirstError, Owner, LayersOf, IsGridSize, Seeded, Inserted, Seqs.SortedBy;
    var all := Inserted(ts);
    var layers := LayersOf(all);
    InsertedAt(ts);
    SeedAccepted(ts, width, height, size, n);
    LayersAscend(all, width, height);
    assert layers[j] in layers && layers[j].Fits(width, height);
    OnlyHome(ts, width, height, size, n, t);
    OwnerIsLeast(layers[..j], t);
    forall l | l in layers[..j] ensures !l.Covers(t) {
      var i :| 0 <= i < j && layers[i] == l;
      assert layers[i] == LayerOf(all[i]) && layers[j] == LayerOf(all[j]);
      assert ts[j].Contains(t.x, t.y);
      assert ts[i].Contains(t.x, t.y) ==> i == j;
    }
  }

  lemma OnlyHome(ts: seq<Territory>, width: int, height: int, size: int, n: nat, t: Tile)
    requires IsGridSize(width, height, size, n) && Seeded(ts, width, height, size, n)
    requires 0 <= t.x < width && 0 <= t.y < height
    ensures forall i, j :: 0 <= i < |ts| && 0 <= j < |ts| && ts[i].Contains(t.x, t.y) && ts[j].Contains(t.x, t.y) ==>
        i == j
  {
    SeedPartitions(ts, width, height, size, t);
  }
}
