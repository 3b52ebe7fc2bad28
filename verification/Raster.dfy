// Painting rectangles on a dense table of tiles, in order of id and without
// overwriting, and what the ones that come late lose.

module Raster {
  import opened Wrappers
  import opened World
  import Seqs
  import Grids = GridGraph

  /** How a tile of the box stands to what is painted: not part of it, part but
      built up, or part of it. */
  datatype Side = Outside | Built | Inside

  /** A rectangle with inclusive limits and the part of it that is painted. */
  datatype Layer = Layer(id: int, minX: int, minY: int, maxX: int, maxY: int, side: Tile -> Side) {
    predicate InBox(t: Tile) {
      minX <= t.x <= maxX && minY <= t.y <= maxY
    }

    predicate Covers(t: Tile) {
      InBox(t) && side(t) == Inside
    }

    predicate Fits(width: int, height: int) {
      0 <= minX <= maxX < width && 0 <= minY <= maxY < height
    }
  }

  /** Strictly ascending ids, all positive. */
  predicate Ascending(layers: seq<Layer>) {
    (forall j :: 0 <= j < |layers| ==> layers[j].id > 0)
    && (forall j, k :: 0 <= j < k < |layers| ==> layers[j].id < layers[k].id)
  }

  /** The first layer to claim a tile keeps it. */
  function Owner(layers: seq<Layer>, t: Tile): int {
    if |layers| == 0 then 0 else
    var before := Owner(layers[..|layers| - 1], t);
    if before != 0 then before
    else if layers[|layers| - 1].Covers(t) then layers[|layers| - 1].id
    else 0
  }

  /** Which is the least id of all that claim it, if any does. */
  lemma {:induction false} OwnerIsLeast(layers: seq<Layer>, t: Tile)
    requires Ascending(layers)
    ensures Owner(layers, t) == 0 <==> forall l :: l in layers ==> !l.Covers(t)
    ensures Owner(layers, t) != 0 ==> exists l :: l in layers && l.id == Owner(layers, t) && l.Covers(t)
    ensures Owner(layers, t) != 0 ==> forall l :: l in layers && l.Covers(t) ==> Owner(layers, t) <= l.id
  {
    if |layers| > 0 {
      var init, last := layers[..|layers| - 1], layers[|layers| - 1];
      OwnerIsLeast(init, t);
      assert layers == init + [last];
    }
  }

  // ---------------------------------------------------------------------
  // Sweeping a rectangle
  // ---------------------------------------------------------------------

  function Row(y: int, minX: int, x: int): seq<Tile>
    decreases x - minX
  {
    if x <= minX then [] else Row(y, minX, x - 1) + [Tile(x - 1, y)]
  }

  /** Row by row, from the top down to `y`, each from left to right. */
  function Rows(minX: int, maxX: int, minY: int, y: int): seq<Tile>
    decreases y - minY
  {
    if y <= minY then [] else Rows(minX, maxX, minY, y - 1) + Row(y - 1, minX, maxX + 1)
  }

  function Sweep(minX: int, minY: int, maxX: int, maxY: int): seq<Tile> {
    Rows(minX, maxX, minY, maxY + 1)
  }

  function Cells(l: Layer): seq<Tile> {
    Sweep(l.minX, l.minY, l.maxX, l.maxY)
  }

  lemma {:induction false} InRow(y: int, minX: int, x: int, t: Tile)
    ensures t in Row(y, minX, x) <==> t.y == y && minX <= t.x < x
    decreases x - minX
  {
    if x > minX {
      InRow(y, minX, x - 1, t);
    }
  }

  lemma {:induction false} InRows(minX: int, maxX: int, minY: int, y: int, t: Tile)
    ensures t in Rows(minX, maxX, minY, y) <==> minX <= t.x <= maxX && minY <= t.y < y
    decreases y - minY
  {
    if y > minY {
      InRows(minX, maxX, minY, y - 1, t);
      InRow(y - 1, minX, maxX + 1, t);
    }
  }

  lemma InSweep(minX: int, minY: int, maxX: int, maxY: int, t: Tile)
    ensures t in Sweep(minX, minY, maxX, maxY) <==> minX <= t.x <= maxX && minY <= t.y <= maxY
  {
    InRows(minX, maxX, minY, maxY + 1, t);
  }

  lemma {:induction false} RowLength(y: int, minX: int, x: int)
    requires minX <= x
    ensures |Row(y, minX, x)| == x - minX
    decreases x - minX
  {
    if x > minX {
      RowLength(y, minX, x - 1);
    }
  }

  lemma {:induction false} RowsLength(minX: int, maxX: int, minY: int, y: int)
    requires minX <= maxX && minY <= y
    ensures |Rows(minX, maxX, minY, y)| == (maxX - minX + 1) * (y - minY)
    decreases y - minY
  {
    if y > minY {
      RowsLength(minX, maxX, minY, y - 1);
      RowLength(y - 1, minX, maxX + 1);
    }
  }

  // ---------------------------------------------------------------------
  // What is lost
  // ---------------------------------------------------------------------

  datatype Overlap = Overlap(kept: int, discarded: int, x: int, y: int, tiles: int)

  /** The tiles that `layer`, painted after `layers`, finds in the hands of `k`. */
  function LostTo(layers: seq<Layer>, layer: Layer, k: int): Tile -> bool {
    (t: Tile) => k != 0 && layer.Covers(t) && Owner(layers, t) == k
  }

  /** The first of a list of tiles, and how many they are. */
  function Tally(cells: seq<Tile>, kept: int, discarded: int): Option<Overlap> {
    if cells == [] then None else Some(Overlap(kept, discarded, cells[0].x, cells[0].y, |cells|))
  }

  /** The overlap of a layer with an earlier one. */
  function OverlapOf(layers: seq<Layer>, j: nat, k: int): Option<Overlap>
    requires j < |layers|
  {
    Tally(Seqs.Filter(Cells(layers[j]), LostTo(layers[..j], layers[j], k)), k, layers[j].id)
  }

  function Entry(conflicts: map<(int, int), Overlap>, k: int, d: int): Option<Overlap> {
    if (k, d) in conflicts then Some(conflicts[(k, d)]) else None
  }

  /** The conflicts noted are those among the first `n` layers. */
  ghost predicate Noted(conflicts: map<(int, int), Overlap>, layers: seq<Layer>, n: nat)
    requires n <= |layers|
  {
    && (forall j, k {:trigger OverlapOf(layers, j, k)} :: 0 <= j < n ==>
         Entry(conflicts, k, layers[j].id) == OverlapOf(layers, j, k))
    && (forall key :: key in conflicts ==> exists j :: 0 <= j < n && layers[j].id == key.1)
  }

  /** A part of the sweep has been noted for one layer. */
  ghost predicate NotedPart(conflicts: map<(int, int), Overlap>, layers: seq<Layer>, layer: Layer, swept: seq<Tile>) {
    forall k {:trigger LostTo(layers, layer, k)} ::
      Entry(conflicts, k, layer.id) == Tally(Seqs.Filter(swept, LostTo(layers, layer, k)), k, layer.id)
  }

  // ---------------------------------------------------------------------
  // The table
  // ---------------------------------------------------------------------

  class Canvas {
    const width: int
    const height: int
    const tiles: array<int>
    var conflicts: map<(int, int), Overlap>

    ghost predicate Valid() {
      0 < width && 0 < height && tiles.Length == width * height
    }

    predicate InBounds(t: Tile) {
      0 <= t.x < width && 0 <= t.y < height
    }

    lemma InTable(t: Tile)
      requires Valid() && InBounds(t)
      ensures 0 <= Grids.Idx(width, t) < tiles.Length
    {
      Grids.IdxTile(width, height, t);
    }

    /** The table holds `f`, tile by tile. */
    ghost predicate Shows(f: Tile -> int)
      requires Valid()
      reads tiles
    {
      forall t :: InBounds(t) ==> At(t) == f(t)
    }

    function At(t: Tile): int
      requires Valid() && InBounds(t)
      reads tiles
    {
      InTable(t);
      tiles[Grids.Idx(width, t)]
    }

    constructor (w: int, h: int)
      requires 0 < w && 0 < h
      ensures Valid() && width == w && height == h && fresh(tiles)
      ensures Shows(t => 0) && conflicts == map[]
    {
      width, height := w, h;
      Area(w, h);
      tiles := new int[w * h](i => 0);
      conflicts := map[];
      new;
      forall t | InBounds(t) ensures At(t) == 0 {
        InTable(t);
      }
    }

    /** Writing one tile changes no other. */
    method Put(t: Tile, v: int)
      requires Valid() && InBounds(t)
      modifies tiles
      ensures At(t) == v
      ensures forall u :: InBounds(u) && u != t ==> At(u) == old(At(u))
    {
      InTable(t);
      tiles[Grids.Idx(width, t)] := v;
      forall u | InBounds(u) && u != t ensures At(u) == old(At(u)) {
        InTable(u);
        Grids.IdxTile(width, height, t);
        Grids.IdxTile(width, height, u);
      }
    }

    /** One tile of the sweep: left alone, built up, lost to an earlier layer, or
        taken. `swept` is what came before it. */
    method PaintCell(ghost layers: seq<Layer>, layer: Layer, t: Tile, ghost swept: seq<Tile>, built: Option<Overlap>)
      returns (builtAfter: Option<Overlap>)
      requires Valid() && InBounds(t) && layer.InBox(t) && layer.id > 0
      requires Shows(Halfway(layers, layer, t.y, t.x)) && NotedPart(conflicts, layers, layer, swept)
      requires built == Tally(Seqs.Filter(swept, IsBuilt(layer)), 0, layer.id)
      modifies tiles, this`conflicts
      ensures Shows(Halfway(layers, layer, t.y, t.x + 1)) && NotedPart(conflicts, layers, layer, swept + [t])
      ensures builtAfter == Tally(Seqs.Filter(swept + [t], IsBuilt(layer)), 0, layer.id)
      ensures OnlyLoses(old(conflicts), conflicts, layer.id)
    {
      hide Seqs.Filter, NotedPart, Owner;
      builtAfter := built;
      if layer.side(t) == Built {
        builtAfter := Count(built, 0, layer.id, t);
      }
      TallyMore(swept, t, IsBuilt(layer), 0, layer.id);
      var previous := At(t);
      assert previous == Owner(layers, t);
      NoteMore(conflicts, layers, layer, swept, t);
      if layer.side(t) == Inside {
        if previous != 0 {
          var entry := Count(Entry(conflicts, previous, layer.id), previous, layer.id, t);
          conflicts := conflicts[(previous, layer.id) := entry.value];
        } else {
          Put(t, layer.id);
        }
      }
    }

    /** Sweeps one layer over what the earlier ones left. */
    method Paint(ghost layers: seq<Layer>, layer: Layer) returns (built: Option<Overlap>)
      requires Valid() && layer.Fits(width, height) && layer.id > 0
      requires Shows(OwnerOf(layers)) && forall key :: key in conflicts ==> key.1 != layer.id
      modifies tiles, this`conflicts
      ensures Shows(OwnerOf(layers + [layer])) && NotedPart(conflicts, layers, layer, Cells(layer))
      ensures OnlyLoses(old(conflicts), conflicts, layer.id)
      ensures built == Tally(Seqs.Filter(Cells(layer), IsBuilt(layer)), 0, layer.id)
    {
      hide NotedPart, Seqs.Filter, Owner, IsBuilt;
      built := None;
      NoteNone(conflicts, layers, layer);
      SameShow(OwnerOf(layers), Halfway(layers, layer, layer.minY, layer.minX));
      for y := layer.minY to layer.maxY + 1
        invariant Shows(Halfway(layers, layer, y, layer.minX))
        invariant NotedPart(conflicts, layers, layer, Rows(layer.minX, layer.maxX, layer.minY, y))
        invariant OnlyLoses(old(conflicts), conflicts, layer.id)
        invariant built == Tally(Seqs.Filter(Rows(layer.minX, layer.maxX, layer.minY, y), IsBuilt(layer)), 0, layer.id)
      {
        ghost var above := Rows(layer.minX, layer.maxX, layer.minY, y);
        assert above + Row(y, layer.minX, layer.minX) == above;
        for x := layer.minX to layer.maxX + 1
          invariant Shows(Halfway(layers, layer, y, x))
          invariant NotedPart(conflicts, layers, layer, above + Row(y, layer.minX, x))
          invariant OnlyLoses(old(conflicts), conflicts, layer.id)
          invariant built == Tally(Seqs.Filter(above + Row(y, layer.minX, x), IsBuilt(layer)), 0, layer.id)
        {
          built := PaintCell(layers, layer, Tile(x, y), above + Row(y, layer.minX, x), built);
          assert above + Row(y, layer.minX, x) + [Tile(x, y)] == above + Row(y, layer.minX, x + 1);
        }
        SameShow(Halfway(layers, layer, y, layer.maxX + 1), Halfway(layers, layer, y + 1, layer.minX));
      }
      PaintedAll(layers, layer);
      SameShow(Halfway(layers, layer, layer.maxY + 1, layer.minX), OwnerOf(layers + [layer]));
    }

    /** Paints the next layer in order of id. */
    method PaintNext(ghost layers: seq<Layer>, layer: Layer) returns (built: Option<Overlap>)
      requires Valid() && layer.Fits(width, height) && Ascending(layers + [layer])
      requires Shows(OwnerOf(layers)) && Noted(conflicts, layers, |layers|)
      modifies tiles, this`conflicts
      ensures Shows(OwnerOf(layers + [layer])) && Noted(conflicts, layers + [layer], |layers| + 1)
      ensures built == Tally(Seqs.Filter(Cells(layer), IsBuilt(layer)), 0, layer.id)
    {
      hide Cells, Owner, Seqs.Filter, NotedPart;
      NewLayer(layers, layer, conflicts);
      ghost var before := conflicts;
      built := Paint(layers, layer);
      NotedNext(before, conflicts, layers, layer);
    }

    lemma SameShow(f: Tile -> int, g: Tile -> int)
      requires Valid() && Shows(f) && forall t :: f(t) == g(t)
      ensures Shows(g)
    {
    }
  }

  lemma NewLayer(layers: seq<Layer>, layer: Layer, conflicts: map<(int, int), Overlap>)
    requires Ascending(layers + [layer]) && Noted(conflicts, layers, |layers|)
    ensures layer.id > 0 && forall key :: key in conflicts ==> key.1 != layer.id
  {
    var all := layers + [layer];
    assert all[|layers|] == layer;
    forall key | key in conflicts ensures key.1 != layer.id {
      var j :| 0 <= j < |layers| && layers[j].id == key.1;
      assert all[j].id < all[|layers|].id;
    }
  }

  lemma NotedNext(before: map<(int, int), Overlap>, after: map<(int, int), Overlap>, layers: seq<Layer>, layer: Layer)
    requires Ascending(layers + [layer]) && Noted(before, layers, |layers|)
    requires OnlyLoses(before, after, layer.id) && NotedPart(after, layers, layer, Cells(layer))
    ensures Noted(after, layers + [layer], |layers| + 1)
  {
    hide Cells, Owner, Seqs.Filter, Tally;
    var all := layers + [layer];
    assert all[..|layers|] == layers && all[|layers|] == layer;
    forall j, k | 0 <= j < |all| ensures Entry(after, k, all[j].id) == OverlapOf(all, j, k) {
      if j < |layers| {
        assert all[..j] == layers[..j] && all[j] == layers[j];
        assert all[j].id < all[|layers|].id;
        assert Entry(before, k, layers[j].id) == OverlapOf(layers, j, k);
      } else {
        assert LostTo(all[..j], all[j], k) == LostTo(layers, layer, k);
      }
    }
    forall key | key in after ensures exists j :: 0 <= j < |all| && all[j].id == key.1 {
      if key.1 == layer.id {
        assert all[|layers|].id == key.1;
      } else {
        assert Entry(after, key.0, key.1) == Entry(before, key.0, key.1);
        var j :| 0 <= j < |layers| && layers[j].id == key.1;
        assert all[j].id == key.1;
      }
    }
  }

  function OwnerOf(layers: seq<Layer>): Tile -> int {
    (t: Tile) => Owner(layers, t)
  }

  function IsBuilt(layer: Layer): Tile -> bool {
    (t: Tile) => layer.side(t) == Built
  }

  /** The owner of each tile once the sweep of `layer` has come to (x, y). */
  function Halfway(layers: seq<Layer>, layer: Layer, y: int, x: int): Tile -> int {
    (t: Tile) =>
      if Owner(layers, t) == 0 && layer.Covers(t) && (t.y < y || (t.y == y && t.x < x)) then layer.id
      else Owner(layers, t)
  }

  lemma PaintedAll(layers: seq<Layer>, layer: Layer)
    ensures forall t :: Halfway(layers, layer, layer.maxY + 1, layer.minX)(t) == OwnerOf(layers + [layer])(t)
  {
    assert (layers + [layer])[..|layers|] == layers;
  }

  /** One more tile for a tally. */
  function Count(tally: Option<Overlap>, kept: int, discarded: int, t: Tile): (r: Option<Overlap>)
    ensures r.Some?
  {
    match tally
    case None => Some(Overlap(kept, discarded, t.x, t.y, 1))
    case Some(o) => Some(o.(tiles := o.tiles + 1))
  }

  lemma TallyMore(swept: seq<Tile>, t: Tile, p: Tile -> bool, kept: int, discarded: int)
    ensures Tally(Seqs.Filter(swept + [t], p), kept, discarded)
         == (if p(t) then Count(Tally(Seqs.Filter(swept, p), kept, discarded), kept, discarded, t)
             else Tally(Seqs.Filter(swept, p), kept, discarded))
  {
    assert (swept + [t])[..|swept|] == swept;
  }

  /** Conflicts of other layers stay as they were. */
  ghost predicate OnlyLoses(before: map<(int, int), Overlap>, after: map<(int, int), Overlap>, d: int) {
    forall k, e :: e != d ==> Entry(after, k, e) == Entry(before, k, e)
  }

  /** What must be noted for one more tile. */
  lemma NoteMore(conflicts: map<(int, int), Overlap>, layers: seq<Layer>, layer: Layer, swept: seq<Tile>, t: Tile)
    requires NotedPart(conflicts, layers, layer, swept) && layer.InBox(t)
    ensures var k := Owner(layers, t);
      if layer.side(t) == Inside && k != 0
      then NotedPart(conflicts[(k, layer.id) := Count(Entry(conflicts, k, layer.id), k, layer.id, t).value],
                     layers, layer, swept + [t])
      else NotedPart(conflicts, layers, layer, swept + [t])
  {
    forall k ensures Tally(Seqs.Filter(swept + [t], LostTo(layers, layer, k)), k, layer.id)
                  == (if LostTo(layers, layer, k)(t) then Count(Entry(conflicts, k, layer.id), k, layer.id, t)
                      else Entry(conflicts, k, layer.id)) {
      TallyMore(swept, t, LostTo(layers, layer, k), k, layer.id);
    }
  }

  lemma NoteNone(conflicts: map<(int, int), Overlap>, layers: seq<Layer>, layer: Layer)
    requires forall key :: key in conflicts ==> key.1 != layer.id
    ensures NotedPart(conflicts, layers, layer, [])
    ensures Tally(Seqs.Filter([], IsBuilt(layer)), 0, layer.id) == None
  {
  }

  lemma Area(w: int, h: int)
    requires 0 < w && 0 < h
    ensures 0 < w * h
  {
  }

  // ---------------------------------------------------------------------
  // What a tally tells
  // ---------------------------------------------------------------------

  /** Further up, or in the same row further to the left. */
  predicate Earlier(t: Tile, u: Tile) {
    t.y < u.y || (t.y == u.y && t.x < u.x)
  }

  predicate RowMajor(cells: seq<Tile>) {
    forall j, k :: 0 <= j < k < |cells| ==> Earlier(cells[j], cells[k])
  }

  lemma {:induction false} RowInOrder(y: int, minX: int, x: int)
    ensures RowMajor(Row(y, minX, x))
    decreases x - minX
  {
    if x > minX {
      var before := Row(y, minX, x - 1);
      RowInOrder(y, minX, x - 1);
      forall k | 0 <= k < |before| ensures Earlier(before[k], Tile(x - 1, y)) {
        InRow(y, minX, x - 1, before[k]);
      }
    }
  }

  lemma {:induction false} RowsInOrder(minX: int, maxX: int, minY: int, y: int)
    ensures RowMajor(Rows(minX, maxX, minY, y))
    decreases y - minY
  {
    if y > minY {
      var above, row := Rows(minX, maxX, minY, y - 1), Row(y - 1, minX, maxX + 1);
      RowsInOrder(minX, maxX, minY, y - 1);
      RowInOrder(y - 1, minX, maxX + 1);
      forall j, k | 0 <= j < |above| && 0 <= k < |row| ensures Earlier(above[j], row[k]) {
        InRows(minX, maxX, minY, y - 1, above[j]);
        InRow(y - 1, minX, maxX + 1, row[k]);
      }
    }
  }

  lemma {:induction false} FilterInOrder(cells: seq<Tile>, p: Tile -> bool)
    requires RowMajor(cells)
    ensures RowMajor(Seqs.Filter(cells, p))
  {
    if |cells| > 0 {
      var init, last := cells[..|cells| - 1], cells[|cells| - 1];
      FilterInOrder(init, p);
      forall t | t in Seqs.Filter(init, p) ensures Earlier(t, last) {
        Seqs.InFilter(init, p, t);
      }
    }
  }

  lemma {:induction false} InOrderOnce(cells: seq<Tile>)
    requires RowMajor(cells)
    ensures |(set t | t in cells)| == |cells|
  {
    if |cells| > 0 {
      var init, last := cells[..|cells| - 1], cells[|cells| - 1];
      InOrderOnce(init);
      assert cells == init + [last];
      assert (set t | t in cells) == (set t | t in init) + {last};
    }
  }

  ghost function TilesWhere(minX: int, minY: int, maxX: int, maxY: int, p: Tile -> bool): set<Tile> {
    set x, y | minX <= x <= maxX && minY <= y <= maxY && p(Tile(x, y)) :: Tile(x, y)
  }

  /** The overlap tells how many the tiles are, and which of them comes first, row by
      row from the top and from left to right. */
  ghost predicate SumsUp(o: Overlap, tiles: set<Tile>) {
    && o.tiles == |tiles| && Tile(o.x, o.y) in tiles
    && forall t :: t in tiles ==> o.y < t.y || (o.y == t.y && o.x <= t.x)
  }

  lemma TallyMeans(minX: int, minY: int, maxX: int, maxY: int, p: Tile -> bool, kept: int, discarded: int, o: Overlap)
    ensures Tally(Seqs.Filter(Sweep(minX, minY, maxX, maxY), p), kept, discarded) == Some(o) <==>
      o.kept == kept && o.discarded == discarded && SumsUp(o, TilesWhere(minX, minY, maxX, maxY, p))
  {
    var swept, tiles := Sweep(minX, minY, maxX, maxY), TilesWhere(minX, minY, maxX, maxY, p);
    var cells := Seqs.Filter(swept, p);
    RowsInOrder(minX, maxX, minY, maxY + 1);
    FilterInOrder(swept, p);
    InOrderOnce(cells);
    forall t ensures t in cells <==> t in tiles {
      Seqs.InFilter(swept, p, t);
      InSweep(minX, minY, maxX, maxY, t);
      assert t == Tile(t.x, t.y);
    }
    assert (set t | t in cells) == tiles;
    if cells != [] {
      First(cells, tiles, o);
    }
  }

  lemma First(cells: seq<Tile>, tiles: set<Tile>, o: Overlap)
    requires RowMajor(cells) && |cells| == |tiles| && cells != [] && forall t :: t in cells <==> t in tiles
    ensures SumsUp(o, tiles) <==> o.tiles == |cells| && Tile(o.x, o.y) == cells[0]
  {
    assert cells[0] in tiles;
    forall t | t in tiles ensures t == cells[0] || Earlier(cells[0], t) {
    }
  }

  // ---------------------------------------------------------------------
  // The report of overlaps
  // ---------------------------------------------------------------------

  predicate Before(a: Overlap, b: Overlap) {
    a.kept < b.kept || (a.kept == b.kept && a.discarded < b.discarded)
  }

  predicate Sorted(list: seq<Overlap>) {
    forall j, k :: 0 <= j < k < |list| ==> Before(list[j], list[k])
  }

  /** Every overlap of every layer, once, in order. */
  ghost predicate Reports(list: seq<Overlap>, layers: seq<Layer>) {
    && Sorted(list)
    && (forall o :: o in list ==> exists j :: 0 <= j < |layers| && OverlapOf(layers, j, o.kept) == Some(o))
    && (forall j, k :: 0 <= j < |layers| && OverlapOf(layers, j, k).Some? ==> OverlapOf(layers, j, k).value in list)
  }

  method Insert(list: seq<Overlap>, o: Overlap) returns (r: seq<Overlap>)
    requires Sorted(list) && forall p :: p in list ==> (p.kept, p.discarded) != (o.kept, o.discarded)
    ensures Sorted(r) && forall p :: p in r <==> p in list || p == o
  {
    var at := 0;
    while at < |list| && Before(list[at], o)
      invariant 0 <= at <= |list| && forall k :: 0 <= k < at ==> Before(list[k], o)
    {
      at := at + 1;
    }
    r := list[..at] + [o] + list[at..];
    InsertedInOrder(list, at, o);
  }

  lemma InsertedInOrder(list: seq<Overlap>, at: nat, o: Overlap)
    requires Sorted(list) && at <= |list| && forall k :: 0 <= k < at ==> Before(list[k], o)
    requires forall p :: p in list ==> (p.kept, p.discarded) != (o.kept, o.discarded)
    requires at == |list| || !Before(list[at], o)
    ensures Sorted(list[..at] + [o] + list[at..])
    ensures forall p :: p in list[..at] + [o] + list[at..] <==> p in list || p == o
  {
    assert forall k :: 0 <= k < |list| ==> list[k] in list;
    forall k | at <= k < |list| ensures Before(o, list[k]) {
      assert list[at] in list && (k == at || Before(list[at], list[k]));
    }
    Spliced(list, at, o);
    assert list == list[..at] + list[at..];
  }

  lemma Spliced(list: seq<Overlap>, at: nat, o: Overlap)
    requires Sorted(list) && at <= |list|
    requires forall k :: 0 <= k < at ==> Before(list[k], o)
    requires forall k :: at <= k < |list| ==> Before(o, list[k])
    ensures Sorted(list[..at] + [o] + list[at..])
  {
    hide Before;
    var r := list[..at] + [o] + list[at..];
    forall j, k | 0 <= j < k < |r| ensures Before(r[j], r[k]) {
      assert k < at ==> r[j] == list[j] && r[k] == list[k];
      assert j < at && k > at ==> r[j] == list[j] && r[k] == list[k - 1];
      assert j > at ==> r[j] == list[j - 1] && r[k] == list[k - 1];
    }
  }

  ghost predicate Keyed(conflicts: map<(int, int), Overlap>) {
    forall key :: key in conflicts ==> (conflicts[key].kept, conflicts[key].discarded) == key
  }

  lemma NotedIsKeyed(conflicts: map<(int, int), Overlap>, layers: seq<Layer>)
    requires Noted(conflicts, layers, |layers|)
    ensures Keyed(conflicts)
  {
    forall key | key in conflicts ensures (conflicts[key].kept, conflicts[key].discarded) == key {
      var j :| 0 <= j < |layers| && layers[j].id == key.1;
      assert Entry(conflicts, key.0, layers[j].id) == OverlapOf(layers, j, key.0);
    }
  }

  lemma SomeKey(keys: set<(int, int)>)
    requires |keys| > 0
    ensures exists key :: key in keys
  {
    assert (forall key :: key !in keys) ==> keys == {};
  }

  /** The values of the table, in a stable order. */
  method SortedOverlaps(conflicts: map<(int, int), Overlap>) returns (list: seq<Overlap>)
    requires Keyed(conflicts)
    ensures Sorted(list)
    ensures forall o :: o in list <==> (o.kept, o.discarded) in conflicts && conflicts[(o.kept, o.discarded)] == o
  {
    list := [];
    var rest := conflicts.Keys;
    while |rest| > 0
      invariant rest <= conflicts.Keys && Sorted(list)
      invariant forall o :: o in list <==>
        (o.kept, o.discarded) in conflicts.Keys - rest && conflicts[(o.kept, o.discarded)] == o
    {
      SomeKey(rest);
      var key :| key in rest;
      list := Insert(list, conflicts[key]);
      rest := rest - {key};
    }
  }

  lemma ListingReports(list: seq<Overlap>, conflicts: map<(int, int), Overlap>, layers: seq<Layer>)
    requires Noted(conflicts, layers, |layers|) && Sorted(list)
    requires forall o :: o in list <==> (o.kept, o.discarded) in conflicts && conflicts[(o.kept, o.discarded)] == o
    ensures Reports(list, layers)
  {
    forall o | o in list ensures exists j :: 0 <= j < |layers| && OverlapOf(layers, j, o.kept) == Some(o) {
      var j :| 0 <= j < |layers| && layers[j].id == o.discarded;
      assert Entry(conflicts, o.kept, layers[j].id) == OverlapOf(layers, j, o.kept);
    }
    forall j, k | 0 <= j < |layers| && OverlapOf(layers, j, k).Some? ensures OverlapOf(layers, j, k).value in list {
      assert Entry(conflicts, k, layers[j].id) == OverlapOf(layers, j, k);
    }
  }

  ghost predicate FirstOf(layers: seq<Layer>, k: int, t: Tile) {
    && (exists l :: l in layers && l.id == k && l.Covers(t))
    && forall l :: l in layers && l.Covers(t) ==> k <= l.id
  }

  /** What a layer loses to another: the tiles that both claim, the other before
      anybody else. */
  ghost function LostTiles(layers: seq<Layer>, l: Layer, kept: int): set<Tile> {
    set x, y | l.minX <= x <= l.maxX && l.minY <= y <= l.maxY && l.side(Tile(x, y)) == Inside
            && kept < l.id && FirstOf(layers, kept, Tile(x, y)) :: Tile(x, y)
  }

  /** The report is of exactly the tiles that the layers lose to each other. */
  lemma ReportMeans(list: seq<Overlap>, layers: seq<Layer>, o: Overlap)
    requires Ascending(layers) && Reports(list, layers)
    ensures o in list <==>
      exists l :: l in layers && l.id == o.discarded && SumsUp(o, LostTiles(layers, l, o.kept))
  {
    hide SumsUp, OverlapOf, LostTiles;
    forall j | 0 <= j < |layers|
      ensures OverlapOf(layers, j, o.kept) == Some(o) <==>
        layers[j].id == o.discarded && SumsUp(o, LostTiles(layers, layers[j], o.kept))
    {
      OverlapMeans(layers, j, o);
    }
    if l :| l in layers && l.id == o.discarded && SumsUp(o, LostTiles(layers, l, o.kept)) {
      var j :| 0 <= j < |layers| && layers[j] == l;
      assert OverlapOf(layers, j, o.kept) == Some(o);
    }
  }

  lemma OverlapMeans(layers: seq<Layer>, j: nat, o: Overlap)
    requires Ascending(layers) && j < |layers|
    ensures OverlapOf(layers, j, o.kept) == Some(o) <==>
      layers[j].id == o.discarded && SumsUp(o, LostTiles(layers, layers[j], o.kept))
  {
    hide SumsUp, Owner, FirstOf;
    var l, p := layers[j], LostTo(layers[..j], layers[j], o.kept);
    TallyMeans(l.minX, l.minY, l.maxX, l.maxY, p, o.kept, l.id, o);
    forall t | l.Covers(t) ensures p(t) <==> o.kept < l.id && FirstOf(layers, o.kept, t) {
      LosesToFirst(layers, j, o.kept, t);
    }
    assert TilesWhere(l.minX, l.minY, l.maxX, l.maxY, p) == LostTiles(layers, l, o.kept);
  }

  lemma LosesToFirst(layers: seq<Layer>, j: nat, k: int, t: Tile)
    requires Ascending(layers) && j < |layers| && layers[j].Covers(t)
    ensures k != 0 && Owner(layers[..j], t) == k <==> k < layers[j].id && FirstOf(layers, k, t)
  {
    OwnerIsLeast(layers[..j], t);
    forall i | 0 <= i < j ensures layers[..j][i] == layers[i] && layers[i].id < layers[j].id {
    }
    forall i | j <= i < |layers| ensures layers[j].id <= layers[i].id {
    }
    assert forall l :: l in layers && l.id < layers[j].id ==> l in layers[..j];
  }

  /** The report is empty exactly when no layer meets another. */
  lemma NothingToReport(list: seq<Overlap>, layers: seq<Layer>)
    requires Reports(list, layers)
    ensures list == [] <==> forall j, k :: 0 <= j < |layers| ==> OverlapOf(layers, j, k).None?
  {
    hide OverlapOf;
    if list != [] {
      var o := list[0];
      assert o in list;
      var j :| 0 <= j < |layers| && OverlapOf(layers, j, o.kept) == Some(o);
    }
  }

  // ---------------------------------------------------------------------
  // Nothing is lost twice or not at all
  // ---------------------------------------------------------------------

  /** What the report says that a layer lost, all in all. */
  function TilesLost(list: seq<Overlap>, d: int): int {
    if |list| == 0 then 0
    else TilesLost(list[..|list| - 1], d) + if list[|list| - 1].discarded == d then list[|list| - 1].tiles else 0
  }

  /** Tiles of the layer that belong, before it is painted, to one of those it
      lost to according to the list. */
  ghost function LostToAny(layers: seq<Layer>, layer: Layer, list: seq<Overlap>): Tile -> bool {
    (t: Tile) => layer.Covers(t) && exists o :: o in list && o.discarded == layer.id && LostTo(layers, layer, o.kept)(t)
  }

  lemma {:induction false} CountEither<A>(s: seq<A>, p: A -> bool, q: A -> bool, either: A -> bool)
    requires forall x :: x in s ==> !(p(x) && q(x)) && (either(x) <==> p(x) || q(x))
    ensures Seqs.Count(s, either) == Seqs.Count(s, p) + Seqs.Count(s, q)
  {
    if |s| > 0 {
      CountEither(s[..|s| - 1], p, q, either);
    }
  }

  lemma {:induction false} FilterLength<A>(s: seq<A>, p: A -> bool)
    ensures |Seqs.Filter(s, p)| == Seqs.Count(s, p)
  {
    if |s| > 0 {
      FilterLength(s[..|s| - 1], p);
    }
  }

  lemma {:induction false} LostAddsUp(layers: seq<Layer>, layer: Layer, list: seq<Overlap>)
    requires Sorted(list)
    requires forall o :: o in list && o.discarded == layer.id ==>
      Tally(Seqs.Filter(Cells(layer), LostTo(layers, layer, o.kept)), o.kept, layer.id) == Some(o)
    ensures TilesLost(list, layer.id) == Seqs.Count(Cells(layer), LostToAny(layers, layer, list))
  {
    var cells := Cells(layer);
    if |list| == 0 {
      Seqs.CountSame(cells, LostToAny(layers, layer, list), t => false);
      CountNothing(cells);
    } else {
      var init, last := list[..|list| - 1], list[|list| - 1];
      assert list == init + [last];
      LostAddsUp(layers, layer, init);
      if last.discarded == layer.id {
        FilterLength(cells, LostTo(layers, layer, last.kept));
        CountEither(cells, LostToAny(layers, layer, init), LostTo(layers, layer, last.kept),
            LostToAny(layers, layer, list));
      } else {
        Seqs.CountSame(cells, LostToAny(layers, layer, init), LostToAny(layers, layer, list));
      }
    }
  }

  lemma {:induction false} CountNothing(cells: seq<Tile>)
    ensures Seqs.Count(cells, (t: Tile) => false) == 0
  {
    if |cells| > 0 {
      CountNothing(cells[..|cells| - 1]);
    }
  }

  function CoveredBy(layer: Layer): Tile -> bool {
    (t: Tile) => layer.Covers(t)
  }

  function OwnedBy(layers: seq<Layer>, id: int): Tile -> bool {
    (t: Tile) => Owner(layers, t) == id
  }

  /** Painting more layers leaves the owners there are. */
  lemma {:induction false} OwnerStays(layers: seq<Layer>, n: nat, t: Tile)
    requires n <= |layers| && Ascending(layers)
    ensures Owner(layers[..n], t) != 0 ==> Owner(layers, t) == Owner(layers[..n], t)
    ensures Owner(layers[..n], t) == 0 ==> Owner(layers, t) == 0 || exists j ::
        n <= j < |layers| && layers[j].id == Owner(layers, t)
  {
    if n < |layers| {
      var init := layers[..|layers| - 1];
      OwnerStays(init, n, t);
      assert init[..n] == layers[..n];
      assert Owner(layers, t) != 0 ==>
          Owner(layers, t) == Owner(init, t) || Owner(layers, t) == layers[|layers| - 1].id;
    } else {
      assert layers[..n] == layers;
    }
  }

  /** A tile is its layer's in the end if it covers it and came free to it. */
  lemma OwnedIfFree(layers: seq<Layer>, j: nat, t: Tile)
    requires j < |layers| && Ascending(layers)
    ensures Owner(layers, t) == layers[j].id <==> layers[j].Covers(t) && Owner(layers[..j], t) == 0
  {
    var upto := layers[..j + 1];
    assert upto[..j] == layers[..j] && upto[j] == layers[j];
    OwnerStays(layers, j + 1, t);
    OwnerIsLeast(layers[..j], t);
    forall k | 0 <= k < j ensures layers[..j][k].id != layers[j].id {
    }
    assert forall k :: j + 1 <= k < |layers| ==> layers[k].id != layers[j].id;
  }

  /** For every layer: the tiles it ends up with, plus those the report says it
      lost, are the tiles it covers. */
  lemma OwnedPlusLost(list: seq<Overlap>, layers: seq<Layer>, j: nat)
    requires j < |layers| && Ascending(layers) && Reports(list, layers)
    ensures Seqs.Count(Cells(layers[j]), OwnedBy(layers, layers[j].id)) + TilesLost(list, layers[j].id)
         == Seqs.Count(Cells(layers[j]), CoveredBy(layers[j]))
  {
    var layer, before := layers[j], layers[..j];
    var cells := Cells(layer);
    ReportedFor(list, layers, j);
    LostAddsUp(before, layer, list);
    forall t | t in cells ensures !(OwnedBy(layers, layer.id)(t) && LostToAny(before, layer, list)(t))
      && (CoveredBy(layer)(t) <==> OwnedBy(layers, layer.id)(t) || LostToAny(before, layer, list)(t)) {
      OwnedIfFree(layers, j, t);
      if layer.Covers(t) && Owner(before, t) != 0 {
        ReportedLoss(list, layers, j, t);
      }
    }
    CountEither(cells, OwnedBy(layers, layer.id), LostToAny(before, layer, list), CoveredBy(layer));
  }

  lemma ReportedFor(list: seq<Overlap>, layers: seq<Layer>, j: nat)
    requires j < |layers| && Ascending(layers) && Reports(list, layers)
    ensures forall o :: o in list && o.discarded == layers[j].id ==> OverlapOf(layers, j, o.kept) == Some(o)
  {
    forall o | o in list && o.discarded == layers[j].id ensures OverlapOf(layers, j, o.kept) == Some(o) {
      var i :| 0 <= i < |layers| && OverlapOf(layers, i, o.kept) == Some(o);
      assert layers[i].id == layers[j].id;
      assert i == j;
    }
  }

  lemma ReportedLoss(list: seq<Overlap>, layers: seq<Layer>, j: nat, t: Tile)
    requires j < |layers| && Reports(list, layers)
    requires t in Cells(layers[j]) && layers[j].Covers(t) && Owner(layers[..j], t) != 0
    ensures LostToAny(layers[..j], layers[j], list)(t)
  {
    var k := Owner(layers[..j], t);
    Seqs.InFilter(Cells(layers[j]), LostTo(layers[..j], layers[j], k), t);
    assert OverlapOf(layers, j, k).Some?;
    var o := OverlapOf(layers, j, k).value;
    assert o in list && o.discarded == layers[j].id && o.kept == k;
  }
}
