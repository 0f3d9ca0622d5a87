/**
 * The whole-map operations of awe::map: its name, its size (growing and
 * shrinking the tile grid, trimming the armies' tile sets, deleting the
 * units left off the map and clamping the selected tile), and the
 * rectangle operations that fill tiles, fill units and delete units.
 */
module MapMap {
  import opened Wrappers
  import opened Integers
  import opened MapEntities
  import opened MapGeometry
  import opened MapData
  import opened MapUnits
  import opened MapArmies
  import opened UnitIDs
  import GameProperties
  import MapSelection

  // ------------------------------------------------------------------
  // setMapName
  // ------------------------------------------------------------------

  /** name with every '~' taken out and every other character kept, in order. */
  function WithoutTildes(name: string): (r: string)
    ensures '~' !in r
    ensures multiset(r) == multiset(name)['~' := 0]
    ensures '~' !in name ==> r == name
  {
    if |name| == 0 then ""
    else
      assert name == [name[0]] + name[1..];
      (if name[0] == '~' then "" else [name[0]]) + WithoutTildes(name[1..])
  }

  /**
   * setMapName: the name without its '~' characters becomes the map's name;
   * when that is already the name nothing changes.
   */
  function SetMapName(s: MapState, name: string): (r: MapState)
    ensures r == s.(mapName := r.mapName)
    ensures r.mapName == WithoutTildes(name) && '~' !in r.mapName
  {
    var cleaned := WithoutTildes(name);
    if cleaned == s.mapName then s else s.(mapName := cleaned)
  }

  /** Setting the same name twice is setting it once, and a clean current name is kept as it is. */
  lemma SetMapNameIdempotent(s: MapState, name: string)
    ensures SetMapName(SetMapName(s, name), name) == SetMapName(s, name)
    ensures '~' !in name && name == s.mapName ==> SetMapName(s, name) == s
  {
  }

  // ------------------------------------------------------------------
  // setMapSize: the tile grid
  // ------------------------------------------------------------------

  /**
   * The grid as setMapSize leaves it: the vector of columns is resized to
   * w (new columns empty), then h new tiles are appended to every column,
   * after the tiles it already held.
   */
  function ResizedAsWritten(tiles: seq<seq<Tile>>, w: nat, h: nat, t: Tile): (r: seq<seq<Tile>>)
    ensures |r| == w
    ensures forall x :: 0 <= x < w ==> |r[x]| == (if x < |tiles| then |tiles[x]| else 0) + h
    ensures forall x :: 0 <= x < w && x < |tiles| ==> r[x][..|tiles[x]|] == tiles[x]
  {
    seq(w, x requires 0 <= x < w => (if x < |tiles| then tiles[x] else []) + seq(h, _ => t))
  }

  /**
   * The grid setMapSize is meant to leave: w columns of h tiles, each the
   * tile that was there before if there was one, and a new tile otherwise.
   */
  function Resized(tiles: seq<seq<Tile>>, w: nat, h: nat, t: Tile): (r: seq<seq<Tile>>)
    ensures |r| == w && forall x :: 0 <= x < w ==> |r[x]| == h
  {
    seq(w, x requires 0 <= x < w => seq(h, y requires 0 <= y < h =>
      if x < |tiles| && y < |tiles[x]| then tiles[x][y] else t))
  }

  /** A map given a w by h grid and that size. */
  function WithGrid(s: MapState, w: UInt32, h: UInt32, t: Tile): (r: MapState)
  {
    s.(tiles := Resized(s.tiles, w, h, t), width := w, height := h)
  }

  /** A map given the grid setMapSize builds for w by h, and that size. */
  function WithGridAsWritten(s: MapState, w: UInt32, h: UInt32, t: Tile): (r: MapState)
  {
    s.(tiles := ResizedAsWritten(s.tiles, w, h, t), width := w, height := h)
  }

  /**
   * After the corrected resize every column holds exactly h tiles, and a
   * tile in the new bounds reads as the tile that was there, if it was in
   * the old bounds, and as the new tile otherwise.
   */
  lemma ResizedReadsOldOrNew(s: MapState, w: UInt32, h: UInt32, t: Tile, p: Pos)
    requires Shaped(s)
    ensures Shaped(WithGrid(s, w, h, t))
    ensures InBounds(WithGrid(s, w, h, t), p) ==>
      TileAt(WithGrid(s, w, h, t), p) == if InBounds(s, p) then TileAt(s, p) else t
  {
  }

  /**
   * Within the new bounds the grid as written reads exactly as the
   * corrected one, whatever the old grid: the two differ only past the end
   * of a column, where the surplus tiles lie.
   */
  lemma ResizedAsWrittenReadsAsResized(s: MapState, w: UInt32, h: UInt32, t: Tile, p: Pos)
    requires !OutOfBounds(p, w, h)
    ensures TileAt(WithGridAsWritten(s, w, h, t), p) == TileAt(WithGrid(s, w, h, t), p)
    ensures Shaped(s) ==> TileAt(WithGridAsWritten(s, w, h, t), p) == if InBounds(s, p) then TileAt(s, p) else t
  {
    var col := if p.x < |s.tiles| then s.tiles[p.x] else [];
    assert WithGridAsWritten(s, w, h, t).tiles[p.x] == col + seq(h, _ => t);
  }

  /**
   * As written, a column that already held tiles ends up longer than the
   * new height: the old tiles stay at its front and the new ones follow.
   */
  lemma ResizedAsWrittenOverlong(tiles: seq<seq<Tile>>, w: nat, h: nat, t: Tile, x: nat)
    requires x < w && x < |tiles| && |tiles[x]| > 0
    ensures var r := ResizedAsWritten(tiles, w, h, t);
      |r[x]| == |tiles[x]| + h > h && r[x][..|tiles[x]|] == tiles[x]
  {
  }

  /**
   * A 1 by 2 map of tiles a and b, shrunk to 1 by 1 with tile k and grown
   * back to 1 by 2 with tile l: as written, tile (0, 1) reads as the stale
   * b; corrected, it reads as the new l.
   */
  lemma ShrinkThenGrowReadsStaleTile()
    ensures var a, b, k, l := TileOf("a"), TileOf("b"), TileOf("k"), TileOf("l");
      var shrunk := ResizedAsWritten([[a, b]], 1, 1, k);
      var grown := ResizedAsWritten(shrunk, 1, 2, l);
      grown == [[a, b, k, l, l]] && grown[0][1] == b && grown[0][1] != l &&
      Resized(Resized([[a, b]], 1, 1, k), 1, 2, l) == [[a, l]]
  {
    var a, b, k, l := TileOf("a"), TileOf("b"), TileOf("k"), TileOf("l");
    var shrunk := ResizedAsWritten([[a, b]], 1, 1, k);
    assert shrunk[0] == [a, b, k];
    var grown := ResizedAsWritten(shrunk, 1, 2, l);
    assert grown[0] == [a, b, k, l, l];
    var fixed := Resized([[a, b]], 1, 1, k);
    assert fixed[0] == [a];
    assert Resized(fixed, 1, 2, l)[0] == [a, l];
  }

  /** A plain tile of the named type, owned by no army. */
  function TileOf(kind: string): Tile
  {
    NewTile(TileKind(kind, 0), NO_ARMY)
  }

  // ------------------------------------------------------------------
  // setMapSize: the armies' tile sets
  // ------------------------------------------------------------------

  /** Every army with only those of its tiles that lie within w by h. */
  function ArmiesWithin(armies: map<nat, Army>, w: UInt32, h: UInt32): (r: map<nat, Army>)
    ensures r.Keys == armies.Keys
    ensures forall a :: a in r ==> r[a] == armies[a].(tiles := r[a].tiles)
    ensures forall a, p :: a in r && p in r[a].tiles ==> p in armies[a].tiles && !OutOfBounds(p, w, h)
    ensures forall a, p :: a in armies && p in armies[a].tiles && !OutOfBounds(p, w, h) ==> p in r[a].tiles
  {
    map a | a in armies :: armies[a].(tiles := set p | p in armies[a].tiles && !OutOfBounds(p, w, h))
  }

  /** One army's loop: each tile of the set that is out of bounds is removed. */
  method TrimTiles(tiles: set<Pos>, w: UInt32, h: UInt32) returns (r: set<Pos>)
    ensures forall p :: p in r <==> p in tiles && !OutOfBounds(p, w, h)
  {
    r := tiles;
    var left := tiles;
    while left != {}
      invariant left <= tiles && r <= tiles
      invariant forall p :: p in tiles && p !in left ==> (p in r <==> !OutOfBounds(p, w, h))
      invariant forall p :: p in left ==> p in r
      decreases left
    {
      var p :| p in left;
      if OutOfBounds(p, w, h) {
        r := r - {p};
      }
      left := left - {p};
    }
  }

  /** The loop over the armies after a shrink: each keeps only its tiles in bounds. */
  method TrimArmies(armies: map<nat, Army>, w: UInt32, h: UInt32) returns (r: map<nat, Army>)
    ensures r == ArmiesWithin(armies, w, h)
  {
    r := armies;
    var left := armies.Keys;
    while left != {}
      invariant left <= armies.Keys && r.Keys == armies.Keys
      invariant forall a :: a in armies && a !in left ==> r[a] == ArmiesWithin(armies, w, h)[a]
      invariant forall a :: a in left ==> r[a] == armies[a]
      decreases left
    {
      var a :| a in left;
      var kept := TrimTiles(r[a].tiles, w, h);
      r := r[a := r[a].(tiles := kept)];
      left := left - {a};
    }
  }

  // ------------------------------------------------------------------
  // setMapSize: the units left off the map
  // ------------------------------------------------------------------

  /**
   * The units setMapSize collects after a shrink: every unit whose position
   * is out of bounds, which takes in every unit that is not on the map.
   */
  function UnitsToDeleteAsWritten(s: MapState, w: UInt32, h: UInt32): (d: set<nat>)
    ensures UnitsToDelete(s, w, h) <= d <= s.units.Keys
    ensures forall u :: u in s.units && !IsOnMap(s.units[u]) ==> u in d
  {
    set u | u in s.units && OutOfBounds(s.units[u].position, w, h)
  }

  /** The units a shrink is meant to delete: those standing on a tile that is now out of bounds. */
  function UnitsToDelete(s: MapState, w: UInt32, h: UInt32): (d: set<nat>)
    ensures forall u :: u in d <==> u in s.units && IsOnMap(s.units[u]) && OutOfBounds(s.units[u].position, w, h)
  {
    set u | u in s.units && IsOnMap(s.units[u]) && OutOfBounds(s.units[u].position, w, h)
  }

  /**
   * NO_POSITION is out of bounds of every map, so as written a shrink
   * collects every unit that is off the map: a unit loaded onto a carrier
   * that stays, and a unit not yet placed, are deleted along with the rest.
   */
  lemma OffMapUnitsDeletedAsWritten(s: MapState, w: UInt32, h: UInt32, u: nat)
    requires u in s.units && !IsOnMap(s.units[u])
    ensures u in UnitsToDeleteAsWritten(s, w, h) && u !in UnitsToDelete(s, w, h)
  {
  }

  /** The unit table of a loaded unit 2 whose carrier, unit 1, stands on tile (0, 0). */
  function CarrierOnOrigin(): map<nat, Unit>
  {
    var kind := UnitKind("", 0, 0);
    map[1 := NewUnit(kind, 0).(position := Pos(0, 0), loaded := {2}), 2 := NewUnit(kind, 0).(loadedOnto := 1)]
  }

  /**
   * Shrinking a 2 by 2 map to 1 by 1 with the carrier on (0, 0): as
   * written, its cargo is collected for deletion; corrected, nothing is.
   */
  lemma ShrinkCollectsCargoAsWritten(s: MapState)
    requires s.units == CarrierOnOrigin()
    ensures UnitsToDeleteAsWritten(s, 1, 1) == {2} && UnitsToDelete(s, 1, 1) == {}
  {
    assert s.units.Keys == {1, 2};
    assert 2 in UnitsToDeleteAsWritten(s, 1, 1);
  }

  /** What deleting units leaves alone: the grid's kinds and owners, the armies' tile sets and the other fields. */
  ghost predicate Untouched(s: MapState, r: MapState)
  {
    r == s.(tiles := r.tiles, units := r.units, armies := r.armies, frames := r.frames) &&
    SameShape(s, r) && |r.frames| == |s.frames| &&
    (forall p :: TileAt(r, p).kind == TileAt(s, p).kind && TileAt(r, p).owner == TileAt(s, p).owner) &&
    r.armies.Keys == s.armies.Keys && (forall a :: a in s.armies ==> r.armies[a].tiles == s.armies[a].tiles)
  }

  /** deleteUnit touches units, the units the tiles record, tile HP, army unit sets and the top frame only. */
  lemma DeleteUnitUntouched(s: MapState, id: nat)
    requires Acyclic(s.units) && id in s.units
    ensures Untouched(s, DeleteUnit(s, id)) && Acyclic(DeleteUnit(s, id).units)
  {
    var d := Family(s, id);
    var t := StopCapturing(s, d);
    StopCapturingLinks(s, d);
    AcyclicKept(s, t);
    RemovedAcyclic(t, d);
    DeleteUnitGround(s, id);
    forall p ensures TileAt(DeleteUnit(s, id), p).kind == TileAt(s, p).kind
    {
      RemovedTileAt(t, d, p);
      StopCapturingKind(s, d, p);
    }
  }

  lemma StopCapturingKind(s: MapState, d: set<nat>, p: Pos)
    ensures TileAt(StopCapturing(s, d), p).kind == TileAt(s, p).kind
  {
  }

  /**
   * What deleting the units of done has achieved: none of them is left, no
   * other unit has changed but for its loaded set, and every unit of s that
   * is not loaded and not in done is still there.
   */
  ghost predicate Deleted(s: MapState, r: MapState, done: set<nat>)
  {
    Acyclic(r.units) && NO_UNIT !in r.units && Untouched(s, r) &&
    r.units.Keys <= s.units.Keys - done &&
    (forall u :: u in r.units ==> r.units[u] == s.units[u].(loaded := r.units[u].loaded)) &&
    (forall u :: u in s.units && u !in done && !IsLoaded(s.units[u]) ==> u in r.units)
  }

  lemma DeletedStep(s: MapState, r: MapState, done: set<nat>, id: nat)
    requires Deleted(s, r, done)
    ensures Deleted(s, if id in r.units then DeleteUnit(r, id) else r, done + {id})
  {
    if id in r.units {
      var d := Family(r, id);
      DeleteUnitEffect(r, id);
      DeleteUnitUntouched(r, id);
      forall u | u in d
        ensures u in r.units && (u == id || r.units[u].loadedOnto in d)
      {
        FamilyMembers(r, id, u);
      }
      DeletedFamily(s, r, DeleteUnit(r, id), done, id, d);
    }
  }

  /** Removing a family of units, each the root id or cargo of another member, from a state deleted up to done. */
  lemma DeletedFamily(s: MapState, r: MapState, t: MapState, done: set<nat>, id: nat, d: set<nat>)
    requires Deleted(s, r, done)
    requires Acyclic(t.units) && Untouched(r, t) && id in d && t.units.Keys == r.units.Keys - d
    requires forall u :: u in t.units ==> t.units[u] == r.units[u].(loaded := r.units[u].loaded - d)
    requires forall u :: u in d ==> u in r.units && (u == id || r.units[u].loadedOnto in d)
    ensures Deleted(s, t, done + {id})
  {
    forall u | u in s.units && u !in done + {id} && !IsLoaded(s.units[u])
      ensures u in t.units
    {
      assert u in r.units;
    }
  }

  /**
   * The loop that deletes the collected units, in any order, skipping those
   * a previous deletion already removed as cargo.
   */
  ghost method DeleteEach(s: MapState, todo: set<nat>) returns (r: MapState)
    requires Acyclic(s.units) && NO_UNIT !in s.units
    ensures Deleted(s, r, todo)
  {
    r := s;
    var left := todo;
    ghost var done: set<nat> := {};
    while left != {}
      invariant left <= todo && done == todo - left
      invariant Deleted(s, r, done)
      decreases left
    {
      var id :| id in left;
      DeletedStep(s, r, done, id);
      VisitOne(todo, left, done, id);
      if id in r.units {
        r := DeleteUnit(r, id);
      }
      left := left - {id};
      done := done + {id};
    }
  }

  // ------------------------------------------------------------------
  // setMapSize: the selected tile, and the operation as a whole
  // ------------------------------------------------------------------

  /**
   * The selected tile after a shrink: left alone when still in bounds;
   * otherwise each coordinate beyond its dimension moves to the last
   * column or row, or to 0 when that dimension is 0.
   */
  function ClampedSel(sel: Pos, w: UInt32, h: UInt32): (r: Pos)
    ensures !OutOfBounds(sel, w, h) ==> r == sel
    ensures w > 0 && h > 0 ==> !OutOfBounds(r, w, h)
    ensures OutOfBounds(sel, w, h) ==> r.x == (if w == 0 then 0 else Min(sel.x, w - 1)) &&
                                        r.y == (if h == 0 then 0 else Min(sel.y, h - 1))
  {
    if !OutOfBounds(sel, w, h) then sel
    else
      var x := if w == 0 then 0 else if sel.x >= w then w - 1 else sel.x;
      var y := if h == 0 then 0 else if sel.y >= h then h - 1 else sel.y;
      Pos(x, y)
  }

  /** Whether the new size is smaller than the old one in either dimension. */
  predicate Shrinks(s: MapState, w: UInt32, h: UInt32)
  {
    s.width > w || s.height > h
  }

  /**
   * The map after the first steps of a shrink: no rectangle selection, the
   * grid as setMapSize builds it and the new size, the armies trimmed.
   */
  function Trimmed(s: MapState, w: UInt32, h: UInt32, t: Tile): MapState
  {
    WithGridAsWritten(MapSelection.RemoveRectangleSelection(s), w, h, t).(armies := ArmiesWithin(s.armies, w, h))
  }

  /**
   * What a shrink to w by h achieves: the trimmed map with its selection
   * clamped, but for the units; every unit left stands on a tile in bounds,
   * each is as it was but for its loaded set, and every unit that was
   * neither loaded nor out of bounds is kept. A unit not on the map, loaded
   * or not yet placed, is out of bounds and so is not kept.
   */
  ghost predicate ShrunkTo(s: MapState, w: UInt32, h: UInt32, t: Tile, r: MapState)
  {
    Untouched(Trimmed(s, w, h, t).(sel := ClampedSel(s.sel, w, h)), r) &&
    r.units.Keys <= s.units.Keys &&
    (forall u :: u in r.units ==> r.units[u] == s.units[u].(loaded := r.units[u].loaded)) &&
    (forall u :: u in r.units ==> !OutOfBounds(r.units[u].position, w, h)) &&
    (forall u :: u in s.units && !IsLoaded(s.units[u]) && !OutOfBounds(s.units[u].position, w, h) ==> u in r.units)
  }

  lemma ShrinkEffect(s: MapState, w: UInt32, h: UInt32, t: Tile, r: MapState)
    requires Deleted(Trimmed(s, w, h, t), r, UnitsToDeleteAsWritten(Trimmed(s, w, h, t), w, h))
    ensures ShrunkTo(s, w, h, t, r.(sel := ClampedSel(r.sel, w, h)))
  {
    var g := Trimmed(s, w, h, t);
    var r' := r.(sel := ClampedSel(r.sel, w, h));
    var g' := g.(sel := ClampedSel(s.sel, w, h));
    forall p ensures TileAt(r', p) == TileAt(r, p) && TileAt(g', p) == TileAt(g, p)
    {
    }
  }

  /** The shrinking half of setMapSize, from the resized grid on. */
  ghost method Shrink(s: MapState, w: UInt32, h: UInt32, t: Tile) returns (r: MapState)
    requires Acyclic(s.units) && NO_UNIT !in s.units
    ensures ShrunkTo(s, w, h, t, r)
  {
    var g := Trimmed(s, w, h, t);
    r := DeleteEach(g, UnitsToDeleteAsWritten(g, w, h));
    ShrinkEffect(s, w, h, t, r);
    r := r.(sel := ClampedSel(r.sel, w, h));
  }

  /**
   * setMapSize as written: nothing happens when the size is unchanged;
   * otherwise the rectangle selection goes, the grid is rebuilt as written
   * (ResizedAsWritten) and the size changes, and on a shrink the armies
   * keep only their tiles in bounds, every unit out of bounds is deleted
   * with its cargo (loaded and unplaced units among them), and the
   * selected tile is clamped into the map.
   */
  ghost method SetMapSize(s: MapState, w: UInt32, h: UInt32, t: Tile) returns (r: MapState)
    requires Acyclic(s.units) && NO_UNIT !in s.units
    ensures w == s.width && h == s.height ==> r == s
    ensures !(w == s.width && h == s.height) && !Shrinks(s, w, h) ==>
      r == WithGridAsWritten(MapSelection.RemoveRectangleSelection(s), w, h, t)
    ensures !(w == s.width && h == s.height) && Shrinks(s, w, h) ==> ShrunkTo(s, w, h, t, r)
  {
    if w == s.width && h == s.height {
      return s;
    }
    if Shrinks(s, w, h) {
      r := Shrink(s, w, h, t);
    } else {
      r := WithGridAsWritten(MapSelection.RemoveRectangleSelection(s), w, h, t);
    }
  }

  /**
   * Whatever setMapSize does to the units, a tile in the new bounds keeps
   * the type and owner it had, if it was in the old bounds of a well-shaped
   * grid, and takes the new tile's otherwise.
   */
  lemma SetMapSizeTileKinds(s: MapState, w: UInt32, h: UInt32, t: Tile, r: MapState, p: Pos)
    requires Shaped(s) && !(w == s.width && h == s.height) && !OutOfBounds(p, w, h)
    requires !Shrinks(s, w, h) ==> r == WithGridAsWritten(MapSelection.RemoveRectangleSelection(s), w, h, t)
    requires Shrinks(s, w, h) ==> ShrunkTo(s, w, h, t, r)
    ensures var before := if InBounds(s, p) then TileAt(s, p) else t;
      TileAt(r, p).kind == before.kind && TileAt(r, p).owner == before.owner
  {
    var m := MapSelection.RemoveRectangleSelection(s);
    assert m.tiles == s.tiles && m.width == s.width && m.height == s.height;
    ResizedAsWrittenReadsAsResized(m, w, h, t, p);
    var g := Trimmed(s, w, h, t);
    assert TileAt(g.(sel := ClampedSel(s.sel, w, h)), p) == TileAt(WithGridAsWritten(m, w, h, t), p);
  }

  // ------------------------------------------------------------------
  // The rectangle loops
  // ------------------------------------------------------------------

  /** Column x from row y0, m tiles down, in the order the inner loops visit them. */
  function Column(x: UInt32, y0: UInt32, m: nat): (c: seq<Pos>)
    requires y0 + m <= UINT32_LIMIT
    ensures |c| == m
  {
    seq(m, j requires 0 <= j < m => Pos(x, y0 + j))
  }

  /** n columns from column x0, each from row y0 and m tiles down, in the order the outer loops visit them. */
  function Columns(x0: UInt32, n: nat, y0: UInt32, m: nat): seq<Pos>
    requires x0 + n <= UINT32_LIMIT && y0 + m <= UINT32_LIMIT
    decreases n
  {
    if n == 0 then [] else Columns(x0, n - 1, y0, m) + Column(x0 + n - 1, y0, m)
  }

  /**
   * The tiles the rectangle operations visit, column by column from the
   * smaller x and, in each column, row by row from the smaller y.
   */
  function RectPositions(a: Pos, b: Pos): seq<Pos>
  {
    Columns(Min(a.x, b.x), Abs(a.x - b.x) + 1, Min(a.y, b.y), Abs(a.y - b.y) + 1)
  }

  /** p lies in the inclusive rectangle spanned by corners a and b, given in either order. */
  predicate InRect(a: Pos, b: Pos, p: Pos)
  {
    Min(a.x, b.x) <= p.x <= Max(a.x, b.x) && Min(a.y, b.y) <= p.y <= Max(a.y, b.y)
  }

  lemma ColumnCover(x: UInt32, y0: UInt32, m: nat, p: Pos)
    requires y0 + m <= UINT32_LIMIT
    ensures p in Column(x, y0, m) <==> p.x == x && y0 <= p.y < y0 + m
  {
    if p.x == x && y0 <= p.y < y0 + m {
      assert Column(x, y0, m)[p.y - y0] == p;
    }
  }

  lemma {:induction false} ColumnsCover(x0: UInt32, n: nat, y0: UInt32, m: nat, p: Pos)
    requires x0 + n <= UINT32_LIMIT && y0 + m <= UINT32_LIMIT
    ensures p in Columns(x0, n, y0, m) <==> x0 <= p.x < x0 + n && y0 <= p.y < y0 + m
    decreases n
  {
    if n > 0 {
      ColumnsCover(x0, n - 1, y0, m, p);
      ColumnCover(x0 + n - 1, y0, m, p);
    }
  }

  /** The rectangle loops visit exactly the tiles of the inclusive rectangle, whichever order the corners come in. */
  lemma RectPositionsCover(a: Pos, b: Pos, p: Pos)
    ensures p in RectPositions(a, b) <==> InRect(a, b, p)
    ensures RectPositions(a, b) == RectPositions(b, a)
  {
    ColumnsCover(Min(a.x, b.x), Abs(a.x - b.x) + 1, Min(a.y, b.y), Abs(a.y - b.y) + 1, p);
  }

  /** Between two corners in bounds, every tile is in bounds. */
  lemma RectInBounds(a: Pos, b: Pos, p: Pos, w: UInt32, h: UInt32)
    requires !OutOfBounds(a, w, h) && !OutOfBounds(b, w, h) && InRect(a, b, p)
    ensures !OutOfBounds(p, w, h)
  {
  }

  /** The prefix the loops have visited after column x, row y: the columns before x and the rows before y of column x. */
  lemma ColumnStep(x0: UInt32, y0: UInt32, m: nat, x: UInt32, y: UInt32)
    requires x0 <= x && y0 <= y < y0 + m <= UINT32_LIMIT
    ensures Column(x, y0, y - y0) + [Pos(x, y)] == Column(x, y0, y - y0 + 1)
  {
  }

  // ------------------------------------------------------------------
  // rectangleFillTiles and fillMap
  // ------------------------------------------------------------------

  /**
   * A tile setter: setTileType(pos, type), returning the new map and
   * whether it succeeded. Its own workings (structures, capture state,
   * visibility) are not part of this model.
   */
  type TileSetter = (MapState, Pos, TileKind) -> (MapState, bool)

  /** The two calls rectangleFillTiles makes on one tile. */
  function FillTile(s: MapState, p: Pos, kind: TileKind, owner: nat, setType: TileSetter): (MapState, bool)
  {
    var (t, ok) := setType(s, p, kind);
    (SetTileOwner(t, p, owner), ok)
  }

  /** What filling one tile does: the map after it, and whether setTileType succeeded. */
  type TileFill = (MapState, Pos) -> (MapState, bool)

  /** rectangleFillTiles' filling of one tile, with the type and owner fixed. */
  function Filler(kind: TileKind, owner: nat, setType: TileSetter): TileFill
  {
    (t: MapState, p: Pos) => FillTile(t, p, kind, owner, setType)
  }

  /** The tiles of ps filled in order: the map, and whether every one succeeded. */
  function FillAlong(s: MapState, ps: seq<Pos>, fill: TileFill): (MapState, bool)
    decreases |ps|
  {
    if |ps| == 0 then (s, true)
    else
      var (t, ok) := FillAlong(s, ps[..|ps| - 1], fill);
      var (t', ok') := fill(t, ps[|ps| - 1]);
      (t', ok && ok')
  }

  lemma FillAlongSnoc(s: MapState, ps: seq<Pos>, p: Pos, fill: TileFill)
    ensures FillAlong(s, ps + [p], fill) ==
      (fill(FillAlong(s, ps, fill).0, p).0, FillAlong(s, ps, fill).1 && fill(FillAlong(s, ps, fill).0, p).1)
  {
    assert (ps + [p])[..|ps|] == ps;
  }

  /** The tiles of ps given kind and owner in order: the map, and whether every setTileType call succeeded. */
  function FilledTiles(s: MapState, ps: seq<Pos>, kind: TileKind, owner: nat, setType: TileSetter): (MapState, bool)
  {
    FillAlong(s, ps, Filler(kind, owner, setType))
  }

  /** Why a rectangle operation refuses its arguments. */
  datatype FillError = NoType | NoArmy | StartOutOfBounds | EndOutOfBounds | UnknownArmy

  /**
   * rectangleFillTiles: fails, changing nothing, for a null type or a
   * corner out of bounds; otherwise sets the type and owner of every tile
   * of the rectangle, column by column, and reports whether every
   * setTileType call succeeded.
   */
  ghost method RectangleFillTiles(s: MapState, start: Pos, end: Pos, kind: Option<TileKind>, owner: nat, setType: TileSetter)
    returns (r: MapState, res: Result<bool, FillError>)
    ensures res == Failure(NoType) <==> kind.None?
    ensures res == Failure(StartOutOfBounds) <==> kind.Some? && !InBounds(s, start)
    ensures res == Failure(EndOutOfBounds) <==> kind.Some? && InBounds(s, start) && !InBounds(s, end)
    ensures res.Success? <==> kind.Some? && InBounds(s, start) && InBounds(s, end)
    ensures res.Failure? ==> r == s
    ensures res.Success? ==> (r, res.value) == FilledTiles(s, RectPositions(start, end), kind.value, owner, setType)
  {
    if kind.None? {
      return s, Failure(NoType);
    }
    if !InBounds(s, start) {
      return s, Failure(StartOutOfBounds);
    }
    if !InBounds(s, end) {
      return s, Failure(EndOutOfBounds);
    }
    var ok;
    r, ok := FillRectangle(s, start, end, Filler(kind.value, owner, setType));
    res := Success(ok);
  }

  /** The loops of rectangleFillTiles: every tile of the rectangle, column by column, filled with fill. */
  ghost method FillRectangle(s: MapState, start: Pos, end: Pos, fill: TileFill) returns (r: MapState, ok: bool)
    requires InBounds(s, start) && InBounds(s, end)
    ensures (r, ok) == FillAlong(s, RectPositions(start, end), fill)
  {
    ok := true;
    r := s;
    var x0, y0 := Min(start.x, end.x), Min(start.y, end.y);
    var width, height := Abs(start.x - end.x) + 1, Abs(start.y - end.y) + 1;
    ghost var ps: seq<Pos> := [];
    var x := x0;
    while x < x0 + width
      invariant x0 <= x <= x0 + width
      invariant ps == Columns(x0, x - x0, y0, height)
      invariant (r, ok) == FillAlong(s, ps, fill)
    {
      var y := y0;
      while y < y0 + height
        invariant y0 <= y <= y0 + height
        invariant ps == Columns(x0, x - x0, y0, height) + Column(x, y0, y - y0)
        invariant (r, ok) == FillAlong(s, ps, fill)
      {
        FillAlongSnoc(s, ps, Pos(x, y), fill);
        var (t, typed) := fill(r, Pos(x, y));
        if !typed {
          ok := false;
        }
        r := t;
        ColumnStep(x0, y0, height, x, y);
        ps := ps + [Pos(x, y)];
        y := y + 1;
      }
      x := x + 1;
    }
  }

  /** A setter that keeps the grid's shape and fails exactly off the map, as setTileType does. */
  ghost predicate BoundedSetter(setType: TileSetter)
  {
    forall t: MapState, p: Pos, k: TileKind {:trigger setType(t, p, k)} ::
      SameShape(t, setType(t, p, k).0) && (setType(t, p, k).1 <==> InBounds(t, p))
  }

  /** A setter that changes the owner of no tile but the one it sets: one on a map without structures. */
  ghost predicate OwnerLocalSetter(setType: TileSetter)
  {
    forall t: MapState, p: Pos, k: TileKind, q: Pos :: q != p ==> TileAt(setType(t, p, k).0, q).owner == TileAt(t, q).owner
  }

  /** Off a grid of the map's shape every position reads as the blank tile. */
  lemma OffGridBlank(s: MapState, q: Pos)
    requires Shaped(s) && !InBounds(s, q)
    ensures TileAt(s, q) == BLANK_TILE
  {
  }

  lemma SetTileOwnerShape(s: MapState, pos: Pos, army: nat)
    requires Shaped(s)
    ensures SameShape(s, SetTileOwner(s, pos, army))
  {
    if InBounds(s, pos) && army != TileAt(s, pos).owner {
      var t := UpdateCapturingUnit(s, GetUnitOnTile(s, pos));
      UpdateCapturingUnitLinks(s, GetUnitOnTile(s, pos));
      ShapeKept(s, t);
      ReownedEffect(t, pos, army);
    }
  }

  /** One tile filled: the shape is kept, the call succeeds in bounds, and the tile now has the owner. */
  lemma FillTileEffect(s: MapState, p: Pos, kind: TileKind, owner: nat, setType: TileSetter)
    requires BoundedSetter(setType) && OwnerLocalSetter(setType) && Shaped(s)
    ensures var (r, ok) := FillTile(s, p, kind, owner, setType);
      SameShape(s, r) && (ok <==> InBounds(s, p)) &&
      forall q :: TileAt(r, q).owner == if q == p && InBounds(s, p) then owner else TileAt(s, q).owner
  {
    var (t, ok) := setType(s, p, kind);
    ShapeKept(s, t);
    SetTileOwnerShape(t, p, owner);
    SetTileOwnerEffect(t, p, owner);
    forall q | q == p && !InBounds(s, p)
      ensures TileAt(SetTileOwner(t, p, owner), q).owner == TileAt(s, q).owner
    {
      OffGridBlank(s, q);
      OffGridBlank(t, q);
    }
  }

  /**
   * Filling the tiles of ps with a setter like setTileType on a map
   * without structures: the shape is kept, every call succeeds exactly when
   * all of ps is in bounds, the tiles of ps in bounds have the new owner and
   * every other tile keeps its own.
   */
  lemma {:induction false} FilledTilesEffect(s: MapState, ps: seq<Pos>, kind: TileKind, owner: nat, setType: TileSetter)
    requires BoundedSetter(setType) && OwnerLocalSetter(setType) && Shaped(s)
    ensures var (r, ok) := FilledTiles(s, ps, kind, owner, setType);
      SameShape(s, r) && (ok <==> forall p :: p in ps ==> InBounds(s, p)) &&
      forall q :: TileAt(r, q).owner == if q in ps && InBounds(s, q) then owner else TileAt(s, q).owner
    decreases |ps|
  {
    if |ps| > 0 {
      var front := ps[..|ps| - 1];
      var p := ps[|ps| - 1];
      assert ps == front + [p];
      FilledTilesEffect(s, front, kind, owner, setType);
      var (t, ok) := FilledTiles(s, front, kind, owner, setType);
      ShapeKept(s, t);
      FillTileEffect(t, p, kind, owner, setType);
      assert InBounds(t, p) == InBounds(s, p);
      assert forall q :: q in ps <==> q in front || q == p;
    }
  }

  /**
   * rectangleFillTiles with corners in bounds, on a map without
   * structures: it returns true, every tile of the rectangle has the new
   * owner and every tile outside it keeps its own.
   */
  lemma RectangleFillTilesOwners(s: MapState, start: Pos, end: Pos, kind: TileKind, owner: nat, setType: TileSetter)
    requires BoundedSetter(setType) && OwnerLocalSetter(setType) && Shaped(s)
    requires InBounds(s, start) && InBounds(s, end)
    ensures var (r, ok) := FilledTiles(s, RectPositions(start, end), kind, owner, setType);
      ok && SameShape(s, r) &&
      forall q :: TileAt(r, q).owner == if InRect(start, end, q) then owner else TileAt(s, q).owner
  {
    FilledTilesEffect(s, RectPositions(start, end), kind, owner, setType);
    forall q ensures q in RectPositions(start, end) <==> InRect(start, end, q)
    {
      RectPositionsCover(start, end, q);
    }
  }

  /**
   * fillMap: fails for a null type; otherwise fills the rectangle from
   * (0, 0) to the size less one in each dimension, a subtraction that wraps
   * on an empty map so that the fill fails there.
   */
  ghost method FillMap(s: MapState, kind: Option<TileKind>, owner: nat, setType: TileSetter)
    returns (r: MapState, res: Result<bool, FillError>)
    ensures kind.None? ==> r == s && res == Failure(NoType)
    ensures kind.Some? && (s.width == 0 || s.height == 0) ==> r == s && res == Failure(StartOutOfBounds)
    ensures kind.Some? && s.width > 0 && s.height > 0 ==>
      res.Success? && (r, res.value) == FilledTiles(s, RectPositions(Pos(0, 0), Pos(s.width - 1, s.height - 1)), kind.value, owner, setType)
  {
    if kind.None? {
      return s, Failure(NoType);
    }
    r, res := RectangleFillTiles(s, Pos(0, 0), Pos(ToUnsigned(s.width - 1), ToUnsigned(s.height - 1)), kind, owner, setType);
  }

  /** The rectangle fillMap fills is the whole map. */
  lemma FillMapCoversMap(s: MapState, q: Pos)
    requires s.width > 0 && s.height > 0
    ensures InRect(Pos(0, 0), Pos(s.width - 1, s.height - 1), q) <==> InBounds(s, q)
  {
  }

  // ------------------------------------------------------------------
  // rectangleDeleteUnits
  // ------------------------------------------------------------------

  /** One visit to a tile: the map after it, and how many units it deleted. */
  type TileStep = (MapState, Pos) -> (MapState, nat)

  /** The tiles of ps visited in order: the map, and how many units were deleted in all. */
  function Visit(s: MapState, ps: seq<Pos>, step: TileStep): (MapState, nat)
    decreases |ps|
  {
    if |ps| == 0 then (s, 0)
    else
      var (t, c) := Visit(s, ps[..|ps| - 1], step);
      var (t', k) := step(t, ps[|ps| - 1]);
      (t', c + k)
  }

  lemma VisitSnoc(s: MapState, ps: seq<Pos>, p: Pos, step: TileStep)
    ensures Visit(s, ps + [p], step) ==
      (step(Visit(s, ps, step).0, p).0, Visit(s, ps, step).1 + step(Visit(s, ps, step).0, p).1)
  {
    assert (ps + [p])[..|ps|] == ps;
  }

  /**
   * The body of rectangleDeleteUnits' loops on one tile: the unit on it, if
   * any, is deleted and counted. Deletion is modelled on maps without load
   * cycles, which every operation of the model keeps; on any other map the
   * tile is left alone.
   */
  ghost function DeleteOnTile(s: MapState, p: Pos): (MapState, nat)
  {
    var u := GetUnitOnTile(s, p);
    if u == NO_UNIT || !Acyclic(s.units) then (s, 0) else (DeleteUnit(s, u), 1)
  }

  /** rectangleDeleteUnits' loops over the tiles of ps. */
  ghost function DeletedAlong(s: MapState, ps: seq<Pos>): (MapState, nat)
  {
    Visit(s, ps, DeleteOnTile)
  }

  /** The tiles of ps that hold a unit. */
  ghost function Occupied(s: MapState, ps: seq<Pos>): set<Pos>
  {
    set q | q in ps && GetUnitOnTile(s, q) != NO_UNIT
  }

  /** No unit standing on a tile is loaded onto another, as loadUnit and unloadUnit keep it. */
  ghost predicate PlacedUnloaded(s: MapState)
  {
    forall u :: u in s.units && IsOnMap(s.units[u]) ==> !IsLoaded(s.units[u])
  }

  /** A map deleteUnit is modelled on. */
  ghost predicate Deletable(s: MapState)
  {
    Acyclic(s.units) && NO_UNIT !in s.units
  }

  /**
   * A step that deletes what stands on its tile: it keeps the map
   * deletable, deletes units only, keeps the shape, counts one exactly when
   * the tile held a unit, and leaves the tile empty.
   */
  ghost predicate ClearsTile(step: TileStep)
  {
    forall t: MapState, p: Pos {:trigger step(t, p)} :: Deletable(t) ==>
      Deletable(step(t, p).0) && step(t, p).0.units.Keys <= t.units.Keys && SameShape(t, step(t, p).0) &&
      (step(t, p).1 == if GetUnitOnTile(t, p) != NO_UNIT then 1 else 0) && GetUnitOnTile(step(t, p).0, p) == NO_UNIT
  }

  /** A step after which no tile that held no unit holds one. */
  ghost predicate AddsNoUnit(step: TileStep)
  {
    forall t: MapState, p: Pos, q: Pos {:trigger GetUnitOnTile(step(t, p).0, q)} :: Deletable(t) && GetUnitOnTile(t, q) == NO_UNIT ==>
      GetUnitOnTile(step(t, p).0, q) == NO_UNIT
  }

  /** A step that, when no unit on a tile is loaded, leaves what every other tile holds alone. */
  ghost predicate KeepsOtherTiles(step: TileStep)
  {
    (forall t: MapState, p: Pos {:trigger step(t, p)} :: Deletable(t) && TilesHoldUnits(t) && PlacedUnloaded(t) ==>
      TilesHoldUnits(step(t, p).0) && PlacedUnloaded(step(t, p).0)) &&
    (forall t: MapState, p: Pos, q: Pos {:trigger GetUnitOnTile(step(t, p).0, q)} ::
      Deletable(t) && TilesHoldUnits(t) && PlacedUnloaded(t) && q != p ==> GetUnitOnTile(step(t, p).0, q) == GetUnitOnTile(t, q))
  }

  /** The unit a tile records after deleteUnit: none if it was in the deleted family, the same one otherwise. */
  lemma DeleteUnitTileAt(s: MapState, id: nat, p: Pos)
    requires Acyclic(s.units) && id in s.units
    ensures TileAt(DeleteUnit(s, id), p).unit == if TileAt(s, p).unit in Family(s, id) then NO_UNIT else TileAt(s, p).unit
  {
    var d := Family(s, id);
    StopCapturingLinks(s, d);
    RemovedTileAt(StopCapturing(s, d), d, p);
  }

  lemma DeleteOnTileClears(s: MapState, p: Pos, q: Pos)
    requires Deletable(s)
    ensures var (r, k) := DeleteOnTile(s, p);
      Deletable(r) && r.units.Keys <= s.units.Keys && SameShape(s, r) &&
      (k == if GetUnitOnTile(s, p) != NO_UNIT then 1 else 0) &&
      GetUnitOnTile(r, p) == NO_UNIT && (GetUnitOnTile(s, q) == NO_UNIT ==> GetUnitOnTile(r, q) == NO_UNIT)
  {
    var u := GetUnitOnTile(s, p);
    if u != NO_UNIT {
      DeleteUnitEffect(s, u);
      DeleteUnitUntouched(s, u);
      DeleteUnitTileAt(s, u, p);
      DeleteUnitTileAt(s, u, q);
    }
  }

  lemma DeleteOnTileKeepsOthers(s: MapState, p: Pos, q: Pos)
    requires Deletable(s) && TilesHoldUnits(s) && PlacedUnloaded(s)
    ensures var (r, k) := DeleteOnTile(s, p);
      TilesHoldUnits(r) && PlacedUnloaded(r) && (q != p ==> GetUnitOnTile(r, q) == GetUnitOnTile(s, q))
  {
    var u := GetUnitOnTile(s, p);
    if u != NO_UNIT {
      var d := Family(s, u);
      DeleteUnitEffect(s, u);
      DeleteUnitUntouched(s, u);
      forall x ensures TileAt(DeleteUnit(s, u), x).unit == if TileAt(s, x).unit in d then NO_UNIT else TileAt(s, x).unit
      {
        DeleteUnitTileAt(s, u, x);
      }
      forall v | v in d
        ensures v in s.units && (v == u || s.units[v].loadedOnto in d)
      {
        FamilyMembers(s, u, v);
      }
      FamilyRemovedKeepsOthers(s, DeleteUnit(s, u), p, q, d);
    }
  }

  /**
   * Removing the family of the unit on p, when no unit on a tile is
   * loaded: the tiles still record units that exist and stand there, and no
   * other tile loses its unit.
   */
  lemma FamilyRemovedKeepsOthers(s: MapState, t: MapState, p: Pos, q: Pos, d: set<nat>)
    requires NO_UNIT !in s.units && TilesHoldUnits(s) && PlacedUnloaded(s) && SameShape(s, t)
    requires GetUnitOnTile(s, p) != NO_UNIT
    requires t.units.Keys == s.units.Keys - d
    requires forall v :: v in t.units ==> t.units[v] == s.units[v].(loaded := s.units[v].loaded - d)
    requires forall x :: TileAt(t, x).unit == if TileAt(s, x).unit in d then NO_UNIT else TileAt(s, x).unit
    requires forall v :: v in d ==> v in s.units && (v == GetUnitOnTile(s, p) || s.units[v].loadedOnto in d)
    ensures TilesHoldUnits(t) && PlacedUnloaded(t) && (q != p ==> GetUnitOnTile(t, q) == GetUnitOnTile(s, q))
  {
    assert forall x :: InBounds(t, x) == InBounds(s, x);
    var v := GetUnitOnTile(s, q);
    if q != p && v != NO_UNIT {
      assert s.units[v].position == q;
      assert v !in d;
    }
  }

  /** The loops' step on one tile is a step that deletes what stands there and nothing else. */
  lemma DeleteOnTileSteps()
    ensures ClearsTile(DeleteOnTile) && AddsNoUnit(DeleteOnTile) && KeepsOtherTiles(DeleteOnTile)
  {
    forall t: MapState, p: Pos, q: Pos | Deletable(t)
      ensures var (r, k) := DeleteOnTile(t, p);
        Deletable(r) && r.units.Keys <= t.units.Keys && SameShape(t, r) &&
        (k == if GetUnitOnTile(t, p) != NO_UNIT then 1 else 0) &&
        GetUnitOnTile(r, p) == NO_UNIT && (GetUnitOnTile(t, q) == NO_UNIT ==> GetUnitOnTile(r, q) == NO_UNIT)
    {
      DeleteOnTileClears(t, p, q);
    }
    forall t: MapState, p: Pos, q: Pos | Deletable(t) && TilesHoldUnits(t) && PlacedUnloaded(t)
      ensures var (r, k) := DeleteOnTile(t, p);
        TilesHoldUnits(r) && PlacedUnloaded(r) && (q != p ==> GetUnitOnTile(r, q) == GetUnitOnTile(t, q))
    {
      DeleteOnTileKeepsOthers(t, p, q);
    }
  }

  /** After visiting the tiles of ps with such a step: each of them holds no unit, and no tile that held none holds one. */
  lemma {:induction false} VisitClears(s: MapState, ps: seq<Pos>, step: TileStep)
    requires ClearsTile(step) && AddsNoUnit(step) && Deletable(s)
    ensures var (r, c) := Visit(s, ps, step);
      Deletable(r) && r.units.Keys <= s.units.Keys && SameShape(s, r) && c <= |ps| &&
      (forall q :: q in ps ==> GetUnitOnTile(r, q) == NO_UNIT) &&
      (forall q :: GetUnitOnTile(s, q) == NO_UNIT ==> GetUnitOnTile(r, q) == NO_UNIT)
    decreases |ps|
  {
    if |ps| > 0 {
      var front, p := ps[..|ps| - 1], ps[|ps| - 1];
      assert ps == front + [p];
      VisitClears(s, front, step);
    }
  }

  /**
   * When no unit on a tile is loaded, visiting the tiles of ps deletes and
   * counts exactly the units that stood on them, and what every other tile
   * holds is unchanged.
   */
  lemma {:induction false} VisitCounts(s: MapState, ps: seq<Pos>, step: TileStep)
    requires ClearsTile(step) && AddsNoUnit(step) && KeepsOtherTiles(step)
    requires Deletable(s) && TilesHoldUnits(s) && PlacedUnloaded(s)
    ensures var (r, c) := Visit(s, ps, step);
      c == |Occupied(s, ps)| && TilesHoldUnits(r) && PlacedUnloaded(r) &&
      forall q :: q !in ps ==> GetUnitOnTile(r, q) == GetUnitOnTile(s, q)
    decreases |ps|
  {
    if |ps| > 0 {
      var front, p := ps[..|ps| - 1], ps[|ps| - 1];
      assert ps == front + [p];
      VisitCounts(s, front, step);
      VisitClears(s, front, step);
      var t := Visit(s, front, step).0;
      OccupiedSnoc(s, front, p);
      assert p in front ==> GetUnitOnTile(t, p) == NO_UNIT;
      assert p !in front ==> GetUnitOnTile(t, p) == GetUnitOnTile(s, p);
    }
  }

  lemma OccupiedSnoc(s: MapState, front: seq<Pos>, p: Pos)
    ensures p in front ==> Occupied(s, front + [p]) == Occupied(s, front)
    ensures p !in front ==>
      |Occupied(s, front + [p])| == |Occupied(s, front)| + (if GetUnitOnTile(s, p) != NO_UNIT then 1 else 0)
  {
    if p !in front && GetUnitOnTile(s, p) != NO_UNIT {
      assert p !in Occupied(s, front);
      assert Occupied(s, front + [p]) == Occupied(s, front) + {p};
    } else {
      assert Occupied(s, front + [p]) == Occupied(s, front);
    }
  }

  /**
   * The loops of rectangleDeleteUnits: every tile of the rectangle with
   * corners start and end, column by column and down each column, is
   * visited with step and the counts are added up.
   */
  ghost method VisitRectangle(s: MapState, start: Pos, end: Pos, step: TileStep) returns (r: MapState, counter: nat)
    requires InBounds(s, start) && InBounds(s, end)
    ensures (r, counter) == Visit(s, RectPositions(start, end), step)
  {
    counter := 0;
    r := s;
    var x0, y0 := Min(start.x, end.x), Min(start.y, end.y);
    var width, height := Abs(start.x - end.x) + 1, Abs(start.y - end.y) + 1;
    ghost var ps: seq<Pos> := [];
    var x := x0;
    while x < x0 + width
      invariant x0 <= x <= x0 + width
      invariant ps == Columns(x0, x - x0, y0, height)
      invariant (r, counter) == Visit(s, ps, step)
    {
      var y := y0;
      while y < y0 + height
        invariant y0 <= y <= y0 + height
        invariant ps == Columns(x0, x - x0, y0, height) + Column(x, y0, y - y0)
        invariant (r, counter) == Visit(s, ps, step)
      {
        VisitSnoc(s, ps, Pos(x, y), step);
        var k;
        r, k := step(r, Pos(x, y)).0, step(r, Pos(x, y)).1;
        counter := counter + k;
        ColumnStep(x0, y0, height, x, y);
        ps := ps + [Pos(x, y)];
        y := y + 1;
      }
      x := x + 1;
    }
  }

  /**
   * rectangleDeleteUnits: 0 and no change when a corner is out of bounds;
   * otherwise the unit on every tile of the rectangle, if any, is deleted
   * and counted.
   */
  ghost method RectangleDeleteUnits(s: MapState, start: Pos, end: Pos) returns (r: MapState, counter: nat)
    ensures !InBounds(s, start) || !InBounds(s, end) ==> r == s && counter == 0
    ensures InBounds(s, start) && InBounds(s, end) ==> (r, counter) == DeletedAlong(s, RectPositions(start, end))
  {
    if !InBounds(s, start) || !InBounds(s, end) {
      return s, 0;
    }
    r, counter := VisitRectangle(s, start, end, DeleteOnTile);
  }

  /**
   * rectangleDeleteUnits with corners in bounds: no tile of the rectangle
   * holds a unit afterwards; when no unit on a tile is loaded, the count is
   * the number of tiles of the rectangle that held a unit, and every tile
   * outside it holds what it held.
   */
  lemma RectangleDeleteUnitsEffect(s: MapState, start: Pos, end: Pos)
    requires Deletable(s)
    ensures var (r, c) := DeletedAlong(s, RectPositions(start, end));
      forall q :: InRect(start, end, q) ==> GetUnitOnTile(r, q) == NO_UNIT
    ensures TilesHoldUnits(s) && PlacedUnloaded(s) ==>
      var (r, c) := DeletedAlong(s, RectPositions(start, end));
      c == |Occupied(s, RectPositions(start, end))| &&
      forall q :: !InRect(start, end, q) ==> GetUnitOnTile(r, q) == GetUnitOnTile(s, q)
  {
    var ps := RectPositions(start, end);
    DeleteOnTileSteps();
    VisitClears(s, ps, DeleteOnTile);
    forall q ensures q in ps <==> InRect(start, end, q)
    {
      RectPositionsCover(start, end, q);
    }
    if TilesHoldUnits(s) && PlacedUnloaded(s) {
      VisitCounts(s, ps, DeleteOnTile);
    }
  }

  // ------------------------------------------------------------------
  // rectangleFillUnits
  // ------------------------------------------------------------------

  /** waitUnit: sets the waiting flag of a unit that exists; any other ID changes nothing. */
  function WaitUnit(s: MapState, id: nat, waiting: bool): (r: MapState)
    ensures r == s.(units := r.units) && r.units.Keys == s.units.Keys
    ensures id in s.units ==> r.units[id].waiting == waiting
    ensures forall u :: u in s.units ==> r.units[u] == s.units[u].(waiting := r.units[u].waiting)
    ensures forall u :: u in s.units && u != id ==> r.units[u] == s.units[u]
  {
    if id !in s.units then s else s.(units := s.units[id := s.units[id].(waiting := waiting)])
  }

  /**
   * The body of rectangleFillUnits' loops on one tile: the unit on it, if
   * any, is deleted; then a new unit of the type and army is created, stops
   * waiting and moves onto the tile. It fails, leaving the map as the
   * deletion left it, when createUnit hands out NO_UNIT, or when the ID
   * bookkeeping is broken, which no operation of the model allows.
   */
  ghost function PlaceUnit(s: MapState, p: Pos, kind: UnitKind, army: nat): (MapState, bool)
  {
    PlaceNewUnit(DeleteOnTile(s, p).0, p, kind, army)
  }

  /** The second half of that body: createUnit, waitUnit and setUnitPosition. */
  function PlaceNewUnit(t: MapState, p: Pos, kind: UnitKind, army: nat): (r: (MapState, bool))
    ensures !r.1 ==> r.0 == t
    ensures r.1 ==> army in t.armies && t.units.Keys <= r.0.units.Keys
  {
    if !ValidID(t.lastUnitID) || |t.units| >= UNIT_ID_MAX then (t, false)
    else
      var (t', id) := CreateUnit(t, kind, army);
      if id == NO_UNIT then (t', false)
      else (SetUnitPosition(WaitUnit(t', id, false), id, p), true)
  }

  /** rectangleFillUnits' filling of one tile, with the type and army fixed. */
  ghost function Placer(kind: UnitKind, army: nat): TileFill
  {
    (t: MapState, p: Pos) => PlaceUnit(t, p, kind, army)
  }

  /** The map rectangleFillUnits fills: the army is created from the country at index army unless it is on the map. */
  function WithArmy(s: MapState, army: nat, countries: seq<GameProperties.Country>): MapState
    requires army < |countries|
  {
    if army in s.armies then s else CreateArmy(s, Some(countries[army])).0
  }

  /**
   * rectangleFillUnits: fails, changing nothing, for a null type, NO_ARMY,
   * a corner out of bounds, or an army index beyond the countries; otherwise
   * creates the army if it is missing, then on every tile of the rectangle,
   * column by column, replaces the unit with a new one of the type and army,
   * and reports whether every unit could be created.
   */
  ghost method RectangleFillUnits(s: MapState, start: Pos, end: Pos, kind: Option<UnitKind>, army: nat,
                                  countries: seq<GameProperties.Country>)
    returns (r: MapState, res: Result<bool, FillError>)
    ensures res == Failure(NoType) <==> kind.None?
    ensures res == Failure(NoArmy) <==> kind.Some? && army == NO_ARMY
    ensures res == Failure(StartOutOfBounds) <==> kind.Some? && army != NO_ARMY && !InBounds(s, start)
    ensures res == Failure(EndOutOfBounds) <==>
      kind.Some? && army != NO_ARMY && InBounds(s, start) && !InBounds(s, end)
    ensures res == Failure(UnknownArmy) <==>
      kind.Some? && army != NO_ARMY && InBounds(s, start) && InBounds(s, end) && |countries| <= army
    ensures res.Failure? ==> r == s
    ensures res.Success? ==> (army < |countries| &&
      (r, res.value) == FillAlong(WithArmy(s, army, countries), RectPositions(start, end), Placer(kind.value, army)))
  {
    if kind.None? {
      return s, Failure(NoType);
    }
    if army == NO_ARMY {
      return s, Failure(NoArmy);
    }
    if !InBounds(s, start) {
      return s, Failure(StartOutOfBounds);
    }
    if !InBounds(s, end) {
      return s, Failure(EndOutOfBounds);
    }
    if |countries| <= army {
      return s, Failure(UnknownArmy);
    }
    var t := s;
    if army !in s.armies {
      t := CreateArmy(s, Some(countries[army])).0;
    }
    var ok;
    r, ok := FillRectangle(t, start, end, Placer(kind.value, army));
    res := Success(ok);
  }

  /** The tile holds a unit of the type and army that is not waiting, as rectangleFillUnits leaves it. */
  ghost predicate HoldsNew(s: MapState, q: Pos, kind: UnitKind, army: nat)
  {
    var u := GetUnitOnTile(s, q);
    u != NO_UNIT && s.units[u].kind == kind && s.units[u].army == army && !s.units[u].waiting
  }

  /** What deleting the unit on p leaves for the unit to be placed there. */
  lemma DeleteOnTileForPlacement(s: MapState, p: Pos, q: Pos, kind: UnitKind, army: nat)
    requires Consistent(s) && PlacedUnloaded(s)
    ensures var t := DeleteOnTile(s, p).0;
      Consistent(t) && PlacedUnloaded(t) && t.armies.Keys == s.armies.Keys && |t.units| <= |s.units| &&
      SameShape(s, t) && (InBounds(s, p) ==> TileAt(t, p).unit == NO_UNIT) &&
      (q != p ==> (GetUnitOnTile(t, q) == GetUnitOnTile(s, q) &&
                   (HoldsNew(s, q, kind, army) ==> HoldsNew(t, q, kind, army))))
  {
    var u := GetUnitOnTile(s, p);
    DeleteOnTileClears(s, p, q);
    DeleteOnTileKeepsOthers(s, p, q);
    if u != NO_UNIT {
      DeleteUnitConsistent(s, u);
      DeleteUnitEffect(s, u);
      var t := DeleteUnit(s, u);
      assert |t.units| == |t.units.Keys| <= |s.units.Keys| == |s.units| by {
        assert t.units.Keys <= s.units.Keys;
        SubsetCardinality(t.units.Keys, s.units.Keys);
      }
    }
  }

  /** setUnitPosition of a unit that is neither on the map nor capturing onto an empty tile is the bare move. */
  lemma PlaceIsMove(w: MapState, id: nat, p: Pos)
    requires Shaped(w) && UnitsOnTiles(w) && TilesHoldUnits(w) && InBounds(w, p) && TileAt(w, p).unit == NO_UNIT
    requires id in w.units && id != NO_UNIT && !IsOnMap(w.units[id]) && !w.units[id].capturing
    ensures Movable(w, id, p) && SetUnitPosition(w, id, p) == Moved(w, id, p)
  {
    assert GetUnitOnTile(w, p) == NO_UNIT;
    FreeTargetMovable(w, id, p);
    SetUnitPositionCases(w, id, p);
    assert UpdateCapturingUnit(w, id) == w;
  }

  /** Moving a unit that is neither on the map, loaded nor capturing onto an empty tile p. */
  lemma PlaceCreated(w: MapState, id: nat, p: Pos, q: Pos)
    requires Consistent(w) && PlacedUnloaded(w) && InBounds(w, p) && TileAt(w, p).unit == NO_UNIT
    requires id in w.units && !IsOnMap(w.units[id]) && !IsLoaded(w.units[id]) && !w.units[id].capturing
    ensures var r := SetUnitPosition(w, id, p);
      Consistent(r) && PlacedUnloaded(r) && r.armies == w.armies && SameShape(w, r) &&
      r.units == w.units[id := w.units[id].(position := p)] && GetUnitOnTile(r, p) == id &&
      (q != p ==> GetUnitOnTile(r, q) == GetUnitOnTile(w, q))
  {
    PlaceIsMove(w, id, p);
    MovedPlaced(w, id, p, q);
  }

  lemma MovedPlaced(w: MapState, id: nat, p: Pos, q: Pos)
    requires Consistent(w) && PlacedUnloaded(w) && Movable(w, id, p) && InBounds(w, p)
    requires !IsOnMap(w.units[id]) && !IsLoaded(w.units[id])
    ensures var r := Moved(w, id, p);
      Consistent(r) && PlacedUnloaded(r) && r.armies == w.armies && SameShape(w, r) &&
      r.units == w.units[id := w.units[id].(position := p)] && GetUnitOnTile(r, p) == id &&
      (q != p ==> GetUnitOnTile(r, q) == GetUnitOnTile(w, q))
  {
    MovedConsistent(w, id, p);
    MovedOccupants(w, id, p, q);
  }

  lemma MovedOccupants(w: MapState, id: nat, p: Pos, q: Pos)
    requires Shaped(w) && PlacedUnloaded(w) && Movable(w, id, p) && InBounds(w, p)
    requires !IsOnMap(w.units[id]) && !IsLoaded(w.units[id])
    ensures var r := Moved(w, id, p);
      PlacedUnloaded(r) && r.armies == w.armies && SameShape(w, r) &&
      r.units == w.units[id := w.units[id].(position := p)] && TileAt(r, p).unit == id &&
      (q != p ==> TileAt(r, q).unit == TileAt(w, q).unit)
  {
    MovedRecord(w, id, p);
    MovedTiles(w, id, p, p);
    MovedTiles(w, id, p, q);
  }

  /** Making the new unit stop waiting keeps the map consistent and its units on the map unloaded. */
  lemma Waited(t: MapState, t': MapState, id: nat, kind: UnitKind, army: nat)
    requires PlacedUnloaded(t) && Consistent(t') && t'.units == t.units[id := NewUnit(kind, army)]
    ensures var w := WaitUnit(t', id, false);
      Consistent(w) && PlacedUnloaded(w) && w.units == t.units[id := NewUnit(kind, army).(waiting := false)]
  {
    var w := WaitUnit(t', id, false);
    WaitUnitLinks(t', id, false);
    SameLinksConsistent(t', w);
    WaitedUnits(t, t', id, kind, army);
  }

  lemma WaitedUnits(t: MapState, t': MapState, id: nat, kind: UnitKind, army: nat)
    requires PlacedUnloaded(t) && t'.units == t.units[id := NewUnit(kind, army)]
    ensures var w := WaitUnit(t', id, false);
      PlacedUnloaded(w) && w.units == t.units[id := NewUnit(kind, army).(waiting := false)]
  {
    var u := NewUnit(kind, army);
    assert t'.units[id] == u;
    var w := WaitUnit(t', id, false);
    assert w.units == t'.units[id := u.(waiting := false)];
    assert t'.units[id := u.(waiting := false)] == t.units[id := u.(waiting := false)];
  }

  /** waitUnit changes nothing consistency speaks of. */
  lemma WaitUnitLinks(s: MapState, id: nat, waiting: bool)
    ensures SameLinks(s, WaitUnit(s, id, waiting))
  {
    var w := WaitUnit(s, id, waiting);
    assert forall p :: TileAt(w, p) == TileAt(s, p);
  }

  /** createUnit with the army on the map and an ID to spare: a fresh unit, off the map, on a consistent map. */
  lemma Created(t: MapState, kind: UnitKind, army: nat)
    requires Consistent(t) && army in t.armies && |t.units| < UNIT_ID_MAX - 1
    ensures var (t', id) := CreateUnit(t, kind, army);
      ValidID(t.lastUnitID) && id != NO_UNIT && id !in t.units && Consistent(t') &&
      t'.units == t.units[id := NewUnit(kind, army)] && t'.tiles == t.tiles &&
      t'.width == t.width && t'.height == t.height && army in t'.armies
  {
    CreateUnitEffect(t, kind, army);
    CreateUnitConsistent(t, kind, army);
  }

  /** Creating the unit, making it stop waiting and moving it onto an empty tile p. */
  lemma CreateAndPlace(t: MapState, p: Pos, q: Pos, kind: UnitKind, army: nat)
    requires Consistent(t) && PlacedUnloaded(t) && InBounds(t, p) && TileAt(t, p).unit == NO_UNIT
    requires army in t.armies && |t.units| < UNIT_ID_MAX - 1
    ensures var (r, ok) := PlaceNewUnit(t, p, kind, army);
      ok && Consistent(r) && PlacedUnloaded(r) && army in r.armies &&
      |r.units| == |t.units| + 1 && HoldsNew(r, p, kind, army) && SameShape(t, r) &&
      (q != p ==> (GetUnitOnTile(r, q) == GetUnitOnTile(t, q) &&
                   (HoldsNew(t, q, kind, army) ==> HoldsNew(r, q, kind, army))))
  {
    var (t', id) := CreateUnit(t, kind, army);
    Created(t, kind, army);
    Waited(t, t', id, kind, army);
    PlacedAfterCreation(t, WaitUnit(t', id, false), id, p, q, kind, army);
    assert |t.units.Keys + {id}| == |t.units| + 1;
  }

  lemma PlacedAfterCreation(t: MapState, w: MapState, id: nat, p: Pos, q: Pos, kind: UnitKind, army: nat)
    requires PlacedUnloaded(t) && InBounds(t, p) && TileAt(t, p).unit == NO_UNIT && id !in t.units && id != NO_UNIT
    requires Consistent(w) && PlacedUnloaded(w) && w.units == t.units[id := NewUnit(kind, army).(waiting := false)]
    requires w.tiles == t.tiles && w.width == t.width && w.height == t.height && army in w.armies
    ensures var r := SetUnitPosition(w, id, p);
      Consistent(r) && PlacedUnloaded(r) && army in r.armies &&
      r.units.Keys == t.units.Keys + {id} && GetUnitOnTile(r, p) == id && HoldsNew(r, p, kind, army) &&
      SameShape(t, r) &&
      (q != p ==> (GetUnitOnTile(r, q) == GetUnitOnTile(t, q) &&
                   (HoldsNew(t, q, kind, army) ==> HoldsNew(r, q, kind, army))))
  {
    PlaceCreated(w, id, p, q);
    var r := SetUnitPosition(w, id, p);
    FinishPlacement(t, w, r, id, p, q, kind, army);
  }

  lemma FinishPlacement(t: MapState, w: MapState, r: MapState, id: nat, p: Pos, q: Pos, kind: UnitKind, army: nat)
    requires InBounds(t, p) && id !in t.units && id != NO_UNIT
    requires w.units == t.units[id := NewUnit(kind, army).(waiting := false)]
    requires w.tiles == t.tiles && w.width == t.width && w.height == t.height && army in w.armies
    requires r.armies == w.armies && SameShape(w, r) && r.units == w.units[id := w.units[id].(position := p)]
    requires GetUnitOnTile(r, p) == id && (q != p ==> GetUnitOnTile(r, q) == GetUnitOnTile(w, q))
    ensures army in r.armies && r.units.Keys == t.units.Keys + {id} && HoldsNew(r, p, kind, army) && SameShape(t, r)
    ensures q != p ==> (GetUnitOnTile(r, q) == GetUnitOnTile(t, q) &&
                        (HoldsNew(t, q, kind, army) ==> HoldsNew(r, q, kind, army)))
  {
    if q != p {
      assert InBounds(w, q) == InBounds(t, q) && TileAt(w, q) == TileAt(t, q);
    }
  }

  /**
   * One tile of rectangleFillUnits on a consistent map whose army is on the
   * map, with an ID to spare: the unit on it is replaced by a new one of the
   * type and army that is not waiting, the map stays consistent, and every
   * other tile keeps its unit.
   */
  lemma PlaceUnitEffect(s: MapState, p: Pos, q: Pos, kind: UnitKind, army: nat)
    requires Consistent(s) && PlacedUnloaded(s) && InBounds(s, p) && army in s.armies && |s.units| < UNIT_ID_MAX - 1
    ensures var (r, ok) := PlaceUnit(s, p, kind, army);
      ok && Consistent(r) && PlacedUnloaded(r) && army in r.armies && |r.units| <= |s.units| + 1 &&
      SameShape(s, r) && HoldsNew(r, p, kind, army) &&
      (q != p ==> (GetUnitOnTile(r, q) == GetUnitOnTile(s, q) &&
                   (HoldsNew(s, q, kind, army) ==> HoldsNew(r, q, kind, army))))
  {
    var t := DeleteOnTile(s, p).0;
    DeleteOnTileForPlacement(s, p, q, kind, army);
    CreateAndPlace(t, p, q, kind, army);
  }

  /** A map PlaceUnit can fill a tile p of: consistent, with the army on it and an ID to spare. */
  ghost predicate Placeable(t: MapState, p: Pos, army: nat)
  {
    Consistent(t) && PlacedUnloaded(t) && InBounds(t, p) && army in t.armies && |t.units| < UNIT_ID_MAX - 1
  }

  /** A fill that puts a new unit of the type and army on its tile, keeping the map placeable elsewhere. */
  ghost predicate PlacesOnTile(fill: TileFill, kind: UnitKind, army: nat)
  {
    forall t: MapState, p: Pos {:trigger fill(t, p)} :: Placeable(t, p, army) ==>
      var (r, ok) := fill(t, p);
      ok && Consistent(r) && PlacedUnloaded(r) && army in r.armies && |r.units| <= |t.units| + 1 &&
      SameShape(t, r) && HoldsNew(r, p, kind, army)
  }

  /** A fill that leaves every other tile's unit alone. */
  ghost predicate KeepsOtherUnits(fill: TileFill, kind: UnitKind, army: nat)
  {
    forall t: MapState, p: Pos, q: Pos {:trigger GetUnitOnTile(fill(t, p).0, q)} :: Placeable(t, p, army) && q != p ==>
      GetUnitOnTile(fill(t, p).0, q) == GetUnitOnTile(t, q) &&
      (HoldsNew(t, q, kind, army) ==> HoldsNew(fill(t, p).0, q, kind, army))
  }

  /** rectangleFillUnits' filling of one tile is such a fill. */
  lemma PlacerPlaces(kind: UnitKind, army: nat)
    ensures PlacesOnTile(Placer(kind, army), kind, army) && KeepsOtherUnits(Placer(kind, army), kind, army)
  {
    forall t: MapState, p: Pos, q: Pos | Placeable(t, p, army)
      ensures var (r, ok) := PlaceUnit(t, p, kind, army);
        ok && Consistent(r) && PlacedUnloaded(r) && army in r.armies && |r.units| <= |t.units| + 1 &&
        SameShape(t, r) && HoldsNew(r, p, kind, army) &&
        (q != p ==> (GetUnitOnTile(r, q) == GetUnitOnTile(t, q) &&
                     (HoldsNew(t, q, kind, army) ==> HoldsNew(r, q, kind, army))))
    {
      PlaceUnitEffect(t, p, q, kind, army);
    }
  }

  /**
   * Filling the tiles of ps, all in bounds, with such a fill on a consistent
   * map whose army is on the map and with enough IDs to spare: every fill
   * succeeds, every tile of ps ends up holding a new unit of the type and
   * army, and every other tile keeps its unit.
   */
  lemma {:induction false} PlacedAlong(s: MapState, ps: seq<Pos>, fill: TileFill, kind: UnitKind, army: nat)
    requires PlacesOnTile(fill, kind, army) && KeepsOtherUnits(fill, kind, army)
    requires Consistent(s) && PlacedUnloaded(s) && army in s.armies && |s.units| + |ps| < UNIT_ID_MAX - 1
    requires forall q :: q in ps ==> InBounds(s, q)
    ensures var (r, ok) := FillAlong(s, ps, fill);
      ok && Consistent(r) && PlacedUnloaded(r) && army in r.armies && |r.units| <= |s.units| + |ps| &&
      SameShape(s, r) && (forall q :: q in ps ==> HoldsNew(r, q, kind, army)) &&
      (forall q :: q !in ps ==> GetUnitOnTile(r, q) == GetUnitOnTile(s, q))
    decreases |ps|
  {
    if |ps| > 0 {
      var front, p := ps[..|ps| - 1], ps[|ps| - 1];
      assert ps == front + [p];
      PlacedAlong(s, front, fill, kind, army);
      var t := FillAlong(s, front, fill).0;
      assert p in ps && InBounds(s, p);
      assert Placeable(t, p, army);
    }
  }

  /**
   * rectangleFillUnits with its arguments accepted, on a consistent map
   * whose army is on the map or is created under its own index, with enough
   * IDs to spare: it reports success, the map stays consistent, every tile
   * of the rectangle holds a new unit of the type and army that is not
   * waiting, and every tile outside it keeps its unit.
   */
  lemma RectangleFillUnitsEffect(s: MapState, start: Pos, end: Pos, kind: UnitKind, army: nat,
                                 countries: seq<GameProperties.Country>)
    requires Consistent(s) && PlacedUnloaded(s) && InBounds(s, start) && InBounds(s, end) && army < |countries|
    requires army in s.armies || (army != NO_ARMY && countries[army].turnOrder == army && Unclaimed(s, army))
    requires |s.units| + |RectPositions(start, end)| < UNIT_ID_MAX - 1
    ensures var (r, ok) := FillAlong(WithArmy(s, army, countries), RectPositions(start, end), Placer(kind, army));
      ok && Consistent(r) && (forall q :: InRect(start, end, q) ==> HoldsNew(r, q, kind, army)) &&
      (forall q :: !InRect(start, end, q) ==> GetUnitOnTile(r, q) == GetUnitOnTile(s, q))
  {
    var t := WithArmy(s, army, countries);
    var ps := RectPositions(start, end);
    WithArmyEffect(s, army, countries);
    forall q ensures q in ps <==> InRect(start, end, q)
    {
      RectPositionsCover(start, end, q);
    }
    forall q | q in ps ensures InBounds(t, q)
    {
      RectInBounds(start, end, q, t.width, t.height);
    }
    PlacerPlaces(kind, army);
    PlacedAlong(t, ps, Placer(kind, army), kind, army);
  }

  /** Creating the army, when needed, under its own index keeps the map consistent and the units where they are. */
  lemma WithArmyEffect(s: MapState, army: nat, countries: seq<GameProperties.Country>)
    requires Consistent(s) && PlacedUnloaded(s) && army < |countries|
    requires army in s.armies || (army != NO_ARMY && countries[army].turnOrder == army && Unclaimed(s, army))
    ensures var t := WithArmy(s, army, countries);
      Consistent(t) && PlacedUnloaded(t) && army in t.armies &&
      t.units == s.units && t.tiles == s.tiles && t.width == s.width && t.height == s.height &&
      forall q :: GetUnitOnTile(t, q) == GetUnitOnTile(s, q)
  {
    var t := WithArmy(s, army, countries);
    if army !in s.armies {
      CreateArmyConsistent(s, Some(countries[army]));
      CreateArmyEffect(s, Some(countries[army]));
    }
    SameGridUnits(s, t);
  }

  /** Two maps with the same grid and units agree on every tile's unit. */
  lemma SameGridUnits(s: MapState, t: MapState)
    requires t.units == s.units && t.tiles == s.tiles && t.width == s.width && t.height == s.height
    ensures forall q :: GetUnitOnTile(t, q) == GetUnitOnTile(s, q)
  {
    forall q ensures GetUnitOnTile(t, q) == GetUnitOnTile(s, q)
    {
      assert InBounds(t, q) == InBounds(s, q) && TileAt(t, q) == TileAt(s, q);
    }
  }
}
