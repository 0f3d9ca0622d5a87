/**
 * The state of an awe::map as its operations see it, and the bookkeeping
 * those operations keep consistent: the tile grid (a vector of columns),
 * the unit table, the army table, the selected-unit stack and the other
 * fields the core operations read or write. The operations themselves live
 * in the modules that import this one, each as a function from the old state
 * to the new, with lemmas showing that it keeps the map consistent.
 */
module MapData {
  import opened Wrappers
  import opened Integers
  import opened MapEntities
  import opened MapGeometry
  import PathFinding
  import UnitIDs

  /** awe::available_tile_shader. */
  datatype TileShader = NoShader | Yellow | Red

  /** One entry of the selected-unit stack (selected_unit_render_data). */
  datatype Frame = Frame(selectedUnit: nat, availableTiles: set<Pos>, shader: TileShader,
                         closedList: seq<PathFinding.ClosedListNode>)

  /** A frame as constructed, and as clearState leaves it. */
  const NEW_FRAME: Frame := Frame(NO_UNIT, {}, NoShader, [])

  /** The fields of awe::map that the modelled operations read or write. */
  datatype MapState = MapState(
    width: UInt32, height: UInt32,        // _mapSizeCache
    tiles: seq<seq<Tile>>,                // _tiles, indexed [x][y]
    units: map<nat, Unit>,                // _units
    armies: map<nat, Army>,               // _armies, ordered by ID
    teamIDCounter: UInt32,                // _teamIDCounter
    lastUnitID: UInt32,                   // _lastUnitID
    mapName: string,                      // _mapName
    sel: Pos,                             // _sel
    rectStart: Option<Pos>,               // _startOfRectSel
    rectEnd: Option<Pos>,                 // _endOfRectSel
    frames: seq<Frame>,                   // _selectedUnitRenderData, top last
    currentArmy: nat,                     // _currentArmy
    armyOverride: Option<nat>,            // _currentArmyOverride
    scriptFiles: map<string, string>)     // _scriptFiles

  /** The tile a blank grid position reads as; no position in bounds of a consistent map ever reads it. */
  const BLANK_TILE: Tile := NewTile(TileKind("", 0), NO_ARMY)

  predicate InBounds(s: MapState, p: Pos)
  {
    !OutOfBounds(p, s.width, s.height)
  }

  /** _tiles[x][y]. */
  function TileAt(s: MapState, p: Pos): Tile
  {
    if p.x < |s.tiles| && p.y < |s.tiles[p.x]| then s.tiles[p.x][p.y] else BLANK_TILE
  }

  /** The state with the tile at p replaced; nothing else changes. */
  function WithTile(s: MapState, p: Pos, t: Tile): (r: MapState)
    ensures r == s.(tiles := r.tiles)
    ensures |r.tiles| == |s.tiles| && forall x :: 0 <= x < |s.tiles| ==> |r.tiles[x]| == |s.tiles[x]|
    ensures forall q :: TileAt(r, q) == if q == p && p.x < |s.tiles| && p.y < |s.tiles[p.x]| then t else TileAt(s, q)
  {
    if p.x < |s.tiles| && p.y < |s.tiles[p.x]| then s.(tiles := s.tiles[p.x := s.tiles[p.x][p.y := t]]) else s
  }

  /** The top of the selected-unit stack. */
  function Top(s: MapState): Frame
  {
    if |s.frames| == 0 then NEW_FRAME else s.frames[|s.frames| - 1]
  }

  /** The state with the top of the selected-unit stack replaced. */
  function WithTop(s: MapState, f: Frame): (r: MapState)
    requires |s.frames| > 0
    ensures r == s.(frames := r.frames) && |r.frames| == |s.frames| && Top(r) == f
    ensures r.frames[..|r.frames| - 1] == s.frames[..|s.frames| - 1]
  {
    s.(frames := s.frames[|s.frames| - 1 := f])
  }

  /**
   * getUnitOnTile: the unit the tile records, if that unit is on the map;
   * NO_UNIT off the map or when the tile records none.
   */
  function GetUnitOnTile(s: MapState, p: Pos): (r: nat)
    ensures !InBounds(s, p) ==> r == NO_UNIT
    ensures r != NO_UNIT ==> r == TileAt(s, p).unit && r in s.units && IsOnMap(s.units[r])
    ensures InBounds(s, p) && TileAt(s, p).unit in s.units && IsOnMap(s.units[TileAt(s, p).unit]) ==>
      r == TileAt(s, p).unit
  {
    if !InBounds(s, p) then NO_UNIT
    else
      var u := TileAt(s, p).unit;
      if u != NO_UNIT && u in s.units && IsOnMap(s.units[u]) then u else NO_UNIT
  }

  // ------------------------------------------------------------------
  // What the operations keep consistent
  // ------------------------------------------------------------------

  /** Every column holds exactly one tile per row. */
  ghost predicate Shaped(s: MapState)
  {
    |s.tiles| == s.width && forall x :: 0 <= x < |s.tiles| ==> |s.tiles[x]| == s.height
  }

  /** A unit on the map stands on a tile in bounds that records it. */
  ghost predicate UnitsOnTiles(s: MapState)
  {
    forall id :: id in s.units && IsOnMap(s.units[id]) ==>
      InBounds(s, s.units[id].position) && TileAt(s, s.units[id].position).unit == id
  }

  /** A tile that records a unit records one that stands on it. */
  ghost predicate TilesHoldUnits(s: MapState)
  {
    forall p :: InBounds(s, p) && TileAt(s, p).unit != NO_UNIT ==>
      TileAt(s, p).unit in s.units && s.units[TileAt(s, p).unit].position == p
  }

  /** An army's tile set holds tiles in bounds that it owns. */
  ghost predicate ArmiesOwnTiles(s: MapState)
  {
    forall a, p :: a in s.armies && p in s.armies[a].tiles ==> InBounds(s, p) && TileAt(s, p).owner == a
  }

  /** A tile owned by an army on the map is in that army's tile set. */
  ghost predicate OwnersListTiles(s: MapState)
  {
    forall p :: InBounds(s, p) && TileAt(s, p).owner in s.armies ==> p in s.armies[TileAt(s, p).owner].tiles
  }

  /** An army's unit set holds units of that army. */
  ghost predicate ArmiesOwnUnits(s: MapState)
  {
    forall a, u :: a in s.armies && u in s.armies[a].units ==> u in s.units && s.units[u].army == a
  }

  /** A unit whose army is on the map is in that army's unit set. */
  ghost predicate ArmiesListUnits(s: MapState)
  {
    forall u :: u in s.units && s.units[u].army in s.armies ==> u in s.armies[s.units[u].army].units
  }

  /** A loaded unit's carrier exists and lists it. */
  ghost predicate CarriersListLoads(s: MapState)
  {
    forall u :: u in s.units && IsLoaded(s.units[u]) ==>
      s.units[u].loadedOnto in s.units && u in s.units[s.units[u].loadedOnto].loaded
  }

  /** A unit a carrier lists exists and is loaded onto that carrier. */
  ghost predicate LoadsKnowCarriers(s: MapState)
  {
    forall c, u :: c in s.units && u in s.units[c].loaded ==> u in s.units && s.units[u].loadedOnto == c
  }

  /** loadedOnto and the carriers' loaded sets describe the same edges. */
  ghost predicate LoadLinks(s: MapState)
  {
    CarriersListLoads(s) && LoadsKnowCarriers(s)
  }

  /** Unit IDs are 32-bit and never NO_UNIT, there are no more than _findUnitID's limit, and no army is NO_ARMY. */
  ghost predicate IDs(s: MapState)
  {
    NO_UNIT !in s.units && (forall u :: u in s.units ==> UnitIDs.ValidID(u)) && |s.units| <= UNIT_ID_MAX - 1 &&
    UnitIDs.ValidID(s.lastUnitID) && NO_ARMY !in s.armies
  }

  /** The selected-unit stack is never empty, and its top selects nothing or a unit that exists. */
  ghost predicate Selection(s: MapState)
  {
    |s.frames| > 0 && (Top(s).selectedUnit == NO_UNIT || Top(s).selectedUnit in s.units)
  }

  /** rank decreases from a loaded unit to its carrier. */
  ghost predicate Ranked(units: map<nat, Unit>, rank: map<nat, nat>)
  {
    forall u :: u in units ==>
      u in rank && (units[u].loadedOnto in units ==> units[u].loadedOnto in rank && rank[units[u].loadedOnto] < rank[u])
  }

  /** No unit is loaded, directly or through other units, onto itself. */
  ghost predicate Acyclic(units: map<nat, Unit>)
  {
    exists rank :: Ranked(units, rank)
  }

  ghost predicate Consistent(s: MapState)
  {
    Shaped(s) && UnitsOnTiles(s) && TilesHoldUnits(s) && ArmiesOwnTiles(s) && OwnersListTiles(s) &&
    ArmiesOwnUnits(s) && ArmiesListUnits(s) && LoadLinks(s) && IDs(s) && Selection(s) && Acyclic(s.units)
  }

  // ------------------------------------------------------------------
  // What an operation leaves alone, and what that keeps consistent
  // ------------------------------------------------------------------

  /** Same dimensions and the same number of tiles in every column. */
  ghost predicate SameShape(s: MapState, r: MapState)
  {
    r.width == s.width && r.height == s.height && |r.tiles| == |s.tiles| &&
    forall x :: 0 <= x < |s.tiles| ==> |r.tiles[x]| == |s.tiles[x]|
  }

  /** Every tile records the same unit. */
  ghost predicate SameTileUnits(s: MapState, r: MapState)
  {
    forall p :: TileAt(r, p).unit == TileAt(s, p).unit
  }

  /** The same units, each at the same position. */
  ghost predicate SamePositions(s: MapState, r: MapState)
  {
    r.units.Keys == s.units.Keys && forall u :: u in s.units ==> r.units[u].position == s.units[u].position
  }

  /** Every tile has the same owner, and every army the same tile set. */
  ghost predicate SameOwners(s: MapState, r: MapState)
  {
    (forall p :: TileAt(r, p).owner == TileAt(s, p).owner) &&
    r.armies.Keys == s.armies.Keys && forall a :: a in s.armies ==> r.armies[a].tiles == s.armies[a].tiles
  }

  /** The same units and armies, each unit in the same army and each army with the same unit set. */
  ghost predicate SameArmyUnits(s: MapState, r: MapState)
  {
    r.units.Keys == s.units.Keys && (forall u :: u in s.units ==> r.units[u].army == s.units[u].army) &&
    r.armies.Keys == s.armies.Keys && forall a :: a in s.armies ==> r.armies[a].units == s.armies[a].units
  }

  /** The same units, each loaded onto the same unit and carrying the same units. */
  ghost predicate SameLoadEdges(s: MapState, r: MapState)
  {
    r.units.Keys == s.units.Keys &&
    forall u :: u in s.units ==> r.units[u].loaded == s.units[u].loaded && r.units[u].loadedOnto == s.units[u].loadedOnto
  }

  /** r differs from s at most in what consistency does not mention: HP, flags, funds, teams, names and the like. */
  ghost predicate SameLinks(s: MapState, r: MapState)
  {
    SameGround(s, r) && SameLoadEdges(s, r)
  }

  /** r differs from s at most in the load edges and in what consistency does not mention. */
  ghost predicate SameGround(s: MapState, r: MapState)
  {
    SameShape(s, r) && SameTileUnits(s, r) && SamePositions(s, r) && SameOwners(s, r) &&
    SameArmyUnits(s, r) && r.lastUnitID == s.lastUnitID && r.frames == s.frames
  }

  lemma ShapeKept(s: MapState, r: MapState)
    requires Shaped(s) && SameShape(s, r)
    ensures Shaped(r)
  {
  }

  lemma PlacementKept(s: MapState, r: MapState)
    requires UnitsOnTiles(s) && TilesHoldUnits(s) && SameShape(s, r) && SameTileUnits(s, r) && SamePositions(s, r)
    ensures UnitsOnTiles(r) && TilesHoldUnits(r)
  {
    assert forall p :: InBounds(s, p) == InBounds(r, p);
  }

  lemma OwnershipKept(s: MapState, r: MapState)
    requires ArmiesOwnTiles(s) && OwnersListTiles(s) && SameShape(s, r) && SameOwners(s, r)
    ensures ArmiesOwnTiles(r) && OwnersListTiles(r)
  {
    assert forall p :: InBounds(s, p) == InBounds(r, p);
  }

  lemma MembershipKept(s: MapState, r: MapState)
    requires ArmiesOwnUnits(s) && ArmiesListUnits(s) && SameArmyUnits(s, r)
    ensures ArmiesOwnUnits(r) && ArmiesListUnits(r)
  {
  }

  lemma LoadsKept(s: MapState, r: MapState)
    requires LoadLinks(s) && SameLoadEdges(s, r)
    ensures LoadLinks(r)
  {
    assert CarriersListLoads(r) by {
      forall u | u in r.units && IsLoaded(r.units[u])
        ensures r.units[u].loadedOnto in r.units && u in r.units[r.units[u].loadedOnto].loaded
      {
        assert IsLoaded(s.units[u]);
      }
    }
  }

  lemma AcyclicKept(s: MapState, r: MapState)
    requires Acyclic(s.units) && SameLoadEdges(s, r)
    ensures Acyclic(r.units)
  {
    var rank :| Ranked(s.units, rank);
    assert Ranked(r.units, rank);
  }

  lemma IDsKept(s: MapState, r: MapState)
    requires IDs(s) && r.units.Keys == s.units.Keys && r.armies.Keys == s.armies.Keys && r.lastUnitID == s.lastUnitID
    ensures IDs(r)
  {
    assert |r.units| == |r.units.Keys|;
  }

  lemma SelectionKept(s: MapState, r: MapState)
    requires Selection(s) && r.units.Keys == s.units.Keys && r.frames == s.frames
    ensures Selection(r)
  {
  }

  /** Consistency only depends on the links, which the other fields can change around freely. */
  lemma SameLinksConsistent(s: MapState, r: MapState)
    requires Consistent(s) && SameLinks(s, r)
    ensures Consistent(r)
  {
    LoadsKept(s, r);
    AcyclicKept(s, r);
    SameGroundConsistent(s, r);
  }

  /** With the ground unchanged, consistency rests on the load edges alone. */
  lemma SameGroundConsistent(s: MapState, r: MapState)
    requires Consistent(s) && SameGround(s, r) && LoadLinks(r) && Acyclic(r.units)
    ensures Consistent(r)
  {
    ShapeKept(s, r);
    PlacementKept(s, r);
    OwnershipKept(s, r);
    MembershipKept(s, r);
    IDsKept(s, r);
    SelectionKept(s, r);
  }

  // ------------------------------------------------------------------
  // Load chains
  // ------------------------------------------------------------------

  /** A rank witnessing acyclicity, fixed once per unit table. */
  ghost function SomeRank(units: map<nat, Unit>): (rank: map<nat, nat>)
    requires Acyclic(units)
    ensures Ranked(units, rank)
  {
    var rank :| Ranked(units, rank); rank
  }

  /** u is c, or is loaded (directly or through other units) onto c. */
  ghost predicate CarriedBy(units: map<nat, Unit>, rank: map<nat, nat>, u: nat, c: nat)
    requires Ranked(units, rank) && u in units
    decreases rank[u]
  {
    u == c || (units[u].loadedOnto in units && CarriedBy(units, rank, units[u].loadedOnto, c))
  }

  /** The units deleteUnit(id) removes: id and everything loaded on it, however deep. */
  ghost function Family(s: MapState, id: nat): (d: set<nat>)
    requires Acyclic(s.units)
    ensures d <= s.units.Keys
    ensures id in s.units ==> id in d
  {
    set u | u in s.units && CarriedBy(s.units, SomeRank(s.units), u, id)
  }

  /** Whatever a member of a family carries is in the family too. */
  lemma FamilyClosed(s: MapState, id: nat, c: nat, u: nat)
    requires Consistent(s) && c in Family(s, id) && u in s.units[c].loaded
    ensures u in Family(s, id)
  {
    assert s.units[u].loadedOnto == c;
  }

  /** A set of units is closed when whatever its members carry is in it. */
  ghost predicate DownClosed(s: MapState, d: set<nat>)
  {
    forall c, u :: c in d && c in s.units && u in s.units[c].loaded ==> u in d
  }

  lemma FamilyDownClosed(s: MapState, id: nat)
    requires Consistent(s)
    ensures DownClosed(s, Family(s, id))
  {
    forall c, u | c in Family(s, id) && c in s.units && u in s.units[c].loaded
      ensures u in Family(s, id)
    {
      FamilyClosed(s, id, c, u);
    }
  }

  // ------------------------------------------------------------------
  // _updateCapturingUnit and removing units
  // ------------------------------------------------------------------

  /**
   * _updateCapturingUnit: a unit that exists and is capturing stops
   * capturing, and the tile at its position, if that is in bounds, is
   * restored to its terrain's maximum HP; for any other ID nothing changes.
   */
  function UpdateCapturingUnit(s: MapState, id: nat): (r: MapState)
    ensures r == s.(tiles := r.tiles, units := r.units) && r.units.Keys == s.units.Keys
  {
    if id == NO_UNIT || id !in s.units || !s.units[id].capturing then s
    else
      var p := s.units[id].position;
      var s1 := if InBounds(s, p) then WithTile(s, p, TileAt(s, p).(hp := TileAt(s, p).kind.maxHP)) else s;
      s1.(units := s1.units[id := s1.units[id].(capturing := false)])
  }

  /** _updateCapturingUnit never changes what consistency speaks of. */
  lemma UpdateCapturingUnitLinks(s: MapState, id: nat)
    ensures SameLinks(s, UpdateCapturingUnit(s, id))
  {
  }

  /**
   * After _updateCapturingUnit(id) the unit is not capturing and every other
   * unit is as it was; the tile at its position has its terrain's maximum HP
   * if the unit was capturing there, and every other tile is as it was.
   */
  lemma UpdateCapturingUnitEffect(s: MapState, id: nat, q: Pos)
    ensures var r := UpdateCapturingUnit(s, id);
      (id in s.units && id != NO_UNIT ==> r.units == s.units[id := s.units[id].(capturing := false)]) &&
      (id !in s.units || id == NO_UNIT ==> r == s) &&
      TileAt(r, q) == if id != NO_UNIT && id in s.units && s.units[id].capturing && s.units[id].position == q && InBounds(s, q)
        then TileAt(s, q).(hp := TileAt(s, q).kind.maxHP) else TileAt(s, q)
  {
  }

  /**
   * _updateCapturingUnit for every unit in d: a capturing unit stops
   * capturing, and the tile it stands on is restored to its terrain's
   * maximum HP.
   */
  function StopCapturing(s: MapState, d: set<nat>): (r: MapState)
    ensures r == s.(tiles := r.tiles, units := r.units)
  {
    s.(tiles := seq(|s.tiles|, x requires 0 <= x < |s.tiles| =>
                  seq(|s.tiles[x]|, y requires 0 <= y < |s.tiles[x]| =>
                    var t := s.tiles[x][y];
                    if t.unit in d && t.unit in s.units && s.units[t.unit].capturing then t.(hp := t.kind.maxHP) else t)),
       units := map u | u in s.units :: if u in d then s.units[u].(capturing := false) else s.units[u])
  }

  /** Stopping captures never changes what consistency speaks of. */
  lemma StopCapturingLinks(s: MapState, d: set<nat>)
    ensures SameLinks(s, StopCapturing(s, d))
  {
  }

  /** What stopping captures does to the units and the tiles they stand on. */
  lemma StopCapturingEffect(s: MapState, d: set<nat>, u: nat, p: Pos)
    requires Consistent(s)
    ensures u in s.units ==> StopCapturing(s, d).units[u].capturing == (s.units[u].capturing && u !in d)
    ensures InBounds(s, p) ==>
      TileAt(StopCapturing(s, d), p).hp ==
        if TileAt(s, p).unit in d && TileAt(s, p).unit in s.units && s.units[TileAt(s, p).unit].capturing
        then TileAt(s, p).kind.maxHP else TileAt(s, p).hp
  {
  }

  /**
   * The state without the units in d: they leave the unit table, the tiles
   * that record them, their armies' unit sets and their carriers' loaded
   * sets; a top selection among them is cleared.
   */
  function Removed(s: MapState, d: set<nat>): (r: MapState)
    ensures r.units.Keys == s.units.Keys - d
    ensures r.armies.Keys == s.armies.Keys
  {
    var cleared := if Top(s).selectedUnit in d && |s.frames| > 0 then WithTop(s, NEW_FRAME).frames else s.frames;
    s.(tiles := seq(|s.tiles|, x requires 0 <= x < |s.tiles| =>
                  seq(|s.tiles[x]|, y requires 0 <= y < |s.tiles[x]| =>
                    if s.tiles[x][y].unit in d then s.tiles[x][y].(unit := NO_UNIT) else s.tiles[x][y])),
       units := map u | u in s.units && u !in d :: s.units[u].(loaded := s.units[u].loaded - d),
       armies := map a | a in s.armies :: s.armies[a].(units := s.armies[a].units - d),
       frames := cleared)
  }

  /** Removing a closed set of units keeps the map consistent. */
  lemma RemovedConsistent(s: MapState, d: set<nat>)
    requires Consistent(s) && DownClosed(s, d)
    ensures Consistent(Removed(s, d))
  {
    RemovedTiles(s, d);
    RemovedArmies(s, d);
    RemovedLoads(s, d);
    RemovedIDs(s, d);
    RemovedAcyclic(s, d);
  }

  lemma RemovedIDs(s: MapState, d: set<nat>)
    requires IDs(s) && Selection(s)
    ensures IDs(Removed(s, d)) && Selection(Removed(s, d))
  {
    var r := Removed(s, d);
    assert |r.units| == |r.units.Keys| && |s.units| == |s.units.Keys|;
    SubsetCardinality(r.units.Keys, s.units.Keys);
    RemovedFrames(s, d);
  }

  lemma RemovedFrames(s: MapState, d: set<nat>)
    requires Selection(s)
    ensures var r := Removed(s, d); r.lastUnitID == s.lastUnitID && Selection(r)
  {
  }

  lemma RemovedAcyclic(s: MapState, d: set<nat>)
    requires Acyclic(s.units)
    ensures Acyclic(Removed(s, d).units)
  {
    var rank :| Ranked(s.units, rank);
    assert Ranked(Removed(s, d).units, rank);
  }

  /**
   * What removing d does: the units of d leave the unit table, every tile,
   * every army's unit set and every remaining unit's loaded set; the top
   * selection is cleared if it was one of them and otherwise left alone.
   */
  lemma RemovedEffect(s: MapState, d: set<nat>)
    requires NO_UNIT !in d
    ensures var r := Removed(s, d);
      r.units.Keys == s.units.Keys - d &&
      (forall u :: u in r.units ==> r.units[u] == s.units[u].(loaded := s.units[u].loaded - d)) &&
      (forall p :: TileAt(r, p).unit !in d) &&
      r.armies.Keys == s.armies.Keys && (forall a :: a in r.armies ==> r.armies[a].units == s.armies[a].units - d) &&
      Top(r).selectedUnit !in d && (Top(s).selectedUnit !in d ==> r.frames == s.frames)
  {
    forall p ensures TileAt(Removed(s, d), p).unit !in d
    {
      RemovedTileAt(s, d, p);
    }
  }

  /** The tiles of the state without d: those that recorded a unit of d record none. */
  lemma RemovedTileAt(s: MapState, d: set<nat>, p: Pos)
    ensures TileAt(Removed(s, d), p) == if TileAt(s, p).unit in d then TileAt(s, p).(unit := NO_UNIT) else TileAt(s, p)
  {
  }

  lemma RemovedTiles(s: MapState, d: set<nat>)
    requires Shaped(s) && UnitsOnTiles(s) && TilesHoldUnits(s) && ArmiesOwnTiles(s) && OwnersListTiles(s)
    ensures var r := Removed(s, d); Shaped(r) && UnitsOnTiles(r) && TilesHoldUnits(r) && ArmiesOwnTiles(r) && OwnersListTiles(r)
  {
    var r := Removed(s, d);
    forall p ensures TileAt(r, p) == if TileAt(s, p).unit in d then TileAt(s, p).(unit := NO_UNIT) else TileAt(s, p)
    {
      RemovedTileAt(s, d, p);
    }
    assert forall p :: InBounds(s, p) == InBounds(r, p);
  }

  lemma RemovedArmies(s: MapState, d: set<nat>)
    requires ArmiesOwnUnits(s) && ArmiesListUnits(s)
    ensures ArmiesOwnUnits(Removed(s, d)) && ArmiesListUnits(Removed(s, d))
  {
  }

  lemma RemovedLoads(s: MapState, d: set<nat>)
    requires LoadLinks(s) && DownClosed(s, d)
    ensures LoadLinks(Removed(s, d))
  {
    RemovedCarriers(s, d);
    RemovedLoadSets(s, d);
  }

  lemma RemovedCarriers(s: MapState, d: set<nat>)
    requires LoadLinks(s) && DownClosed(s, d)
    ensures CarriersListLoads(Removed(s, d))
  {
    var r := Removed(s, d);
    forall u | u in r.units && IsLoaded(r.units[u])
      ensures r.units[u].loadedOnto in r.units && u in r.units[r.units[u].loadedOnto].loaded
    {
      assert s.units[u].loadedOnto !in d;
    }
  }

  lemma RemovedLoadSets(s: MapState, d: set<nat>)
    requires LoadsKnowCarriers(s)
    ensures LoadsKnowCarriers(Removed(s, d))
  {
  }
}
