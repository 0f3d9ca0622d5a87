/**
 * The unit operations of awe::map: creating and deleting units, moving
 * them, loading them onto and unloading them from other units, following a
 * unit to its outermost carrier and computing its vision. Each is a
 * function from the old map state to the new one, and each keeps the map
 * consistent.
 */
module MapUnits {
  import opened Wrappers
  import opened Integers
  import opened MapEntities
  import opened MapGeometry
  import opened MapData
  import opened UnitIDs

  // ------------------------------------------------------------------
  // createUnit
  // ------------------------------------------------------------------

  /** The state with unit u added under the ID id, listed in its army's unit set, with id as the last ID handed out. */
  function Added(s: MapState, id: nat, u: Unit): MapState
    requires ValidID(id) && u.army in s.armies
  {
    s.(units := s.units[id := u],
       armies := s.armies[u.army := s.armies[u.army].(units := s.armies[u.army].units + {id})],
       lastUnitID := id)
  }

  /**
   * createUnit: NO_UNIT and no change when the army does not exist or no
   * ID is left; otherwise a new unit takes the ID _findUnitID hands out and
   * joins its army.
   */
  function CreateUnit(s: MapState, kind: UnitKind, army: nat): (r: (MapState, nat))
    requires ValidID(s.lastUnitID) && |s.units| < UNIT_ID_MAX
    ensures r.1 == NO_UNIT ==> r.0 == s
    ensures r.1 != NO_UNIT ==>
      ValidID(r.1) && army in s.armies && r.0.units.Keys == s.units.Keys + {r.1} && r.0.lastUnitID == r.1
  {
    if army !in s.armies then (s, NO_UNIT)
    else match NextUnitID(s.units.Keys, s.lastUnitID)
      case None => (s, NO_UNIT)
      case Some(id) => (Added(s, id, NewUnit(kind, army)), id)
  }

  /**
   * createUnit as written: as CreateUnit, but with the ID _findUnitID as
   * written hands out, which can be NO_UNIT.
   */
  function CreateUnitAsWritten(s: MapState, kind: UnitKind, army: nat): (r: (MapState, nat))
    requires |s.units| < UNIT_ID_MAX
    ensures r.1 != NO_UNIT ==> r.1 !in s.units
  {
    if army !in s.armies then (s, NO_UNIT)
    else match NextUnitIDAsWritten(s.units.Keys, s.lastUnitID)
      case None => (s, NO_UNIT)
      case Some(id) =>
        (s.(units := s.units[id := NewUnit(kind, army)],
            armies := s.armies[army := s.armies[army].(units := s.armies[army].units + {id})],
            lastUnitID := id), id)
  }

  /**
   * Below the largest last ID createUnit as written is CreateUnit, so every
   * property proved of CreateUnit holds of it there.
   */
  lemma CreateUnitAsWrittenAgrees(s: MapState, kind: UnitKind, army: nat)
    requires ValidID(s.lastUnitID) && s.lastUnitID < UNIT_ID_MAX && |s.units| < UNIT_ID_MAX
    ensures CreateUnitAsWritten(s, kind, army) == CreateUnit(s, kind, army)
  {
  }

  /**
   * After the largest ID, on a table that is neither empty nor full,
   * createUnit as written stores the new unit under NO_UNIT, returns
   * NO_UNIT as it does on failure, and leaves a map that is not consistent.
   */
  lemma CreateUnitAsWrittenTakesNoUnit(s: MapState, kind: UnitKind, army: nat)
    requires army in s.armies && s.lastUnitID == UNIT_ID_MAX && NO_UNIT !in s.units
    requires 0 < |s.units| < UNIT_ID_MAX - 1
    ensures var (r, id) := CreateUnitAsWritten(s, kind, army);
      id == NO_UNIT && NO_UNIT in r.units && r.lastUnitID == NO_UNIT && !Consistent(r)
  {
    assert |s.units.Keys| == |s.units|;
    assert s.units.Keys != {};
  }

  /** The ID createUnit picks is valid and free. */
  lemma CreatedIDIsFresh(s: MapState)
    requires ValidID(s.lastUnitID) && |s.units| < UNIT_ID_MAX - 1 && forall u :: u in s.units ==> ValidID(u)
    ensures ValidID(NextUnitID(s.units.Keys, s.lastUnitID).value) && NextUnitID(s.units.Keys, s.lastUnitID).value !in s.units
  {
    assert |s.units.Keys| == |s.units|;
    if s.units.Keys != {} {
      NextUnitIDIsFirstFree(s.units.Keys, s.lastUnitID);
    }
  }

  /**
   * createUnit fails, changing nothing, exactly when the army is absent or
   * the table is full; otherwise the new unit is fresh, is the only unit
   * added, and joins its army's unit set.
   */
  lemma CreateUnitEffect(s: MapState, kind: UnitKind, army: nat)
    requires IDs(s)
    ensures var (r, id) := CreateUnit(s, kind, army);
      (id == NO_UNIT <==> army !in s.armies || |s.units| == UNIT_ID_MAX - 1) &&
      (id == NO_UNIT ==> r == s) &&
      (id != NO_UNIT ==>
        id !in s.units && r.units == s.units[id := NewUnit(kind, army)] && id in r.armies[army].units &&
        r.armies == s.armies[army := s.armies[army].(units := s.armies[army].units + {id})] &&
        r.lastUnitID == id && r.tiles == s.tiles && r.frames == s.frames)
  {
    assert |s.units.Keys| == |s.units|;
    if army in s.armies && |s.units| < UNIT_ID_MAX - 1 {
      CreatedIDIsFresh(s);
    }
  }

  lemma CreateUnitConsistent(s: MapState, kind: UnitKind, army: nat)
    requires Consistent(s)
    ensures Consistent(CreateUnit(s, kind, army).0)
  {
    assert |s.units.Keys| == |s.units|;
    if army in s.armies && |s.units| < UNIT_ID_MAX - 1 {
      CreatedIDIsFresh(s);
      AddedConsistent(s, NextUnitID(s.units.Keys, s.lastUnitID).value, NewUnit(kind, army));
    }
  }

  /** Adding, under a fresh ID, a unit that is off the map and neither carries nor is loaded keeps the map consistent. */
  lemma AddedConsistent(s: MapState, id: nat, u: Unit)
    requires Consistent(s) && ValidID(id) && id !in s.units && |s.units| < UNIT_ID_MAX - 1
    requires u.army in s.armies && !IsOnMap(u) && !IsLoaded(u) && u.loaded == {}
    ensures Consistent(Added(s, id, u))
  {
    var r := Added(s, id, u);
    AddedFrames(s, id, u);
    ShapeKept(s, r);
    OwnershipKept(s, r);
    AddedPlacement(s, id, u);
    AddedMembership(s, id, u);
    AddedLoads(s, id, u);
    AddedIDs(s, id, u);
    AddedAcyclic(s, id, u);
    SelectionGrows(s, r);
  }

  lemma AddedFrames(s: MapState, id: nat, u: Unit)
    requires ValidID(id) && u.army in s.armies
    ensures SameShape(s, Added(s, id, u)) && SameOwners(s, Added(s, id, u))
  {
  }

  lemma SelectionGrows(s: MapState, r: MapState)
    requires Selection(s) && s.units.Keys <= r.units.Keys && r.frames == s.frames
    ensures Selection(r)
  {
  }

  /** A unit added off the map changes no tile's occupancy. */
  lemma AddedPlacement(s: MapState, id: nat, u: Unit)
    requires UnitsOnTiles(s) && TilesHoldUnits(s) && ValidID(id) && id !in s.units && u.army in s.armies && !IsOnMap(u)
    ensures UnitsOnTiles(Added(s, id, u)) && TilesHoldUnits(Added(s, id, u))
  {
    var r := Added(s, id, u);
    assert forall p :: TileAt(r, p) == TileAt(s, p) && InBounds(r, p) == InBounds(s, p);
    forall p | InBounds(r, p) && TileAt(r, p).unit != NO_UNIT
      ensures TileAt(r, p).unit in r.units && r.units[TileAt(r, p).unit].position == p
    {
      assert TileAt(s, p).unit in s.units;
    }
  }

  lemma AddedMembership(s: MapState, id: nat, u: Unit)
    requires ArmiesOwnUnits(s) && ArmiesListUnits(s) && ValidID(id) && id !in s.units && u.army in s.armies
    ensures ArmiesOwnUnits(Added(s, id, u)) && ArmiesListUnits(Added(s, id, u))
  {
  }

  /** A unit added with no cargo and no carrier adds no load edge. */
  lemma AddedLoads(s: MapState, id: nat, u: Unit)
    requires LoadLinks(s) && ValidID(id) && id !in s.units && u.army in s.armies && !IsLoaded(u) && u.loaded == {}
    ensures LoadLinks(Added(s, id, u))
  {
    var r := Added(s, id, u);
    assert CarriersListLoads(r) by {
      forall v | v in r.units && IsLoaded(r.units[v])
        ensures r.units[v].loadedOnto in r.units && v in r.units[r.units[v].loadedOnto].loaded
      {
        assert v != id && s.units[v].loadedOnto in s.units;
      }
    }
    assert LoadsKnowCarriers(r) by {
      forall c, v | c in r.units && v in r.units[c].loaded ensures v in r.units && r.units[v].loadedOnto == c
      {
        assert c != id && v in s.units && s.units[v].loadedOnto == c;
      }
    }
  }

  lemma AddedIDs(s: MapState, id: nat, u: Unit)
    requires IDs(s) && ValidID(id) && id !in s.units && |s.units| < UNIT_ID_MAX - 1 && u.army in s.armies
    ensures IDs(Added(s, id, u))
  {
    assert |Added(s, id, u).units| == |s.units| + 1;
  }

  /** The new unit ranks below every other unit, which all move up one. */
  lemma AddedAcyclic(s: MapState, id: nat, u: Unit)
    requires Acyclic(s.units) && ValidID(id) && id !in s.units && NO_UNIT !in s.units && !IsLoaded(u) && u.army in s.armies
    ensures Acyclic(Added(s, id, u).units)
  {
    var rank :| Ranked(s.units, rank);
    var units := Added(s, id, u).units;
    var lifted := map v | v in units :: if v == id then 0 else rank[v] + 1;
    assert Ranked(units, lifted);
  }

  // ------------------------------------------------------------------
  // deleteUnit
  // ------------------------------------------------------------------

  /**
   * deleteUnit: a unit that does not exist changes nothing; otherwise the
   * unit and everything loaded onto it, however deep, stop capturing and
   * are removed from the map.
   */
  ghost function DeleteUnit(s: MapState, id: nat): (r: MapState)
    requires Acyclic(s.units)
    ensures id !in s.units ==> r == s
    ensures r.units.Keys <= s.units.Keys && id !in r.units
  {
    if id !in s.units then s
    else
      var d := Family(s, id);
      Removed(StopCapturing(s, d), d)
  }

  /** A unit is in id's family exactly when it is id or is loaded onto a member of the family. */
  lemma FamilyMembers(s: MapState, id: nat, u: nat)
    requires Acyclic(s.units)
    ensures u in Family(s, id) <==> u in s.units && (u == id || s.units[u].loadedOnto in Family(s, id))
  {
  }

  /**
   * After deleteUnit, the unit and its cargo are gone: from the unit table,
   * from every tile, from every army's unit set and from every loaded set;
   * the top of the selection stack does not select one of them; every other
   * unit is as it was, but for its loaded set.
   */
  lemma DeleteUnitEffect(s: MapState, id: nat)
    requires Acyclic(s.units) && NO_UNIT !in s.units && id in s.units
    ensures var r := DeleteUnit(s, id); var d := Family(s, id);
      id in d && r.units.Keys == s.units.Keys - d &&
      (forall u :: u in r.units ==> r.units[u] == s.units[u].(loaded := s.units[u].loaded - d)) &&
      (forall p :: TileAt(r, p).unit !in d) &&
      (forall a :: a in r.armies ==> r.armies[a].units == s.armies[a].units - d) &&
      r.armies.Keys == s.armies.Keys && Top(r).selectedUnit !in d
  {
    var d := Family(s, id);
    RemovedEffect(StopCapturing(s, d), d);
  }

  lemma DeleteUnitConsistent(s: MapState, id: nat)
    requires Consistent(s)
    ensures Consistent(DeleteUnit(s, id))
  {
    if id in s.units {
      var d := Family(s, id);
      var t := StopCapturing(s, d);
      StopCapturingLinks(s, d);
      SameLinksConsistent(s, t);
      FamilyDownClosed(s, id);
      assert DownClosed(t, d);
      RemovedConsistent(t, d);
    }
  }

  // ------------------------------------------------------------------
  // setUnitPosition
  // ------------------------------------------------------------------

  /** A target a unit can be moved to: off the map altogether, or a tile in bounds that records no unit. */
  ghost predicate Vacant(s: MapState, pos: Pos)
  {
    pos == NO_POSITION || (InBounds(s, pos) && TileAt(s, pos).unit == NO_UNIT)
  }

  /** A move that goes through: the unit exists and the target is vacant and not the tile it stands on. */
  ghost predicate Movable(s: MapState, id: nat, pos: Pos)
  {
    id in s.units && id != NO_UNIT && Vacant(s, pos) && (IsOnMap(s.units[id]) ==> s.units[id].position != pos)
  }

  /**
   * The three statements that move a unit: the tile at pos records it
   * (unless pos is NO_POSITION), the tile it stood on records no unit, and
   * its position becomes pos.
   */
  function Moved(s: MapState, id: nat, pos: Pos): MapState
    requires id in s.units
  {
    var u := s.units[id];
    var s2 := if pos != NO_POSITION then WithTile(s, pos, TileAt(s, pos).(unit := id)) else s;
    var s3 := if IsOnMap(u) then WithTile(s2, u.position, TileAt(s2, u.position).(unit := NO_UNIT)) else s2;
    s3.(units := s3.units[id := u.(position := pos)])
  }

  /** _updateCapturingUnit, then the move. */
  function Relocated(s: MapState, id: nat, pos: Pos): (r: MapState)
    requires id in s.units
    ensures r.units.Keys == s.units.Keys
  {
    Moved(UpdateCapturingUnit(s, id), id, pos)
  }

  /**
   * setUnitPosition: no change for a unit that does not exist, a position
   * off the map other than NO_POSITION, the tile the unit already occupies,
   * or a tile another unit occupies; otherwise the unit stops capturing and
   * moves.
   */
  function SetUnitPosition(s: MapState, id: nat, pos: Pos): (r: MapState)
    ensures r.units.Keys == s.units.Keys
    ensures id !in s.units || (!InBounds(s, pos) && pos != NO_POSITION) ==> r == s
  {
    if id !in s.units then s
    else if !InBounds(s, pos) && pos != NO_POSITION then s
    else
      var onTile := if pos == NO_POSITION then NO_UNIT else GetUnitOnTile(s, pos);
      if onTile == id || onTile != NO_UNIT then s
      else Relocated(s, id, pos)
  }

  /** Where setUnitPosition lets a unit move: off the map, or to a tile in bounds with no unit on it. */
  predicate FreeTarget(s: MapState, pos: Pos)
  {
    pos == NO_POSITION || (InBounds(s, pos) && GetUnitOnTile(s, pos) == NO_UNIT)
  }

  /** On a map whose tiles and units agree, a free target is a move that goes through. */
  lemma FreeTargetMovable(s: MapState, id: nat, pos: Pos)
    requires UnitsOnTiles(s) && TilesHoldUnits(s) && id in s.units && id != NO_UNIT && FreeTarget(s, pos)
    ensures Movable(s, id, pos)
  {
    if pos != NO_POSITION {
      OccupantRecorded(s, pos);
    }
  }

  /** On a map whose tiles record only units standing on them, getUnitOnTile reads the tile's record. */
  lemma OccupantRecorded(s: MapState, pos: Pos)
    requires TilesHoldUnits(s) && InBounds(s, pos) && pos != NO_POSITION
    ensures GetUnitOnTile(s, pos) == TileAt(s, pos).unit
  {
  }

  /** The unit the tile at q records after id moves to pos. */
  ghost function UnitAfterMove(s: MapState, id: nat, pos: Pos, q: Pos): nat
    requires id in s.units
  {
    if q == pos && pos != NO_POSITION then id
    else if IsOnMap(s.units[id]) && q == s.units[id].position then NO_UNIT
    else TileAt(s, q).unit
  }

  /** The tile at q after id moves to pos: only the unit it records can differ. */
  ghost function TileAfterMove(s: MapState, id: nat, pos: Pos, q: Pos): Tile
    requires id in s.units
  {
    TileAt(s, q).(unit := UnitAfterMove(s, id, pos, q))
  }

  /** The tiles after a move that goes through: the target records the unit, its old tile records none, nothing else changes. */
  lemma MovedTiles(s: MapState, id: nat, pos: Pos, q: Pos)
    requires Shaped(s) && Movable(s, id, pos)
    ensures TileAt(Moved(s, id, pos), q) == TileAfterMove(s, id, pos, q)
  {
  }

  /** A move changes only tiles and the moved unit's position, and keeps the grid's shape. */
  lemma MovedRecord(s: MapState, id: nat, pos: Pos)
    requires id in s.units
    ensures var r := Moved(s, id, pos);
      r == s.(tiles := r.tiles, units := s.units[id := s.units[id].(position := pos)]) && SameShape(s, r)
  {
  }

  /** A move touches only tiles' units and the unit's position. */
  lemma MovedFrames(s: MapState, id: nat, pos: Pos)
    requires Shaped(s) && Movable(s, id, pos)
    ensures var r := Moved(s, id, pos);
      SameShape(s, r) && SameOwners(s, r) && SameArmyUnits(s, r) && SameLoadEdges(s, r) &&
      r.lastUnitID == s.lastUnitID && r.frames == s.frames
  {
    MovedRecord(s, id, pos);
    MovedOwners(s, id, pos);
  }

  lemma MovedOwners(s: MapState, id: nat, pos: Pos)
    requires Shaped(s) && Movable(s, id, pos)
    ensures forall q :: TileAt(Moved(s, id, pos), q).owner == TileAt(s, q).owner
  {
    forall q ensures TileAt(Moved(s, id, pos), q).owner == TileAt(s, q).owner {
      MovedTiles(s, id, pos, q);
    }
  }

  lemma MovedUnitsOnTiles(s: MapState, id: nat, pos: Pos)
    requires Shaped(s) && UnitsOnTiles(s) && NO_UNIT !in s.units && Movable(s, id, pos)
    ensures UnitsOnTiles(Moved(s, id, pos))
  {
    var r := Moved(s, id, pos);
    MovedRecord(s, id, pos);
    forall v | v in r.units && IsOnMap(r.units[v])
      ensures InBounds(r, r.units[v].position) && TileAt(r, r.units[v].position).unit == v
    {
      MovedTiles(s, id, pos, r.units[v].position);
    }
  }

  lemma MovedTilesHoldUnits(s: MapState, id: nat, pos: Pos)
    requires Shaped(s) && TilesHoldUnits(s) && Movable(s, id, pos)
    ensures TilesHoldUnits(Moved(s, id, pos))
  {
    var r := Moved(s, id, pos);
    MovedRecord(s, id, pos);
    forall p | InBounds(r, p) && TileAt(r, p).unit != NO_UNIT
      ensures TileAt(r, p).unit in r.units && r.units[TileAt(r, p).unit].position == p
    {
      MovedTiles(s, id, pos, p);
    }
  }

  lemma MovedConsistent(s: MapState, id: nat, pos: Pos)
    requires Consistent(s) && Movable(s, id, pos)
    ensures Consistent(Moved(s, id, pos))
  {
    var r := Moved(s, id, pos);
    MovedFrames(s, id, pos);
    ShapeKept(s, r);
    OwnershipKept(s, r);
    MembershipKept(s, r);
    LoadsKept(s, r);
    AcyclicKept(s, r);
    IDsKept(s, r);
    SelectionKept(s, r);
    MovedUnitsOnTiles(s, id, pos);
    MovedTilesHoldUnits(s, id, pos);
  }

  lemma SameLinksMovable(s: MapState, t: MapState, id: nat, pos: Pos)
    requires SameLinks(s, t) && Movable(s, id, pos)
    ensures Movable(t, id, pos)
  {
  }

  lemma RelocatedConsistent(s: MapState, id: nat, pos: Pos)
    requires Consistent(s) && Movable(s, id, pos)
    ensures Consistent(Relocated(s, id, pos))
  {
    var t := UpdateCapturingUnit(s, id);
    UpdateCapturingUnitLinks(s, id);
    SameLinksConsistent(s, t);
    SameLinksMovable(s, t, id, pos);
    MovedConsistent(t, id, pos);
  }

  /**
   * A move that goes through: the unit is at pos and no longer capturing,
   * every other unit is as it was, the target records the unit, its old
   * tile records none, every other tile records what it did, and no tile
   * changes owner.
   */
  lemma RelocatedEffect(s: MapState, id: nat, pos: Pos)
    requires Shaped(s) && Movable(s, id, pos)
    ensures var r := Relocated(s, id, pos); var u := s.units[id];
      r.units == s.units[id := u.(position := pos, capturing := false)] &&
      (forall q :: TileAt(r, q).unit == UnitAfterMove(s, id, pos, q)) &&
      (forall q :: TileAt(r, q).owner == TileAt(s, q).owner) &&
      r.armies == s.armies && r.lastUnitID == s.lastUnitID && r.frames == s.frames
  {
    RelocatedUnits(s, id, pos);
    RelocatedTiles(s, id, pos);
  }

  lemma UpdateCapturingUnitUnits(s: MapState, id: nat)
    requires id in s.units && id != NO_UNIT
    ensures UpdateCapturingUnit(s, id).units == s.units[id := s.units[id].(capturing := false)]
  {
  }

  lemma RelocatedUnits(s: MapState, id: nat, pos: Pos)
    requires id in s.units && id != NO_UNIT
    ensures var r := Relocated(s, id, pos);
      r == s.(tiles := r.tiles, units := r.units) &&
      r.units == s.units[id := s.units[id].(position := pos, capturing := false)]
  {
    UpdateCapturingUnitUnits(s, id);
    MovedRecord(UpdateCapturingUnit(s, id), id, pos);
  }

  lemma RelocatedTiles(s: MapState, id: nat, pos: Pos)
    requires Shaped(s) && Movable(s, id, pos)
    ensures forall q :: TileAt(Relocated(s, id, pos), q).unit == UnitAfterMove(s, id, pos, q)
    ensures forall q :: TileAt(Relocated(s, id, pos), q).owner == TileAt(s, q).owner
  {
    forall q ensures TileAt(Relocated(s, id, pos), q).unit == UnitAfterMove(s, id, pos, q) &&
      TileAt(Relocated(s, id, pos), q).owner == TileAt(s, q).owner
    {
      RelocatedTileAt(s, id, pos, q);
    }
  }

  lemma RelocatedTileAt(s: MapState, id: nat, pos: Pos, q: Pos)
    requires Shaped(s) && Movable(s, id, pos)
    ensures TileAt(Relocated(s, id, pos), q).unit == UnitAfterMove(s, id, pos, q)
    ensures TileAt(Relocated(s, id, pos), q).owner == TileAt(s, q).owner
  {
    var t := UpdateCapturingUnit(s, id);
    UpdateCapturingUnitLinks(s, id);
    SameLinksMovable(s, t, id, pos);
    ShapeKept(s, t);
    MovedTiles(t, id, pos, q);
  }

  /**
   * setUnitPosition rejects a missing unit, an off-map target other than
   * NO_POSITION and a tile held by another unit, and ignores a move onto the
   * unit's own tile; otherwise the target tile holds the unit, the tile it
   * left holds none, and the unit is at pos and no longer capturing.
   */
  lemma SetUnitPositionEffect(s: MapState, id: nat, pos: Pos)
    requires Shaped(s) && UnitsOnTiles(s) && TilesHoldUnits(s) && NO_UNIT !in s.units
    ensures var r := SetUnitPosition(s, id, pos);
      (id !in s.units || !FreeTarget(s, pos) ==> r == s) &&
      (id in s.units && IsOnMap(s.units[id]) && pos == s.units[id].position ==> r == s) &&
      (id in s.units && FreeTarget(s, pos) ==>
        r.units == s.units[id := s.units[id].(position := pos, capturing := false)] &&
        (pos != NO_POSITION ==> TileAt(r, pos).unit == id) &&
        (IsOnMap(s.units[id]) ==> TileAt(r, s.units[id].position).unit == NO_UNIT))
  {
    if id in s.units && FreeTarget(s, pos) {
      FreeTargetMovable(s, id, pos);
      RelocatedEffect(s, id, pos);
    }
  }

  lemma SetUnitPositionConsistent(s: MapState, id: nat, pos: Pos)
    requires Consistent(s)
    ensures Consistent(SetUnitPosition(s, id, pos))
  {
    SetUnitPositionCases(s, id, pos);
    if id in s.units && FreeTarget(s, pos) {
      FreeTargetMovable(s, id, pos);
      RelocatedConsistent(s, id, pos);
    }
  }

  /** setUnitPosition moves exactly the existing units, other than NO_UNIT, whose target is free. */
  lemma SetUnitPositionCases(s: MapState, id: nat, pos: Pos)
    ensures SetUnitPosition(s, id, pos) == if id in s.units && id != NO_UNIT && FreeTarget(s, pos) then Relocated(s, id, pos) else s
  {
  }

  // ------------------------------------------------------------------
  // getUnloadedUnitWhichContainsUnit
  // ------------------------------------------------------------------

  /**
   * getUnloadedUnitWhichContainsUnit: NO_UNIT for a unit that does not
   * exist, the unit itself when it is not loaded, and otherwise the
   * outermost carrier of its carrier.
   */
  function Outermost(units: map<nat, Unit>, u: nat): nat
    requires Acyclic(units)
    decreases if u in units then SomeRank(units)[u] + 1 else 0
  {
    if u !in units then NO_UNIT
    else if units[u].loadedOnto == NO_UNIT then u
    else Outermost(units, units[u].loadedOnto)
  }

  /** The outermost carrier of a unit exists, is not loaded, and carries the unit. */
  lemma {:induction false} OutermostCarries(s: MapState, u: nat)
    requires Acyclic(s.units) && CarriersListLoads(s) && u in s.units
    ensures var c := Outermost(s.units, u);
      c in s.units && !IsLoaded(s.units[c]) && CarriedBy(s.units, SomeRank(s.units), u, c)
    decreases SomeRank(s.units)[u]
  {
    if IsLoaded(s.units[u]) {
      OutermostCarries(s, s.units[u].loadedOnto);
    }
  }

  /** Any unloaded unit that carries u is u's outermost carrier. */
  lemma {:induction false} CarrierIsOutermost(s: MapState, u: nat, c: nat)
    requires Acyclic(s.units) && NO_UNIT !in s.units && u in s.units && c in s.units && !IsLoaded(s.units[c])
    requires CarriedBy(s.units, SomeRank(s.units), u, c)
    ensures Outermost(s.units, u) == c
    decreases SomeRank(s.units)[u]
  {
    if u != c {
      CarrierIsOutermost(s, s.units[u].loadedOnto, c);
    }
  }

  // ------------------------------------------------------------------
  // loadUnit
  // ------------------------------------------------------------------

  /** The two statements of loadUnit that link load to onto. */
  function Linked(s: MapState, load: nat, onto: nat): MapState
    requires load in s.units && onto in s.units
  {
    var s1 := s.(units := s.units[onto := MapEntities.LoadUnit(s.units[onto], load)]);
    s1.(units := s1.units[load := LoadOnto(s1.units[load], onto)])
  }

  /** The checks loadUnit makes: both units exist, they differ, and load is not already loaded. */
  predicate LoadAllowed(s: MapState, load: nat, onto: nat)
  {
    onto in s.units && load in s.units && load != onto && !IsLoaded(s.units[load])
  }

  /**
   * loadUnit as written: after its checks, load stops capturing, leaves the
   * map and is linked to onto, even when onto is itself carried by load.
   */
  function LoadUnitAsWritten(s: MapState, load: nat, onto: nat): (r: MapState)
    ensures r.units.Keys == s.units.Keys
    ensures !LoadAllowed(s, load, onto) ==> r == s
    ensures LoadAllowed(s, load, onto) ==> onto in r.units && load in r.units[onto].loaded
  {
    if !LoadAllowed(s, load, onto) then s
    else Linked(Relocated(s, load, NO_POSITION), load, onto)
  }

  /** loadUnit with one more check: onto must not be carried, however deep, by load. */
  function LoadUnit(s: MapState, load: nat, onto: nat): (r: MapState)
    requires Acyclic(s.units)
    ensures r.units.Keys == s.units.Keys
    ensures !LoadAllowed(s, load, onto) ==> r == s
    ensures LoadAllowed(s, load, onto) && Outermost(s.units, onto) == load ==> r == s
  {
    if !LoadAllowed(s, load, onto) || Outermost(s.units, onto) == load then s
    else Linked(Relocated(s, load, NO_POSITION), load, onto)
  }

  /** Corrected loadUnit refuses exactly what loadUnit as written refuses, and a load onto one of load's own cargo. */
  lemma LoadUnitRefuses(s: MapState, load: nat, onto: nat)
    requires Acyclic(s.units) && CarriersListLoads(s) && NO_UNIT !in s.units
    ensures LoadAllowed(s, load, onto) && !CarriedBy(s.units, SomeRank(s.units), onto, load) ==>
      LoadUnit(s, load, onto) == LoadUnitAsWritten(s, load, onto)
    ensures LoadAllowed(s, load, onto) && CarriedBy(s.units, SomeRank(s.units), onto, load) ==> LoadUnit(s, load, onto) == s
    ensures !LoadAllowed(s, load, onto) ==> LoadUnit(s, load, onto) == s
  {
    if LoadAllowed(s, load, onto) {
      if CarriedBy(s.units, SomeRank(s.units), onto, load) {
        CarrierIsOutermost(s, onto, load);
      } else {
        OutermostCarries(s, onto);
      }
    }
  }

  /**
   * After a successful load, load is off the map, no longer capturing and
   * loaded onto onto, its old tile is vacant, onto's loaded set gains load,
   * and every other unit is as it was.
   */
  lemma LoadUnitEffect(s: MapState, load: nat, onto: nat)
    requires Shaped(s) && Acyclic(s.units) && NO_UNIT !in s.units && LoadAllowed(s, load, onto)
    requires Outermost(s.units, onto) != load
    ensures var r := LoadUnit(s, load, onto);
      r.units.Keys == s.units.Keys &&
      r.units[load] == s.units[load].(position := NO_POSITION, capturing := false, loadedOnto := onto) &&
      r.units[onto] == s.units[onto].(loaded := s.units[onto].loaded + {load}) &&
      (IsOnMap(s.units[load]) ==> TileAt(r, s.units[load].position).unit == NO_UNIT) &&
      forall v :: v in s.units && v != load && v != onto ==> r.units[v] == s.units[v]
  {
    LoadedEffect(s, load, onto);
  }

  /** The effect of the statements loadUnit runs once its checks pass. */
  lemma LoadedEffect(s: MapState, load: nat, onto: nat)
    requires Shaped(s) && NO_UNIT !in s.units && LoadAllowed(s, load, onto)
    ensures var r := Linked(Relocated(s, load, NO_POSITION), load, onto);
      r.units.Keys == s.units.Keys &&
      r.units[load] == s.units[load].(position := NO_POSITION, capturing := false, loadedOnto := onto) &&
      r.units[onto] == s.units[onto].(loaded := s.units[onto].loaded + {load}) &&
      (IsOnMap(s.units[load]) ==> TileAt(r, s.units[load].position).unit == NO_UNIT) &&
      forall v :: v in s.units && v != load && v != onto ==> r.units[v] == s.units[v]
  {
    RelocatedUnits(s, load, NO_POSITION);
    if IsOnMap(s.units[load]) {
      RelocatedTileAt(s, load, NO_POSITION, s.units[load].position);
    }
  }

  /** The corrected loadUnit keeps the map consistent: in particular no unit ends up carrying itself. */
  lemma LoadUnitConsistent(s: MapState, load: nat, onto: nat)
    requires Consistent(s)
    ensures Consistent(LoadUnit(s, load, onto))
  {
    if LoadAllowed(s, load, onto) && Outermost(s.units, onto) != load {
      LoadedConsistent(s, load, onto);
    }
  }

  lemma LoadedConsistent(s: MapState, load: nat, onto: nat)
    requires Consistent(s) && LoadAllowed(s, load, onto) && Outermost(s.units, onto) != load
    ensures Consistent(Linked(Relocated(s, load, NO_POSITION), load, onto))
  {
    RelocatedConsistent(s, load, NO_POSITION);
    RelocatedEdges(s, load, NO_POSITION);
    LinkedConsistent(s, Relocated(s, load, NO_POSITION), load, onto);
  }

  /** A move keeps every load edge and puts the unit at the target. */
  lemma RelocatedEdges(s: MapState, id: nat, pos: Pos)
    requires id in s.units && id != NO_UNIT
    ensures SameLoadEdges(s, Relocated(s, id, pos)) && Relocated(s, id, pos).units[id].position == pos
  {
    RelocatedUnits(s, id, pos);
  }

  /** Linking load to onto in m, which has the load edges of s, keeps m consistent when load does not carry onto in s. */
  lemma LinkedConsistent(s: MapState, m: MapState, load: nat, onto: nat)
    requires Consistent(m) && SameLoadEdges(s, m)
    requires Acyclic(s.units) && NO_UNIT !in s.units && LoadAllowed(s, load, onto) && Outermost(s.units, onto) != load
    ensures Consistent(Linked(m, load, onto))
  {
    var r := Linked(m, load, onto);
    LinkedFrames(m, load, onto);
    LinkedLoads(m, load, onto);
    RelinkedAcyclic(s, r.units, load, onto);
    SameGroundConsistent(m, r);
  }

  /** Linking changes only the two units' load edges. */
  lemma LinkedFrames(m: MapState, load: nat, onto: nat)
    requires LoadAllowed(m, load, onto)
    ensures var r := Linked(m, load, onto);
      SameGround(m, r) && r.units[load].loadedOnto == onto &&
      forall u :: u in m.units && u != load ==> r.units[u].loadedOnto == m.units[u].loadedOnto
  {
  }

  lemma LinkedLoads(m: MapState, load: nat, onto: nat)
    requires LoadLinks(m) && LoadAllowed(m, load, onto) && NO_UNIT !in m.units
    ensures LoadLinks(Linked(m, load, onto))
  {
    var r := Linked(m, load, onto);
    assert CarriersListLoads(r) by {
      forall u | u in r.units && IsLoaded(r.units[u])
        ensures r.units[u].loadedOnto in r.units && u in r.units[r.units[u].loadedOnto].loaded
      {
        if u != load {
          assert IsLoaded(m.units[u]);
        }
      }
    }
    assert LoadsKnowCarriers(r) by {
      forall c, u | c in r.units && u in r.units[c].loaded ensures u in r.units && r.units[u].loadedOnto == c
      {
        LinkedLoadedSet(m, load, onto, c);
        if u == load {
          assert m.units[load].loadedOnto == NO_UNIT;
        } else {
          assert u in m.units[c].loaded;
        }
      }
    }
  }

  lemma LinkedLoadedSet(m: MapState, load: nat, onto: nat, c: nat)
    requires LoadAllowed(m, load, onto) && c in m.units
    ensures Linked(m, load, onto).units[c].loaded == if c == onto then m.units[c].loaded + {load} else m.units[c].loaded
  {
  }

  /**
   * Re-pointing load's carrier to onto keeps a ranking when onto is not
   * carried by load: the units load carries move up above onto's rank.
   */
  lemma RelinkedAcyclic(s: MapState, after: map<nat, Unit>, load: nat, onto: nat)
    requires Acyclic(s.units) && NO_UNIT !in s.units && LoadAllowed(s, load, onto) && Outermost(s.units, onto) != load
    requires after.Keys == s.units.Keys && after[load].loadedOnto == onto
    requires forall u :: u in after && u != load ==> after[u].loadedOnto == s.units[u].loadedOnto
    ensures Acyclic(after)
  {
    var units := s.units;
    var rank := SomeRank(units);
    if CarriedBy(units, rank, onto, load) {
      CarrierIsOutermost(s, onto, load);
    }
    var shifted := map u | u in units :: if CarriedBy(units, rank, u, load) then rank[u] + rank[onto] + 1 else rank[u];
    forall u | u in after
      ensures u in shifted && (after[u].loadedOnto in after ==>
        after[u].loadedOnto in shifted && shifted[after[u].loadedOnto] < shifted[u])
    {
      if u != load {
        var c := units[u].loadedOnto;
        if c in units {
          assert CarriedBy(units, rank, u, load) <==> CarriedBy(units, rank, c, load);
        }
      }
    }
    assert Ranked(after, shifted);
  }

  /**
   * loadUnit as written can load a unit onto its own cargo. From two units
   * of which the second is loaded onto the first, loading the first onto
   * the second links each onto the other: no unit is outermost any more, so
   * getUnloadedUnitWhichContainsUnit and deleteUnit would recurse without end.
   */
  lemma LoadUnitAsWrittenMakesCycle()
    ensures var s := TwoUnits(); var r := LoadUnitAsWritten(s, 1, 2);
      Consistent(s) && r.units[1].loadedOnto == 2 && r.units[2].loadedOnto == 1 && !Acyclic(r.units)
  {
    var s := TwoUnits();
    TwoUnitsConsistent();
    var r := LoadUnitAsWritten(s, 1, 2);
    assert LoadAllowed(s, 1, 2);
    forall rank ensures !Ranked(r.units, rank)
    {
      assert r.units[1].loadedOnto == 2 && r.units[2].loadedOnto == 1;
    }
  }

  /** Unit 2 loaded onto unit 1, both off the map, on an empty map with a single cleared selection frame. */
  function TwoUnits(): MapState
  {
    var kind := UnitKind("", 0, 0);
    var carrier := NewUnit(kind, 0).(loaded := {2});
    var cargo := NewUnit(kind, 0).(loadedOnto := 1);
    MapState(0, 0, [], map[1 := carrier, 2 := cargo], map[], 0, 2, "", Pos(0, 0), None, None, [NEW_FRAME], NO_ARMY, None, map[])
  }

  lemma TwoUnitsConsistent()
    ensures Consistent(TwoUnits())
  {
    TwoUnitsGrid();
    TwoUnitsLinks();
    TwoUnitsIDs();
    TwoUnitsAcyclic();
  }

  lemma TwoUnitsGrid()
    ensures var s := TwoUnits();
      Shaped(s) && UnitsOnTiles(s) && TilesHoldUnits(s) && ArmiesOwnTiles(s) && OwnersListTiles(s) &&
      ArmiesOwnUnits(s) && ArmiesListUnits(s)
  {
  }

  lemma TwoUnitsLinks()
    ensures LoadLinks(TwoUnits())
  {
    var s := TwoUnits();
    assert s.units.Keys == {1, 2};
    forall c, u | c in s.units && u in s.units[c].loaded ensures u in s.units && s.units[u].loadedOnto == c
    {
    }
  }

  lemma TwoUnitsIDs()
    ensures IDs(TwoUnits()) && Selection(TwoUnits())
  {
    assert TwoUnits().units.Keys == {1, 2};
  }

  lemma TwoUnitsAcyclic()
    ensures Acyclic(TwoUnits().units)
  {
    assert Ranked(TwoUnits().units, map[1 := 0, 2 := 1]);
  }

  // ------------------------------------------------------------------
  // unloadUnit
  // ------------------------------------------------------------------

  /** The statements of unloadUnit that unlink unload from its carrier. */
  function Unlinked(s: MapState, unload: nat, from: nat): MapState
    requires unload in s.units && from in s.units
  {
    var s1 := s.(units := s.units[from := MapEntities.UnloadUnit(s.units[from], unload).1]);
    s1.(units := s1.units[unload := LoadOnto(s1.units[unload], NO_UNIT)])
  }

  /**
   * unloadUnit: no change if either unit does not exist, the target tile is
   * off the map or occupied, or unload is not loaded onto from; otherwise
   * unload is unlinked from from and placed on the target tile.
   */
  function UnloadUnit(s: MapState, unload: nat, from: nat, onto: Pos): (r: MapState)
    ensures r.units.Keys == s.units.Keys
    ensures from !in s.units || unload !in s.units || !InBounds(s, onto) || GetUnitOnTile(s, onto) != NO_UNIT ==> r == s
  {
    if from !in s.units || unload !in s.units || !InBounds(s, onto) || GetUnitOnTile(s, onto) != NO_UNIT then s
    else if !MapEntities.UnloadUnit(s.units[from], unload).0 then s
    else SetUnitPosition(Unlinked(s, unload, from), unload, onto)
  }

  /**
   * unloadUnit changes nothing when a unit is missing, the target is off the
   * map or occupied, or unload is not in from's loaded set; otherwise unload
   * is no longer loaded, leaves from's loaded set and stands on the target.
   */
  lemma UnloadUnitEffect(s: MapState, unload: nat, from: nat, onto: Pos)
    requires Shaped(s) && UnitsOnTiles(s) && TilesHoldUnits(s) && NO_UNIT !in s.units
    ensures var r := UnloadUnit(s, unload, from, onto);
      ((from !in s.units || unload !in s.units || !InBounds(s, onto) || GetUnitOnTile(s, onto) != NO_UNIT ||
        unload !in s.units[from].loaded) ==> r == s) &&
      (from in s.units && unload in s.units && InBounds(s, onto) && GetUnitOnTile(s, onto) == NO_UNIT &&
       unload in s.units[from].loaded ==>
         r.units.Keys == s.units.Keys && !IsLoaded(r.units[unload]) && unload !in r.units[from].loaded &&
         r.units[from].loaded == s.units[from].loaded - {unload} &&
         r.units[unload].position == onto && TileAt(r, onto).unit == unload)
  {
    if from in s.units && unload in s.units && InBounds(s, onto) && GetUnitOnTile(s, onto) == NO_UNIT &&
       unload in s.units[from].loaded {
      var t := Unlinked(s, unload, from);
      UnlinkedFrames(s, unload, from);
      ShapeKept(s, t);
      PlacementKept(s, t);
      assert GetUnitOnTile(t, onto) == NO_UNIT;
      SetUnitPositionEffect(t, unload, onto);
    }
  }

  /** Unlinking changes only the two units' load edges. */
  lemma UnlinkedFrames(s: MapState, unload: nat, from: nat)
    requires unload in s.units && from in s.units
    ensures SameGround(s, Unlinked(s, unload, from))
  {
  }

  lemma UnlinkedConsistent(s: MapState, unload: nat, from: nat)
    requires Consistent(s) && unload in s.units && from in s.units && unload in s.units[from].loaded
    ensures Consistent(Unlinked(s, unload, from))
  {
    var r := Unlinked(s, unload, from);
    UnlinkedFrames(s, unload, from);
    UnlinkedLoads(s, unload, from);
    UnlinkedAcyclic(s, unload, from);
    SameGroundConsistent(s, r);
  }

  lemma UnlinkedAcyclic(s: MapState, unload: nat, from: nat)
    requires Acyclic(s.units) && NO_UNIT !in s.units && unload in s.units && from in s.units
    ensures Acyclic(Unlinked(s, unload, from).units)
  {
    var rank :| Ranked(s.units, rank);
    assert Ranked(Unlinked(s, unload, from).units, rank);
  }

  lemma UnlinkedLoads(s: MapState, unload: nat, from: nat)
    requires LoadLinks(s) && unload in s.units && from in s.units && unload in s.units[from].loaded
    ensures LoadLinks(Unlinked(s, unload, from))
  {
    var r := Unlinked(s, unload, from);
    assert CarriersListLoads(r) by {
      forall u | u in r.units && IsLoaded(r.units[u])
        ensures r.units[u].loadedOnto in r.units && u in r.units[r.units[u].loadedOnto].loaded
      {
        assert IsLoaded(s.units[u]);
      }
    }
    assert LoadsKnowCarriers(r) by {
      forall c, u | c in r.units && u in r.units[c].loaded ensures u in r.units && r.units[u].loadedOnto == c
      {
        assert u in s.units[c].loaded;
      }
    }
  }

  lemma UnloadUnitConsistent(s: MapState, unload: nat, from: nat, onto: Pos)
    requires Consistent(s)
    ensures Consistent(UnloadUnit(s, unload, from, onto))
  {
    if from in s.units && unload in s.units && InBounds(s, onto) && GetUnitOnTile(s, onto) == NO_UNIT &&
       unload in s.units[from].loaded {
      UnlinkedConsistent(s, unload, from);
      SetUnitPositionConsistent(Unlinked(s, unload, from), unload, onto);
    }
  }

  // ------------------------------------------------------------------
  // getUnitVision
  // ------------------------------------------------------------------

  /**
   * getUnitVision: 0 for a unit that does not exist, the type's vision when
   * the unit is off the map, and otherwise that vision plus the offset its
   * tile's terrain gives the unit's type, but at least 1. The terrain's
   * offsets come from the tile-type bank, which is a parameter here.
   */
  function UnitVision(s: MapState, id: nat, offset: (TileKind, string) -> int): (v: nat)
    ensures id !in s.units ==> v == 0
    ensures id in s.units && !IsOnMap(s.units[id]) ==> v == s.units[id].kind.vision
    ensures id in s.units && IsOnMap(s.units[id]) ==>
      v >= 1 && v == Max(1, s.units[id].kind.vision + offset(TileAt(s, s.units[id].position).kind, s.units[id].kind.scriptName))
  {
    if id !in s.units then 0
    else
      var u := s.units[id];
      if u.position == NO_POSITION then u.kind.vision
      else Max(1, u.kind.vision + offset(TileAt(s, u.position).kind, u.kind.scriptName))
  }
}
