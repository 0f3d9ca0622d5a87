/**
 * The army operations of awe::map: giving tiles owners, creating and
 * deleting armies, their teams, funds and COs, the units of an army by
 * turn-start priority, the default win condition and cycling through the
 * armies in ID order.
 */
module MapArmies {
  import opened Wrappers
  import opened Integers
  import opened MapEntities
  import opened MapData
  import opened MapUnits
  import GameProperties

  // ------------------------------------------------------------------
  // setTileOwner
  // ------------------------------------------------------------------

  /** The tile set army a has once the tile at pos passes from its owner to army. */
  function ReownedSet(s: MapState, pos: Pos, army: nat, a: nat): set<Pos>
    requires a in s.armies
  {
    if a == army then s.armies[a].tiles + {pos}
    else if a == TileAt(s, pos).owner then s.armies[a].tiles - {pos}
    else s.armies[a].tiles
  }

  /** The tile at pos passes from its owner to army, and the two armies' tile sets follow. */
  function Reowned(s: MapState, pos: Pos, army: nat): MapState
  {
    var o := TileAt(s, pos).owner;
    var a1 := if o in s.armies then s.armies[o := s.armies[o].(tiles := s.armies[o].tiles - {pos})] else s.armies;
    var a2 := if army in a1 then a1[army := a1[army].(tiles := a1[army].tiles + {pos})] else a1;
    WithTile(s.(armies := a2), pos, TileAt(s, pos).(owner := army))
  }

  /**
   * setTileOwner: nothing happens off the map or when army already owns the
   * tile; otherwise a unit capturing the tile stops, the tile leaves its old
   * owner's tile set, joins army's if army is on the map, and records army
   * as its owner (even an army that is not on the map).
   */
  function SetTileOwner(s: MapState, pos: Pos, army: nat): (r: MapState)
    ensures !InBounds(s, pos) || army == TileAt(s, pos).owner ==> r == s
    ensures r.units.Keys == s.units.Keys && r.width == s.width && r.height == s.height
  {
    if !InBounds(s, pos) || army == TileAt(s, pos).owner then s
    else Reowned(UpdateCapturingUnit(s, GetUnitOnTile(s, pos)), pos, army)
  }

  /** What passing the tile at pos to army changes: that tile's owner and the two tile sets, nothing else. */
  lemma ReownedEffect(s: MapState, pos: Pos, army: nat)
    requires Shaped(s) && InBounds(s, pos) && army != TileAt(s, pos).owner
    ensures var r := Reowned(s, pos, army);
      r == s.(tiles := r.tiles, armies := r.armies) && SameShape(s, r) &&
      (forall q :: TileAt(r, q) == if q == pos then TileAt(s, q).(owner := army) else TileAt(s, q)) &&
      r.armies.Keys == s.armies.Keys &&
      (forall a :: a in s.armies ==> r.armies[a] == s.armies[a].(tiles := ReownedSet(s, pos, army, a)))
  {
  }

  /** Passing a tile to another army keeps the map consistent. */
  lemma ReownedConsistent(s: MapState, pos: Pos, army: nat)
    requires Consistent(s) && InBounds(s, pos) && army != TileAt(s, pos).owner
    ensures Consistent(Reowned(s, pos, army))
  {
    var r := Reowned(s, pos, army);
    ReownedEffect(s, pos, army);
    ReownedOwnership(s, r, pos, army);
    OwnersChangedConsistent(s, r);
  }

  /** After the tile at pos passes to army, the tile sets and the owners agree again. */
  lemma ReownedOwnership(s: MapState, r: MapState, pos: Pos, army: nat)
    requires Shaped(s) && ArmiesOwnTiles(s) && OwnersListTiles(s) && InBounds(s, pos) && army != TileAt(s, pos).owner
    requires SameShape(s, r) && r.armies.Keys == s.armies.Keys
    requires forall q :: TileAt(r, q) == if q == pos then TileAt(s, q).(owner := army) else TileAt(s, q)
    requires forall a :: a in s.armies ==> r.armies[a].tiles == ReownedSet(s, pos, army, a)
    ensures ArmiesOwnTiles(r) && OwnersListTiles(r)
  {
    assert forall q :: InBounds(s, q) == InBounds(r, q);
    forall a, p | a in r.armies && p in r.armies[a].tiles ensures InBounds(r, p) && TileAt(r, p).owner == a
    {
      assert p in s.armies[a].tiles || (p == pos && a == army);
    }
  }

  /** A change of owners only, with the sets and the owners agreeing afterwards, keeps the map consistent. */
  lemma OwnersChangedConsistent(s: MapState, r: MapState)
    requires Consistent(s) && r == s.(tiles := r.tiles, armies := r.armies)
    requires SameShape(s, r) && SameTileUnits(s, r) && r.armies.Keys == s.armies.Keys
    requires forall a :: a in s.armies ==> r.armies[a].units == s.armies[a].units
    requires ArmiesOwnTiles(r) && OwnersListTiles(r)
    ensures Consistent(r)
  {
    ShapeKept(s, r);
    PlacementKept(s, r);
    MembershipKept(s, r);
    LoadsKept(s, r);
    AcyclicKept(s, r);
    IDsKept(s, r);
    SelectionKept(s, r);
  }

  /**
   * After setTileOwner off the map or to the current owner nothing has
   * changed; otherwise the tile's owner is army, no other tile's owner has
   * changed, the old owner's tile set has lost pos, army's has gained it,
   * no other army's has changed, and a unit on the tile has stopped
   * capturing.
   */
  lemma SetTileOwnerEffect(s: MapState, pos: Pos, army: nat)
    requires Shaped(s)
    ensures var r := SetTileOwner(s, pos, army);
      (!InBounds(s, pos) || army == TileAt(s, pos).owner ==> r == s) &&
      (InBounds(s, pos) && army != TileAt(s, pos).owner ==>
        TileAt(r, pos).owner == army &&
        (forall q :: q != pos ==> TileAt(r, q).owner == TileAt(s, q).owner) &&
        r.armies.Keys == s.armies.Keys &&
        (forall a :: a in s.armies ==> r.armies[a] == s.armies[a].(tiles := ReownedSet(s, pos, army, a))) &&
        r.units.Keys == s.units.Keys &&
        (GetUnitOnTile(s, pos) != NO_UNIT ==>
          r.units[GetUnitOnTile(s, pos)] == s.units[GetUnitOnTile(s, pos)].(capturing := false)) &&
        r == s.(tiles := r.tiles, units := r.units, armies := r.armies) &&
        (forall u :: u in s.units && u != GetUnitOnTile(s, pos) ==> r.units[u] == s.units[u]))
  {
    if InBounds(s, pos) && army != TileAt(s, pos).owner {
      var id := GetUnitOnTile(s, pos);
      var t := UpdateCapturingUnit(s, id);
      UpdateCapturingUnitLinks(s, id);
      if id != NO_UNIT {
        UpdateCapturingUnitUnits(s, id);
      }
      ReownedFromCaptured(s, t, pos, army);
    }
  }

  /** Passing a tile on after the capture on it stopped: the owners and tile sets of s, the units of t. */
  lemma ReownedFromCaptured(s: MapState, t: MapState, pos: Pos, army: nat)
    requires Shaped(s) && SameLinks(s, t) && t.armies == s.armies && InBounds(s, pos) && army != TileAt(s, pos).owner
    ensures var r := Reowned(t, pos, army);
      TileAt(r, pos).owner == army &&
      (forall q :: q != pos ==> TileAt(r, q).owner == TileAt(s, q).owner) &&
      r.armies.Keys == s.armies.Keys &&
      (forall a :: a in s.armies ==> r.armies[a] == s.armies[a].(tiles := ReownedSet(s, pos, army, a))) &&
      r.units == t.units
  {
    ShapeKept(s, t);
    ReownedEffect(t, pos, army);
    assert TileAt(t, pos).owner == TileAt(s, pos).owner;
  }

  /** setTileOwner keeps the map consistent. */
  lemma SetTileOwnerConsistent(s: MapState, pos: Pos, army: nat)
    requires Consistent(s)
    ensures Consistent(SetTileOwner(s, pos, army))
  {
    if InBounds(s, pos) && army != TileAt(s, pos).owner {
      var t := UpdateCapturingUnit(s, GetUnitOnTile(s, pos));
      UpdateCapturingUnitLinks(s, GetUnitOnTile(s, pos));
      SameLinksConsistent(s, t);
      ReownedConsistent(t, pos, army);
    }
  }

  // ------------------------------------------------------------------
  // deleteArmy
  // ------------------------------------------------------------------

  /**
   * Facts the unit loop of deleteArmy keeps: units are only removed, the
   * survivors keep their carrier and army, the army's unloaded units among
   * done are gone, and every unloaded unit of another army survives.
   */
  ghost predicate UnitsGone(s: MapState, army: nat, r: MapState, done: set<nat>)
  {
    r.units.Keys <= s.units.Keys &&
    (forall u :: u in r.units ==> r.units[u].loadedOnto == s.units[u].loadedOnto && r.units[u].army == s.units[u].army) &&
    (forall u :: u in done && u in s.units && !IsLoaded(s.units[u]) ==> u !in r.units) &&
    (forall u :: u in s.units && s.units[u].army != army && !IsLoaded(s.units[u]) ==> u in r.units)
  }

  /** A unit that survives deleteArmy: as it was, but for its loaded set and a capture that stopped. */
  predicate Survived(u: Unit, v: Unit)
  {
    v == u.(loaded := v.loaded, capturing := v.capturing) && (v.capturing ==> u.capturing)
  }

  /**
   * What deleteArmy leaves alone: every field but the tiles, units, armies,
   * selection stack and override (the selected army, the selected tile and
   * the last unit ID among them); each tile but for its owner, HP and unit;
   * each surviving unit as Survived says; and the selection stack but for a
   * top frame that is cleared.
   */
  ghost predicate KeptBesides(s: MapState, r: MapState)
  {
    r == s.(tiles := r.tiles, units := r.units, armies := r.armies, frames := r.frames, armyOverride := r.armyOverride) &&
    (forall p :: TileAt(r, p) == TileAt(s, p).(owner := TileAt(r, p).owner, hp := TileAt(r, p).hp, unit := TileAt(r, p).unit)) &&
    (forall u :: u in r.units ==> u in s.units && Survived(s.units[u], r.units[u])) &&
    |r.frames| == |s.frames| && (|s.frames| > 0 ==> r.frames[..|r.frames| - 1] == s.frames[..|s.frames| - 1]) &&
    (Top(r) == Top(s) || Top(r) == NEW_FRAME)
  }

  lemma KeptBesidesTrans(a: MapState, b: MapState, c: MapState)
    requires KeptBesides(a, b) && KeptBesides(b, c)
    ensures KeptBesides(a, c)
  {
  }

  /** deleteUnit keeps what deleteArmy leaves alone. */
  lemma DeleteUnitKept(s: MapState, id: nat)
    requires Acyclic(s.units) && NO_UNIT !in s.units && id in s.units
    ensures KeptBesides(s, DeleteUnit(s, id))
  {
    var d := Family(s, id);
    var t := StopCapturing(s, d);
    DeleteUnitEffect(s, id);
    forall p ensures TileAt(Removed(t, d), p) == TileAt(s, p).(owner := TileAt(Removed(t, d), p).owner,
      hp := TileAt(Removed(t, d), p).hp, unit := TileAt(Removed(t, d), p).unit)
    {
      RemovedTileAt(t, d, p);
      StopCapturingTileAt(s, d, p);
    }
  }

  lemma StopCapturingTileAt(s: MapState, d: set<nat>, p: Pos)
    ensures TileAt(StopCapturing(s, d), p) == TileAt(s, p).(hp := TileAt(StopCapturing(s, d), p).hp)
  {
  }

  /** setTileOwner keeps what deleteArmy leaves alone. */
  lemma SetTileOwnerKept(s: MapState, pos: Pos, army: nat)
    requires Shaped(s)
    ensures KeptBesides(s, SetTileOwner(s, pos, army))
  {
    if InBounds(s, pos) && army != TileAt(s, pos).owner {
      var r := SetTileOwner(s, pos, army);
      var id := GetUnitOnTile(s, pos);
      var t := UpdateCapturingUnit(s, id);
      UpdateCapturingTileAt(s, id);
      ReownedTileAt(t, pos, army);
      assert r == Reowned(t, pos, army);
      SetTileOwnerEffect(s, pos, army);
      forall u | u in r.units ensures u in s.units && Survived(s.units[u], r.units[u])
      {
      }
    }
  }

  lemma UpdateCapturingTileAt(s: MapState, id: nat)
    ensures var t := UpdateCapturingUnit(s, id); forall q :: TileAt(t, q) == TileAt(s, q).(hp := TileAt(t, q).hp)
  {
  }

  lemma ReownedTileAt(s: MapState, pos: Pos, army: nat)
    ensures var t := Reowned(s, pos, army);
      t.frames == s.frames && forall q :: TileAt(t, q) == TileAt(s, q).(owner := TileAt(t, q).owner)
  {
  }

  /** The same armies, differing at most in their unit and tile sets. */
  ghost predicate ArmiesBesides(s: MapState, r: MapState)
  {
    r.armies.Keys == s.armies.Keys &&
    forall a :: a in s.armies ==> r.armies[a] == s.armies[a].(units := r.armies[a].units, tiles := r.armies[a].tiles)
  }

  /** The same dimensions and override, and the tiles in done owned by transfer, the others as before. */
  ghost predicate OwnersAfter(s: MapState, r: MapState, transfer: nat, done: set<Pos>)
  {
    r.width == s.width && r.height == s.height && r.armyOverride == s.armyOverride &&
    forall p :: InBounds(s, p) ==> TileAt(r, p).owner == if p in done then transfer else TileAt(s, p).owner
  }

  /** deleteUnit leaves tile owners, army tile sets and everything besides units alone. */
  lemma DeleteUnitGround(s: MapState, id: nat)
    requires Acyclic(s.units) && id in s.units
    ensures var r := DeleteUnit(s, id);
      r.width == s.width && r.height == s.height && r.armyOverride == s.armyOverride &&
      (forall p :: TileAt(r, p).owner == TileAt(s, p).owner) &&
      ArmiesBesides(s, r) && (forall a :: a in s.armies ==> r.armies[a].tiles == s.armies[a].tiles)
  {
    var d := Family(s, id);
    var t := StopCapturing(s, d);
    StopCapturingLinks(s, d);
    forall p ensures TileAt(Removed(t, d), p).owner == TileAt(s, p).owner
    {
      RemovedTileAt(t, d, p);
    }
  }

  /** One turn of deleteArmy's unit loop: u is deleted if it is on the table and not loaded. */
  lemma DeleteArmyUnitStep(s: MapState, army: nat, transfer: nat, r: MapState, done: set<nat>, u: nat)
    requires Consistent(s) && army in s.armies && u in s.armies[army].units
    requires Consistent(r) && UnitsGone(s, army, r, done) && ArmiesBesides(s, r) && OwnersAfter(s, r, transfer, {})
    requires forall a :: a in s.armies ==> r.armies[a].tiles == s.armies[a].tiles
    requires KeptBesides(s, r)
    ensures var r' := if u in r.units && !IsLoaded(r.units[u]) then DeleteUnit(r, u) else r;
      Consistent(r') && UnitsGone(s, army, r', done + {u}) && ArmiesBesides(s, r') && OwnersAfter(s, r', transfer, {}) &&
      (forall a :: a in s.armies ==> r'.armies[a].tiles == s.armies[a].tiles) && KeptBesides(s, r')
  {
    if u in r.units && !IsLoaded(r.units[u]) {
      DeleteUnitKept(r, u);
      KeptBesidesTrans(s, r, DeleteUnit(r, u));
      DeleteUnitConsistent(r, u);
      assert r.units[u].army == army;
      DeleteUnitUnitsGone(s, army, r, done, u);
      DeleteUnitGround(r, u);
      DeleteUnitKeepsOwners(s, r, transfer, u);
    } else {
      UnitsGoneSkip(s, army, r, done, u);
    }
  }

  /** A unit that is gone or loaded needs no deleting. */
  lemma UnitsGoneSkip(s: MapState, army: nat, r: MapState, done: set<nat>, u: nat)
    requires UnitsGone(s, army, r, done) && !(u in r.units && !IsLoaded(r.units[u]))
    ensures UnitsGone(s, army, r, done + {u})
  {
  }

  /** Deleting an unloaded unit of the army extends what the unit loop has removed. */
  lemma DeleteUnitUnitsGone(s: MapState, army: nat, r: MapState, done: set<nat>, u: nat)
    requires Acyclic(r.units) && NO_UNIT !in r.units && u in r.units && !IsLoaded(r.units[u]) && r.units[u].army == army
    requires UnitsGone(s, army, r, done)
    ensures UnitsGone(s, army, DeleteUnit(r, u), done + {u})
  {
    var r' := DeleteUnit(r, u);
    DeleteUnitEffect(r, u);
    forall v | v in s.units && s.units[v].army != army && !IsLoaded(s.units[v]) ensures v in r'.units
    {
      FamilyMembers(r, u, v);
      FamilyMembers(r, u, NO_UNIT);
    }
  }

  lemma DeleteUnitKeepsOwners(s: MapState, r: MapState, transfer: nat, u: nat)
    requires Acyclic(r.units) && u in r.units
    requires ArmiesBesides(s, r) && OwnersAfter(s, r, transfer, {}) && forall a :: a in s.armies ==> r.armies[a].tiles == s.armies[a].tiles
    requires var r' := DeleteUnit(r, u);
      r'.width == r.width && r'.height == r.height && r'.armyOverride == r.armyOverride &&
      (forall p :: TileAt(r', p).owner == TileAt(r, p).owner) &&
      ArmiesBesides(r, r') && (forall a :: a in r.armies ==> r'.armies[a].tiles == r.armies[a].tiles)
    ensures var r' := DeleteUnit(r, u);
      ArmiesBesides(s, r') && OwnersAfter(s, r', transfer, {}) && forall a :: a in s.armies ==> r'.armies[a].tiles == s.armies[a].tiles
  {
  }

  /** One turn of deleteArmy's tile loop: the tile at p passes to transfer. */
  lemma DeleteArmyTileStep(s: MapState, army: nat, transfer: nat, r: MapState, done: set<Pos>, p: Pos)
    requires Consistent(s) && army in s.armies && p in s.armies[army].tiles
    requires Consistent(r) && UnitsGone(s, army, r, s.armies[army].units) && ArmiesBesides(s, r)
    requires OwnersAfter(s, r, transfer, done) && KeptBesides(s, r)
    ensures var r' := SetTileOwner(r, p, transfer);
      Consistent(r') && UnitsGone(s, army, r', s.armies[army].units) && ArmiesBesides(s, r') &&
      OwnersAfter(s, r', transfer, done + {p}) && KeptBesides(s, r')
  {
    SetTileOwnerKept(r, p, transfer);
    KeptBesidesTrans(s, r, SetTileOwner(r, p, transfer));
    ArmyTileInBounds(s, army, p);
    SetTileOwnerConsistent(r, p, transfer);
    SetTileOwnerUnits(r, p, transfer);
    UnitsGoneKept(s, army, r, SetTileOwner(r, p, transfer), s.armies[army].units);
    SetTileOwnerArmies(s, r, p, transfer);
    SetTileOwnerOwners(s, r, p, transfer, done);
  }

  /** A tile in an army's tile set is in bounds and owned by that army. */
  lemma ArmyTileInBounds(s: MapState, army: nat, p: Pos)
    requires ArmiesOwnTiles(s) && army in s.armies && p in s.armies[army].tiles
    ensures InBounds(s, p) && TileAt(s, p).owner == army
  {
  }

  /** setTileOwner keeps every unit, with its carrier and army. */
  lemma SetTileOwnerUnits(s: MapState, pos: Pos, army: nat)
    requires Shaped(s)
    ensures var r := SetTileOwner(s, pos, army);
      r.units.Keys == s.units.Keys &&
      forall u :: u in s.units ==> r.units[u].loadedOnto == s.units[u].loadedOnto && r.units[u].army == s.units[u].army
  {
    SetTileOwnerEffect(s, pos, army);
  }

  lemma UnitsGoneKept(s: MapState, army: nat, r: MapState, r': MapState, done: set<nat>)
    requires UnitsGone(s, army, r, done) && r'.units.Keys == r.units.Keys
    requires forall u :: u in r.units ==> r'.units[u].loadedOnto == r.units[u].loadedOnto && r'.units[u].army == r.units[u].army
    ensures UnitsGone(s, army, r', done)
  {
  }

  lemma SetTileOwnerArmies(s: MapState, r: MapState, pos: Pos, army: nat)
    requires Shaped(r) && ArmiesBesides(s, r)
    ensures ArmiesBesides(s, SetTileOwner(r, pos, army))
  {
    SetTileOwnerEffect(r, pos, army);
  }

  lemma SetTileOwnerOwners(s: MapState, r: MapState, pos: Pos, transfer: nat, done: set<Pos>)
    requires Shaped(r) && OwnersAfter(s, r, transfer, done) && InBounds(s, pos)
    ensures OwnersAfter(s, SetTileOwner(r, pos, transfer), transfer, done + {pos})
  {
    SetTileOwnerEffect(r, pos, transfer);
  }

  /** Erasing an army from a consistent map keeps it consistent. */
  lemma ErasedArmyConsistent(s: MapState, army: nat, override: Option<nat>)
    requires Consistent(s)
    ensures Consistent(s.(armies := s.armies - {army}, armyOverride := override))
  {
    var r := s.(armies := s.armies - {army}, armyOverride := override);
    assert r.tiles == s.tiles && r.units == s.units && r.frames == s.frames && r.width == s.width && r.height == s.height;
    assert SameShape(s, r) && SameTileUnits(s, r) && SamePositions(s, r) && SameLoadEdges(s, r);
    ShapeKept(s, r);
    PlacementKept(s, r);
    LoadsKept(s, r);
    AcyclicKept(s, r);
    SelectionKept(s, r);
    ErasedArmyOwnership(s, r, army);
    ErasedArmyMembership(s, r, army);
    assert IDs(r);
  }

  lemma ErasedArmyOwnership(s: MapState, r: MapState, army: nat)
    requires ArmiesOwnTiles(s) && OwnersListTiles(s)
    requires r.tiles == s.tiles && r.width == s.width && r.height == s.height && r.armies == s.armies - {army}
    ensures ArmiesOwnTiles(r) && OwnersListTiles(r)
  {
    assert forall p :: TileAt(r, p) == TileAt(s, p) && InBounds(r, p) == InBounds(s, p);
  }

  lemma ErasedArmyMembership(s: MapState, r: MapState, army: nat)
    requires ArmiesOwnUnits(s) && ArmiesListUnits(s)
    requires r.units == s.units && r.armies == s.armies - {army}
    ensures ArmiesOwnUnits(r) && ArmiesListUnits(r)
  {
  }

  /** What deleteArmy's unit loop keeps, with the army's units in done visited. */
  ghost predicate UnitPhase(s: MapState, army: nat, transfer: nat, r: MapState, done: set<nat>)
  {
    Consistent(r) && UnitsGone(s, army, r, done) && ArmiesBesides(s, r) && OwnersAfter(s, r, transfer, {}) &&
    (forall a :: a in s.armies ==> r.armies[a].tiles == s.armies[a].tiles) && KeptBesides(s, r)
  }

  /** What deleteArmy's tile loop keeps, with the army's tiles in done passed on. */
  ghost predicate TilePhase(s: MapState, army: nat, transfer: nat, r: MapState, done: set<Pos>)
    requires army in s.armies
  {
    Consistent(r) && UnitsGone(s, army, r, s.armies[army].units) && ArmiesBesides(s, r) && OwnersAfter(s, r, transfer, done) &&
    KeptBesides(s, r)
  }

  /** deleteArmy with the army's unit and tile loops done: the override and the army itself go. */
  function ErasedArmy(r: MapState, army: nat): MapState
  {
    r.(armies := r.armies - {army}, armyOverride := if r.armyOverride == Some(army) then None else r.armyOverride)
  }

  /** What deleteArmy promises once the loops are done. */
  ghost predicate ArmyDeleted(s: MapState, army: nat, transfer: nat, r: MapState)
    requires army in s.armies
  {
    r.armies.Keys == s.armies.Keys - {army} &&
    (forall a :: a in s.armies && a != army ==>
      r.armies[a] == s.armies[a].(units := r.armies[a].units, tiles := r.armies[a].tiles)) &&
    r.units.Keys <= s.units.Keys &&
    (forall u :: u in s.armies[army].units && u in s.units && !IsLoaded(s.units[u]) ==> u !in r.units) &&
    (forall u :: u in s.units && s.units[u].army != army && !IsLoaded(s.units[u]) ==> u in r.units) &&
    r.width == s.width && r.height == s.height &&
    (forall p :: InBounds(s, p) ==> TileAt(r, p).owner == if TileAt(s, p).owner == army then transfer else TileAt(s, p).owner) &&
    r.armyOverride == (if s.armyOverride == Some(army) then None else s.armyOverride) &&
    KeptBesides(s, r)
  }

  lemma UnitPhaseStart(s: MapState, army: nat, transfer: nat)
    requires Consistent(s)
    ensures UnitPhase(s, army, transfer, s, {})
  {
  }

  lemma UnitPhaseStep(s: MapState, army: nat, transfer: nat, r: MapState, done: set<nat>, u: nat)
    requires Consistent(s) && army in s.armies && u in s.armies[army].units && UnitPhase(s, army, transfer, r, done)
    ensures UnitPhase(s, army, transfer, if u in r.units && !IsLoaded(r.units[u]) then DeleteUnit(r, u) else r, done + {u})
  {
    DeleteArmyUnitStep(s, army, transfer, r, done, u);
  }

  lemma TilePhaseStart(s: MapState, army: nat, transfer: nat, r: MapState)
    requires army in s.armies && UnitPhase(s, army, transfer, r, s.armies[army].units)
    ensures TilePhase(s, army, transfer, r, {}) && r.armies[army].tiles == s.armies[army].tiles
  {
  }

  lemma TilePhaseStep(s: MapState, army: nat, transfer: nat, r: MapState, done: set<Pos>, p: Pos)
    requires Consistent(s) && army in s.armies && p in s.armies[army].tiles && TilePhase(s, army, transfer, r, done)
    ensures TilePhase(s, army, transfer, SetTileOwner(r, p, transfer), done + {p})
  {
    DeleteArmyTileStep(s, army, transfer, r, done, p);
  }

  lemma TilePhaseEnd(s: MapState, army: nat, transfer: nat, r: MapState)
    requires Consistent(s) && army in s.armies && TilePhase(s, army, transfer, r, s.armies[army].tiles)
    ensures Consistent(ErasedArmy(r, army)) && ArmyDeleted(s, army, transfer, ErasedArmy(r, army))
  {
    DeleteArmyOwners(s, army, transfer, r);
    ErasedArmyConsistent(r, army, ErasedArmy(r, army).armyOverride);
    ArmyDeletedFrom(s, army, transfer, r);
  }

  lemma ArmyDeletedFrom(s: MapState, army: nat, transfer: nat, r: MapState)
    requires army in s.armies && UnitsGone(s, army, r, s.armies[army].units) && ArmiesBesides(s, r)
    requires r.width == s.width && r.height == s.height && r.armyOverride == s.armyOverride
    requires forall p :: InBounds(s, p) ==> TileAt(r, p).owner == if TileAt(s, p).owner == army then transfer else TileAt(s, p).owner
    requires KeptBesides(s, r)
    ensures ArmyDeleted(s, army, transfer, ErasedArmy(r, army))
  {
    var e := ErasedArmy(r, army);
    assert e.tiles == r.tiles && e.units == r.units;
    assert forall p :: TileAt(e, p) == TileAt(r, p);
  }

  /**
   * deleteArmy: fails, changing nothing, for an absent army or a transfer
   * target that is neither on the map nor NO_ARMY. Otherwise the army's
   * units that are not loaded are deleted (with what they carry), then each
   * of its tiles passes to the transfer target, an override selecting the
   * army is cleared, and the army is erased.
   */
  ghost method DeleteArmy(s: MapState, army: nat, transfer: nat) returns (r: MapState, ok: bool)
    requires Consistent(s)
    ensures ok <==> army in s.armies && (transfer in s.armies || transfer == NO_ARMY)
    ensures !ok ==> r == s
    ensures ok ==> army in s.armies && ArmyDeleted(s, army, transfer, r)
    ensures KeptBesides(s, r) && r.currentArmy == s.currentArmy && r.sel == s.sel && r.lastUnitID == s.lastUnitID
    ensures Consistent(r)
  {
    if army !in s.armies || (transfer !in s.armies && transfer != NO_ARMY) {
      KeptBesidesRefl(s);
      return s, false;
    }
    r := DeleteArmyUnits(s, army, transfer);
    TilePhaseStart(s, army, transfer, r);
    r := DeleteArmyTiles(s, army, transfer, r);
    TilePhaseEnd(s, army, transfer, r);
    r := ErasedArmy(r, army);
    KeptFields(s, r);
    ok := true;
  }

  lemma KeptBesidesRefl(s: MapState)
    ensures KeptBesides(s, s)
  {
  }

  /** What KeptBesides keeps includes the selected army, the selected tile and the last unit ID. */
  lemma KeptFields(s: MapState, r: MapState)
    requires KeptBesides(s, r)
    ensures r.currentArmy == s.currentArmy && r.sel == s.sel && r.lastUnitID == s.lastUnitID
  {
  }

  /** deleteArmy's unit loop: each unit of the army that exists and is not loaded is deleted. */
  ghost method DeleteArmyUnits(s: MapState, army: nat, transfer: nat) returns (r: MapState)
    requires Consistent(s) && army in s.armies
    ensures UnitPhase(s, army, transfer, r, s.armies[army].units)
  {
    r := s;
    UnitPhaseStart(s, army, transfer);
    var units := s.armies[army].units;
    ghost var done: set<nat> := {};
    while units != {}
      invariant units <= s.armies[army].units && done == s.armies[army].units - units
      invariant UnitPhase(s, army, transfer, r, done)
      decreases units
    {
      var u :| u in units;
      UnitPhaseStep(s, army, transfer, r, done, u);
      VisitOne(s.armies[army].units, units, done, u);
      if u in r.units && !IsLoaded(r.units[u]) {
        r := DeleteUnit(r, u);
      }
      units := units - {u};
      done := done + {u};
    }
  }

  /** deleteArmy's tile loop: each tile of the army passes to the transfer target. */
  ghost method DeleteArmyTiles(s: MapState, army: nat, transfer: nat, r0: MapState) returns (r: MapState)
    requires Consistent(s) && army in s.armies
    requires TilePhase(s, army, transfer, r0, {}) && r0.armies[army].tiles == s.armies[army].tiles
    ensures TilePhase(s, army, transfer, r, s.armies[army].tiles)
  {
    r := r0;
    var tiles := r.armies[army].tiles;
    ghost var passed: set<Pos> := {};
    while tiles != {}
      invariant tiles <= s.armies[army].tiles && passed == s.armies[army].tiles - tiles
      invariant TilePhase(s, army, transfer, r, passed)
      decreases tiles
    {
      var p :| p in tiles;
      TilePhaseStep(s, army, transfer, r, passed, p);
      VisitOne(s.armies[army].tiles, tiles, passed, p);
      r := SetTileOwner(r, p, transfer);
      tiles := tiles - {p};
      passed := passed + {p};
    }
  }

  /** Visiting one more element of what is left of a set. */
  lemma VisitOne<T>(all: set<T>, left: set<T>, done: set<T>, x: T)
    requires left <= all && done == all - left && x in left
    ensures left - {x} <= all && done + {x} == all - (left - {x})
  {
  }

  /** Nothing left means everything visited. */
  lemma VisitedAll<T>(all: set<T>, left: set<T>, done: set<T>)
    requires done == all - left && left == {}
    ensures done == all
  {
  }

  /** Once every tile of the army has passed to transfer, exactly the tiles the army owned are transfer's. */
  lemma DeleteArmyOwners(s: MapState, army: nat, transfer: nat, r: MapState)
    requires Consistent(s) && army in s.armies && OwnersAfter(s, r, transfer, s.armies[army].tiles)
    ensures forall p :: InBounds(s, p) ==> TileAt(r, p).owner == if TileAt(s, p).owner == army then transfer else TileAt(s, p).owner
  {
  }

  // ------------------------------------------------------------------
  // createArmy
  // ------------------------------------------------------------------

  /** The team the next army gets: the counter, except that its largest value is skipped for 0. */
  function NextTeam(counter: UInt32): (t: UInt32)
    ensures t < TEAM_ID_MAX
    ensures counter < TEAM_ID_MAX ==> t == counter
    ensures counter == TEAM_ID_MAX ==> t == 0
  {
    if counter == TEAM_ID_MAX then 0 else counter
  }

  /**
   * createArmy: fails, changing nothing, for a null country or one whose
   * turn order already keys an army; otherwise a new army of that country
   * is keyed by its turn order and takes the next team, and the counter
   * moves one past it.
   */
  function CreateArmy(s: MapState, country: Option<GameProperties.Country>): (r: (MapState, bool))
    ensures r.1 <==> country.Some? && country.value.turnOrder !in s.armies
    ensures !r.1 ==> r.0 == s
    ensures r.1 ==> r.0.armies.Keys == s.armies.Keys + {country.value.turnOrder} && r.0.units == s.units
  {
    if country.None? || country.value.turnOrder in s.armies then (s, false)
    else
      var team := NextTeam(s.teamIDCounter);
      (s.(armies := s.armies[country.value.turnOrder := NewArmy(country.value.scriptName, team)],
          teamIDCounter := team + 1), true)
  }

  /**
   * createArmy succeeds exactly for a country whose turn order is free; then
   * the armies are the old ones plus one keyed by that turn order, of that
   * country, with the team the counter stood at (0 in place of the largest
   * team), and the counter has moved one past that team.
   */
  lemma CreateArmyEffect(s: MapState, country: Option<GameProperties.Country>)
    ensures var (r, ok) := CreateArmy(s, country);
      (ok <==> country.Some? && country.value.turnOrder !in s.armies) &&
      (!ok ==> r == s) &&
      (ok ==> var id := country.value.turnOrder;
        r.armies.Keys == s.armies.Keys + {id} &&
        (forall a :: a in s.armies ==> r.armies[a] == s.armies[a]) &&
        r.armies[id].country == country.value.scriptName && r.armies[id].team == NextTeam(s.teamIDCounter) &&
        r.armies[id].units == {} && r.armies[id].tiles == {} && r.armies[id].funds == 0 &&
        r.teamIDCounter == NextTeam(s.teamIDCounter) + 1 &&
        r == s.(armies := r.armies, teamIDCounter := r.teamIDCounter))
  {
  }

  /** No tile is owned by, and no unit belongs to, army ID id. */
  ghost predicate Unclaimed(s: MapState, id: nat)
  {
    (forall p :: InBounds(s, p) ==> TileAt(s, p).owner != id) &&
    (forall u :: u in s.units ==> s.units[u].army != id)
  }

  /**
   * createArmy keeps the map consistent when the new army's ID is not
   * NO_ARMY and nothing on the map still claims it (a tile or unit left
   * over from an earlier army with that ID would not be listed by the new
   * army).
   */
  lemma CreateArmyConsistent(s: MapState, country: Option<GameProperties.Country>)
    requires Consistent(s)
    requires country.Some? ==> country.value.turnOrder != NO_ARMY && Unclaimed(s, country.value.turnOrder)
    ensures Consistent(CreateArmy(s, country).0)
  {
    var (r, ok) := CreateArmy(s, country);
    if ok {
      var id := country.value.turnOrder;
      CreateArmyEffect(s, country);
      AddedArmyConsistent(s, r, id);
    }
  }

  lemma AddedArmyConsistent(s: MapState, r: MapState, id: nat)
    requires Consistent(s) && id != NO_ARMY && id !in s.armies && Unclaimed(s, id)
    requires r == s.(armies := r.armies, teamIDCounter := r.teamIDCounter)
    requires r.armies.Keys == s.armies.Keys + {id} && (forall a :: a in s.armies ==> r.armies[a] == s.armies[a])
    requires r.armies[id].units == {} && r.armies[id].tiles == {}
    ensures Consistent(r)
  {
    assert r.tiles == s.tiles && r.units == s.units && r.frames == s.frames && r.width == s.width && r.height == s.height;
    AddedArmyOwnership(s, r, id);
    AddedArmyMembership(s, r, id);
    assert SameShape(s, r) && SameTileUnits(s, r) && SamePositions(s, r) && SameLoadEdges(s, r);
    ShapeKept(s, r);
    PlacementKept(s, r);
    LoadsKept(s, r);
    AcyclicKept(s, r);
    SelectionKept(s, r);
    assert IDs(r);
  }

  lemma AddedArmyOwnership(s: MapState, r: MapState, id: nat)
    requires Shaped(s) && ArmiesOwnTiles(s) && OwnersListTiles(s) && id !in s.armies && Unclaimed(s, id)
    requires r.tiles == s.tiles && r.width == s.width && r.height == s.height
    requires r.armies.Keys == s.armies.Keys + {id} && (forall a :: a in s.armies ==> r.armies[a] == s.armies[a])
    requires r.armies[id].tiles == {}
    ensures ArmiesOwnTiles(r) && OwnersListTiles(r)
  {
    assert forall p :: TileAt(r, p) == TileAt(s, p) && InBounds(r, p) == InBounds(s, p);
  }

  lemma AddedArmyMembership(s: MapState, r: MapState, id: nat)
    requires ArmiesOwnUnits(s) && ArmiesListUnits(s) && id !in s.armies && Unclaimed(s, id)
    requires r.units == s.units
    requires r.armies.Keys == s.armies.Keys + {id} && (forall a :: a in s.armies ==> r.armies[a] == s.armies[a])
    requires r.armies[id].units == {}
    ensures ArmiesOwnUnits(r) && ArmiesListUnits(r)
  {
  }

  // ------------------------------------------------------------------
  // Teams, funds and COs
  // ------------------------------------------------------------------

  /** getArmyTeam: 0 for an army that is not on the map. */
  function GetArmyTeam(s: MapState, army: nat): (t: UInt32)
    ensures army !in s.armies ==> t == 0
    ensures army in s.armies ==> t == s.armies[army].team
  {
    if army in s.armies then s.armies[army].team else 0
  }

  /** getArmyFunds: -1 for an army that is not on the map. */
  function GetArmyFunds(s: MapState, army: nat): (f: int)
    ensures army !in s.armies ==> f == -1
    ensures army in s.armies ==> f == s.armies[army].funds
  {
    if army in s.armies then s.armies[army].funds else -1
  }

  /** setArmyFunds: nothing for an absent army or unchanged funds; otherwise army::setFunds. */
  function SetArmyFunds(s: MapState, army: nat, funds: int): (r: MapState)
  {
    if army !in s.armies || funds == GetArmyFunds(s, army) then s
    else s.(armies := s.armies[army := SetFunds(s.armies[army], funds)])
  }

  /** offsetArmyFunds: setArmyFunds with the army's funds plus the offset, for an army on the map. */
  function OffsetArmyFunds(s: MapState, army: nat, funds: int): (r: MapState)
    ensures r == s.(armies := r.armies) && r.armies.Keys == s.armies.Keys
    ensures army !in s.armies || funds == 0 ==> r == s
  {
    if army in s.armies then SetArmyFunds(s, army, GetArmyFunds(s, army) + funds) else s
  }

  /**
   * For an army on the map, offsetting its funds leaves them at the old
   * funds plus the offset, or at 0 when that sum is not positive, and changes
   * nothing else; for any other army nothing changes.
   */
  lemma OffsetArmyFundsEffect(s: MapState, army: nat, funds: int)
    requires forall a :: a in s.armies ==> s.armies[a].funds >= 0
    ensures var r := OffsetArmyFunds(s, army, funds);
      (army !in s.armies ==> r == s) &&
      (army in s.armies ==>
        r.armies.Keys == s.armies.Keys &&
        r.armies[army] == s.armies[army].(funds := if s.armies[army].funds + funds <= 0 then 0 else s.armies[army].funds + funds) &&
        r == s.(armies := r.armies) && (forall a :: a in s.armies && a != army ==> r.armies[a] == s.armies[a]))
  {
  }

  /** Funds stay non-negative, and offsetting them never touches what consistency speaks of. */
  lemma OffsetArmyFundsKeeps(s: MapState, army: nat, funds: int)
    requires forall a :: a in s.armies ==> s.armies[a].funds >= 0
    ensures var r := OffsetArmyFunds(s, army, funds);
      SameLinks(s, r) && forall a :: a in r.armies ==> r.armies[a].funds >= 0
  {
    OffsetArmyFundsEffect(s, army, funds);
  }

  /**
   * setArmyCOs: nothing happens for an absent army, when neither CO is
   * given, or when the pair given is the army's current pair; otherwise
   * army::setCOs.
   */
  function SetArmyCOs(s: MapState, army: nat, current: Option<string>, tag: Option<string>): (r: MapState)
    ensures r == s.(armies := r.armies) && r.armies.Keys == s.armies.Keys
    ensures forall a :: a in s.armies && a != army ==> r.armies[a] == s.armies[a]
  {
    if army !in s.armies || (current.None? && tag.None?) then s
    else if current == s.armies[army].currentCO && tag == s.armies[army].tagCO then s
    else s.(armies := s.armies[army := SetCOs(s.armies[army], current, tag)])
  }

  /**
   * The COs of one army change, as army::setCOs sets them, unless there is
   * no such army or no CO is given; a tag CO given alone becomes the
   * current CO. Nothing else changes.
   */
  lemma SetArmyCOsEffect(s: MapState, army: nat, current: Option<string>, tag: Option<string>)
    ensures var r := SetArmyCOs(s, army, current, tag);
      (army !in s.armies || (current.None? && tag.None?) ==> r == s) &&
      (army in s.armies && current == s.armies[army].currentCO && tag == s.armies[army].tagCO ==> r == s) &&
      (army in s.armies && (current.Some? || tag.Some?) &&
       (current != s.armies[army].currentCO || tag != s.armies[army].tagCO) ==>
        r == s.(armies := s.armies[army := SetCOs(s.armies[army], current, tag)]) &&
        r.armies[army].currentCO.Some? &&
        (current.Some? ==> r.armies[army].currentCO == current && r.armies[army].tagCO == tag) &&
        (current.None? ==> r.armies[army].currentCO == tag && r.armies[army].tagCO.None?))
  {
    if army in s.armies && (current.Some? || tag.Some?) {
      SetCOsKeepsACurrentCO(s.armies[army], current, tag);
    }
  }

  /** tagArmyCOs: swaps an army's COs; nothing happens for an absent army or one without a tag CO. */
  function TagArmyCOs(s: MapState, army: nat): (r: MapState)
    ensures r == s.(armies := r.armies) && r.armies.Keys == s.armies.Keys
    ensures forall a :: a in s.armies && a != army ==> r.armies[a] == s.armies[a]
  {
    if army in s.armies && s.armies[army].tagCO.Some? then s.(armies := s.armies[army := TagCOs(s.armies[army])])
    else s
  }

  /**
   * Tagging swaps the current and tag COs of the one army and changes
   * nothing else, and tagging twice, with both COs present, restores the map.
   */
  lemma TagArmyCOsEffect(s: MapState, army: nat)
    ensures var r := TagArmyCOs(s, army);
      (army !in s.armies || s.armies[army].tagCO.None? ==> r == s) &&
      (army in s.armies && s.armies[army].tagCO.Some? ==>
        r.armies.Keys == s.armies.Keys && r == s.(armies := r.armies) &&
        r.armies[army] == s.armies[army].(currentCO := s.armies[army].tagCO, tagCO := s.armies[army].currentCO) &&
        (forall a :: a in s.armies && a != army ==> r.armies[a] == s.armies[a]))
    ensures army in s.armies && s.armies[army].currentCO.Some? && s.armies[army].tagCO.Some? ==>
      TagArmyCOs(TagArmyCOs(s, army), army) == s
  {
    if army in s.armies && s.armies[army].currentCO.Some? && s.armies[army].tagCO.Some? {
      TagCOsTwice(s.armies[army]);
      assert s.armies[army := s.armies[army]] == s.armies;
    }
  }

  // ------------------------------------------------------------------
  // setArmyTeam
  // ------------------------------------------------------------------

  /** Some unit of d was capturing from the tile at q, in bounds. */
  ghost predicate RestoredAt(s: MapState, d: set<nat>, q: Pos)
  {
    exists u :: u in d && u != NO_UNIT && u in s.units && s.units[u].capturing && s.units[u].position == q && InBounds(s, q)
  }

  /**
   * t is s after _updateCapturingUnit on every ID in d, in any order: the
   * units of d have stopped capturing, the tiles they were capturing from
   * have their terrain's maximum HP, and nothing else differs.
   */
  ghost predicate StoppedFrom(s: MapState, t: MapState, d: set<nat>)
  {
    t == s.(tiles := t.tiles, units := t.units) && SameShape(s, t) && t.units.Keys == s.units.Keys &&
    (forall u :: u in s.units ==> t.units[u] == if u in d && u != NO_UNIT then s.units[u].(capturing := false) else s.units[u]) &&
    (forall q :: TileAt(t, q) == if RestoredAt(s, d, q) then TileAt(s, q).(hp := TileAt(s, q).kind.maxHP) else TileAt(s, q))
  }

  /** Stopping nothing leaves the map as it is. */
  lemma StoppedFromNothing(s: MapState)
    ensures StoppedFrom(s, s, {})
  {
  }

  /** One more _updateCapturingUnit call extends d by its ID. */
  lemma StoppedFromStep(s: MapState, t: MapState, d: set<nat>, u: nat)
    requires StoppedFrom(s, t, d)
    ensures StoppedFrom(s, UpdateCapturingUnit(t, u), d + {u})
  {
    var r := UpdateCapturingUnit(t, u);
    forall q ensures TileAt(r, q) == if RestoredAt(s, d + {u}, q) then TileAt(s, q).(hp := TileAt(s, q).kind.maxHP) else TileAt(s, q)
    {
      UpdateCapturingUnitEffect(t, u, q);
      StoppedTileStep(s, t, d, u, q);
    }
    if u in t.units && u != NO_UNIT {
      UpdateCapturingUnitUnits(t, u);
    }
  }

  lemma StoppedTileStep(s: MapState, t: MapState, d: set<nat>, u: nat, q: Pos)
    requires StoppedFrom(s, t, d)
    ensures (RestoredAt(s, d + {u}, q) == (RestoredAt(s, d, q) ||
      (u != NO_UNIT && u in t.units && t.units[u].capturing && t.units[u].position == q && InBounds(t, q))))
  {
    if u != NO_UNIT && u in t.units && t.units[u].capturing && t.units[u].position == q && InBounds(t, q) {
      assert u in d + {u} && u != NO_UNIT && u in s.units && s.units[u].capturing && s.units[u].position == q && InBounds(s, q);
    }
    if RestoredAt(s, d + {u}, q) {
      var v :| v in d + {u} && v != NO_UNIT && v in s.units && s.units[v].capturing && s.units[v].position == q && InBounds(s, q);
      if v != u {
        assert v in d;
      }
    }
  }

  /** Stopping captures changes nothing consistency speaks of. */
  lemma StoppedFromLinks(s: MapState, t: MapState, d: set<nat>)
    requires StoppedFrom(s, t, d)
    ensures SameLinks(s, t)
  {
    forall q ensures TileAt(t, q).unit == TileAt(s, q).unit && TileAt(t, q).owner == TileAt(s, q).owner
    {
    }
  }

  /** The IDs setArmyTeam stops: the army's units, and the units on its tiles. */
  ghost function TeamChangeStops(s: MapState, army: nat): set<nat>
    requires army in s.armies
  {
    s.armies[army].units + UnitsOn(s, s.armies[army].tiles)
  }

  /** What getUnitOnTile gives for each of the tiles ps. */
  ghost function UnitsOn(s: MapState, ps: set<Pos>): set<nat>
  {
    set p | p in ps :: GetUnitOnTile(s, p)
  }

  lemma UnitsOnAdd(s: MapState, ps: set<Pos>, p: Pos)
    ensures UnitsOn(s, ps + {p}) == UnitsOn(s, ps) + {GetUnitOnTile(s, p)}
  {
  }

  /** The _updateCapturingUnit loop over a set of unit IDs, continuing a run of such calls on base. */
  method StopEach(ghost base: MapState, r0: MapState, ghost d: set<nat>, ids: set<nat>) returns (r: MapState)
    requires StoppedFrom(base, r0, d)
    ensures StoppedFrom(base, r, d + ids) && r.armies == r0.armies
  {
    r := r0;
    var rest := ids;
    ghost var seen: set<nat> := {};
    ghost var done := d;
    while rest != {}
      invariant rest <= ids && seen == ids - rest && done == d + seen
      invariant StoppedFrom(base, r, done) && r.armies == r0.armies
      decreases rest
    {
      var u :| u in rest;
      StoppedFromStep(base, r, done, u);
      VisitOne(ids, rest, seen, u);
      r := UpdateCapturingUnit(r, u);
      rest := rest - {u};
      seen := seen + {u};
      done := done + {u};
    }
    VisitedAll(ids, rest, seen);
  }

  /** The _updateCapturingUnit loop over the units on a set of tiles, continuing a run of such calls on base. */
  method StopOnTiles(ghost base: MapState, r0: MapState, ghost d: set<nat>, tiles: set<Pos>) returns (r: MapState)
    requires StoppedFrom(base, r0, d)
    ensures StoppedFrom(base, r, d + UnitsOn(base, tiles)) && r.armies == r0.armies
  {
    r := r0;
    var rest := tiles;
    ghost var seen: set<Pos> := {};
    ghost var done := d;
    while rest != {}
      invariant rest <= tiles && seen == tiles - rest && done == d + UnitsOn(base, seen)
      invariant StoppedFrom(base, r, done) && r.armies == r0.armies
      decreases rest
    {
      var p :| p in rest;
      TileStopStep(base, r, done, seen, p);
      VisitOne(tiles, rest, seen, p);
      var id := GetUnitOnTile(r, p);
      r := UpdateCapturingUnit(r, id);
      rest := rest - {p};
      seen := seen + {p};
      done := done + {id};
    }
    VisitedAll(tiles, rest, seen);
  }

  /** One turn of StopOnTiles's loop. */
  lemma TileStopStep(base: MapState, r: MapState, done: set<nat>, seen: set<Pos>, p: Pos)
    requires StoppedFrom(base, r, done)
    ensures var id := GetUnitOnTile(r, p);
      StoppedFrom(base, UpdateCapturingUnit(r, id), done + {id}) && UpdateCapturingUnit(r, id).armies == r.armies &&
      UnitsOn(base, seen + {p}) == UnitsOn(base, seen) + {id}
  {
    StoppedFromLinks(base, r, done);
    SameUnitOnTile(base, r, p);
    StoppedFromStep(base, r, done, GetUnitOnTile(r, p));
    UnitsOnAdd(base, seen, p);
  }

  /**
   * setArmyTeam: nothing for an absent army or an unchanged team; otherwise
   * the army takes the team, then every unit of the army and every unit on
   * one of its tiles stops capturing.
   */
  method SetArmyTeam(s: MapState, army: nat, team: UInt32) returns (r: MapState)
    ensures army !in s.armies || team == s.armies[army].team ==> r == s
    ensures army in s.armies && team != s.armies[army].team ==>
      var t := s.(armies := s.armies[army := s.armies[army].(team := team)]);
      StoppedFrom(t, r, TeamChangeStops(s, army)) && r.armies == t.armies
  {
    if army !in s.armies || team == s.armies[army].team {
      return s;
    }
    var t := s.(armies := s.armies[army := s.armies[army].(team := team)]);
    RetaggedLinks(s, t);
    StoppedFromNothing(t);
    r := StopEach(t, t, {}, s.armies[army].units);
    r := StopOnTiles(t, r, {} + s.armies[army].units, s.armies[army].tiles);
    UnitsOnSame(s, t, s.armies[army].tiles);
    assert TeamChangeStops(s, army) == {} + s.armies[army].units + UnitsOn(t, s.armies[army].tiles);
  }

  /** Two maps with the same links have the same units on the same tiles. */
  lemma UnitsOnSame(s: MapState, t: MapState, ps: set<Pos>)
    requires SameLinks(s, t)
    ensures UnitsOn(s, ps) == UnitsOn(t, ps)
  {
    forall p | p in ps ensures GetUnitOnTile(s, p) == GetUnitOnTile(t, p)
    {
      SameUnitOnTile(s, t, p);
    }
  }

  /** getUnitOnTile reads only what stopping captures leaves alone. */
  lemma SameUnitOnTile(s: MapState, r: MapState, p: Pos)
    requires SameLinks(s, r)
    ensures GetUnitOnTile(r, p) == GetUnitOnTile(s, p)
  {
  }

  /** Changing what an army holds besides its units and tiles changes no link. */
  lemma RetaggedLinks(s: MapState, t: MapState)
    requires t == s.(armies := t.armies) && t.armies.Keys == s.armies.Keys
    requires forall a :: a in s.armies ==> t.armies[a].units == s.armies[a].units && t.armies[a].tiles == s.armies[a].tiles
    ensures SameLinks(s, t)
  {
    assert t.tiles == s.tiles && t.units == s.units;
  }

  /** setArmyTeam keeps the map consistent. */
  lemma SetArmyTeamConsistent(s: MapState, army: nat, team: UInt32, r: MapState)
    requires Consistent(s)
    requires army in s.armies && team != s.armies[army].team
    requires var t := s.(armies := s.armies[army := s.armies[army].(team := team)]);
      StoppedFrom(t, r, TeamChangeStops(s, army))
    ensures Consistent(r)
  {
    var t := s.(armies := s.armies[army := s.armies[army].(team := team)]);
    RetaggedLinks(s, t);
    SameLinksConsistent(s, t);
    StoppedFromLinks(t, r, TeamChangeStops(s, army));
    SameLinksConsistent(t, r);
  }

  // ------------------------------------------------------------------
  // getUnitsOfArmyByPriority
  // ------------------------------------------------------------------

  /** The turn-start priority of a unit's type. */
  function Priority(s: MapState, u: nat): UInt32
    requires u in s.units
  {
    s.units[u].kind.turnStartPriority
  }

  /**
   * groups holds the units ids, each under the turn-start priority of its
   * type, with no empty group and nothing else.
   */
  ghost predicate Grouped(s: MapState, ids: set<nat>, groups: map<UInt32, set<nat>>)
    requires ids <= s.units.Keys
  {
    (forall k :: k in groups ==> groups[k] != {} && forall u :: u in groups[k] ==> u in ids && Priority(s, u) == k) &&
    (forall u :: u in ids ==> Priority(s, u) in groups && u in groups[Priority(s, u)])
  }

  /**
   * getUnitsOfArmyByPriority: an empty map for an army that is not on the
   * map; otherwise the army's units grouped by the turn-start priority of
   * their types.
   */
  method UnitsOfArmyByPriority(s: MapState, army: nat) returns (groups: map<UInt32, set<nat>>)
    requires army in s.armies ==> s.armies[army].units <= s.units.Keys
    ensures army !in s.armies ==> groups == map[]
    ensures army in s.armies ==> Grouped(s, s.armies[army].units, groups)
  {
    if army !in s.armies {
      return map[];
    }
    var units := s.armies[army].units;
    groups := map[];
    var rest := units;
    ghost var seen: set<nat> := {};
    while rest != {}
      invariant rest <= units && seen == units - rest && Grouped(s, seen, groups)
      decreases rest
    {
      var u :| u in rest;
      VisitOne(units, rest, seen, u);
      var k := s.units[u].kind.turnStartPriority;
      groups := groups[k := (if k in groups then groups[k] else {}) + {u}];
      rest := rest - {u};
      seen := seen + {u};
    }
    VisitedAll(units, rest, seen);
  }

  /** The grouping is unique: two groupings of the same units are the same map. */
  lemma GroupedUnique(s: MapState, ids: set<nat>, g1: map<UInt32, set<nat>>, g2: map<UInt32, set<nat>>)
    requires ids <= s.units.Keys && Grouped(s, ids, g1) && Grouped(s, ids, g2)
    ensures g1 == g2
  {
    forall k | k in g1 ensures k in g2 && g1[k] == g2[k]
    {
      var u :| u in g1[k];
      assert u in g2[k];
    }
    forall k | k in g2 ensures k in g1
    {
      var u :| u in g2[k];
    }
  }

  /** The groups are disjoint and together are exactly the units grouped. */
  lemma GroupedPartition(s: MapState, ids: set<nat>, groups: map<UInt32, set<nat>>)
    requires ids <= s.units.Keys && Grouped(s, ids, groups)
    ensures forall k1, k2 :: k1 in groups && k2 in groups && k1 != k2 ==> groups[k1] * groups[k2] == {}
    ensures forall u :: u in ids <==> exists k :: k in groups && u in groups[k]
  {
    forall k1, k2, u | k1 in groups && k2 in groups && k1 != k2 && u in groups[k1] ensures u !in groups[k2]
    {
      assert Priority(s, u) == k1;
    }
  }

  // ------------------------------------------------------------------
  // The default win condition
  // ------------------------------------------------------------------

  /** Every army on the map is on one team. */
  ghost predicate OneTeamLeft(s: MapState)
  {
    forall a, b :: a in s.armies && b in s.armies ==> s.armies[a].team == s.armies[b].team
  }

  /**
   * defaultWinCondition: true with no armies; otherwise compares every
   * army's team with the first army's, stopping at the first that differs.
   */
  method DefaultWinCondition(s: MapState) returns (won: bool)
    ensures won <==> OneTeamLeft(s)
  {
    if |s.armies| == 0 {
      return true;
    }
    var firstTeam := s.armies[FirstArmy(s)].team;
    var rest := s.armies.Keys;
    while rest != {}
      invariant rest <= s.armies.Keys
      invariant forall a :: a in s.armies && a !in rest ==> s.armies[a].team == firstTeam
      decreases rest
    {
      var a :| a in rest;
      if s.armies[a].team != firstTeam {
        assert !OneTeamLeft(s) by {
          assert s.armies[a].team != s.armies[FirstArmy(s)].team;
        }
        return false;
      }
      rest := rest - {a};
    }
    return true;
  }

  // ------------------------------------------------------------------
  // Cycling through the armies
  // ------------------------------------------------------------------

  /** A least element of a non-empty set of IDs. */
  lemma {:induction false} LeastElement(k: set<nat>) returns (m: nat)
    requires k != {}
    ensures m in k && forall x :: x in k ==> m <= x
    decreases |k|
  {
    var x :| x in k;
    if k == {x} {
      m := x;
    } else {
      var rest := k - {x};
      var m' := LeastElement(rest);
      m := if x < m' then x else m';
      assert forall y :: y in k ==> y == x || y in rest;
    }
  }

  /** A non-empty set of IDs has a least element. */
  lemma HasLeast(k: set<nat>)
    requires k != {}
    ensures exists m :: m in k && forall x :: x in k ==> m <= x
  {
    var m := LeastElement(k);
  }

  /** The least of a non-empty set of IDs; std::map keeps its keys in this order. */
  function Least(k: set<nat>): (m: nat)
    requires k != {}
    ensures m in k && forall x :: x in k ==> m <= x
  {
    HasLeast(k);
    var m :| m in k && forall x :: x in k ==> m <= x; m
  }

  /** getFirstArmy: the least army ID, or NO_ARMY with no armies. */
  function FirstArmy(s: MapState): (a: nat)
    ensures |s.armies| == 0 ==> a == NO_ARMY
    ensures |s.armies| > 0 ==> a in s.armies && forall b :: b in s.armies ==> a <= b
  {
    if |s.armies| == 0 then NO_ARMY
    else
      assert s.armies.Keys != {} by {
        var b :| b in s.armies;
      }
      Least(s.armies.Keys)
  }

  /**
   * getNextArmy: NO_ARMY when no army is selected or there are none;
   * otherwise the least army ID above the selected one, wrapping to the
   * first army after the last. The selected army must be on the map (for
   * any other the C++ increments the end iterator).
   */
  function NextArmy(s: MapState): (a: nat)
    requires s.currentArmy == NO_ARMY || |s.armies| == 0 || s.currentArmy in s.armies
    ensures s.currentArmy == NO_ARMY || |s.armies| == 0 ==> a == NO_ARMY
    ensures s.currentArmy != NO_ARMY && |s.armies| > 0 ==> a in s.armies
  {
    if s.currentArmy == NO_ARMY || |s.armies| == 0 then NO_ARMY
    else
      var above := set b | b in s.armies.Keys && b > s.currentArmy;
      if above == {} then FirstArmy(s) else Least(above)
  }

  /**
   * The next army is on the map, it is the nearest one above the selected
   * army if there is one, and otherwise the first army.
   */
  lemma NextArmyCycles(s: MapState)
    requires s.currentArmy != NO_ARMY && s.currentArmy in s.armies && NO_ARMY !in s.armies
    ensures var n := NextArmy(s);
      n in s.armies && n != NO_ARMY &&
      ((exists b :: b in s.armies && b > s.currentArmy) ==>
        n > s.currentArmy && forall b :: b in s.armies && b > s.currentArmy ==> n <= b) &&
      ((forall b :: b in s.armies ==> b <= s.currentArmy) ==> n == FirstArmy(s))
  {
    assert |s.armies| == |s.armies.Keys| && s.armies.Keys != {};
    var above := set b | b in s.armies.Keys && b > s.currentArmy;
    if b :| b in s.armies && b > s.currentArmy {
      assert b in above;
      var n := Least(above);
      assert NextArmy(s) == n;
      forall c | c in s.armies && c > s.currentArmy ensures n <= c
      {
        assert c in above;
      }
    }
  }

  /**
   * deleteArmy never clears the selected army. When it succeeds on the
   * selected army while another army remains, the selection names an army
   * that is no longer on the map and there are still armies, which is the
   * state in which getNextArmy steps past end().
   */
  lemma DeleteSelectedArmyStrandsSelection(s: MapState, transfer: nat, r: MapState)
    requires Consistent(s) && s.currentArmy in s.armies && (exists b :: b in s.armies && b != s.currentArmy)
    requires ArmyDeleted(s, s.currentArmy, transfer, r)
    ensures r.currentArmy == s.currentArmy && r.currentArmy != NO_ARMY
    ensures |r.armies| > 0 && r.currentArmy !in r.armies
  {
    var b :| b in s.armies && b != s.currentArmy;
    assert b in r.armies;
  }

  /** With one army, the next army is that army again. */
  lemma NextArmyOfOnly(s: MapState)
    requires s.currentArmy != NO_ARMY && s.armies.Keys == {s.currentArmy}
    ensures NextArmy(s) == s.currentArmy
  {
    assert (set b | b in s.armies.Keys && b > s.currentArmy) == {};
  }

  /** setSelectedArmy: selects an army on the map or NO_ARMY; anything else is refused. */
  function SetSelectedArmy(s: MapState, army: nat): (r: MapState)
    ensures r == s.(currentArmy := r.currentArmy)
    ensures r.currentArmy == s.currentArmy || r.currentArmy == NO_ARMY || r.currentArmy in s.armies
  {
    if (army == NO_ARMY || army in s.armies) && army != s.currentArmy then s.(currentArmy := army) else s
  }

  /** Only an army on the map or NO_ARMY can become selected, and selecting the selected army changes nothing. */
  lemma SetSelectedArmyEffect(s: MapState, army: nat)
    ensures var r := SetSelectedArmy(s, army);
      (army == NO_ARMY || army in s.armies ==> r == s.(currentArmy := army)) &&
      (army != NO_ARMY && army !in s.armies ==> r == s)
  {
  }
}
