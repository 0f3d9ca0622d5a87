// The map object itself: awe::map holds its state in fields and its public
// operations update them in place. GameMap keeps that state in one field
// and each method replaces it by the matching function of MapUnits,
// MapArmies, MapMap or MapScripts, keeping the map consistent.

module GameMaps {
  import opened Wrappers
  import opened Integers
  import opened MapEntities
  import opened MapData
  import opened MapUnits
  import opened MapArmies
  import GameProperties
  import MapMap
  import MapScripts

  class GameMap {
    var state: MapState

    /** The class invariant: the map's state is consistent. */
    ghost predicate Valid()
      reads this
    {
      Consistent(state)
    }

    /** A map object over a consistent state. */
    constructor (s: MapState)
      requires Consistent(s)
      ensures Valid() && state == s
    {
      state := s;
    }

    /** createUnit: the new unit's ID, or NO_UNIT when refused. */
    method CreateUnit(kind: UnitKind, army: nat) returns (id: nat)
      requires Valid()
      modifies this
      ensures Valid()
      ensures (state, id) == MapUnits.CreateUnit(old(state), kind, army)
    {
      CreateUnitConsistent(state, kind, army);
      var r := MapUnits.CreateUnit(state, kind, army);
      state, id := r.0, r.1;
    }

    /** setUnitPosition. */
    method SetUnitPosition(id: nat, pos: Pos)
      requires Valid()
      modifies this
      ensures Valid()
      ensures state == MapUnits.SetUnitPosition(old(state), id, pos)
    {
      SetUnitPositionConsistent(state, id, pos);
      state := MapUnits.SetUnitPosition(state, id, pos);
    }

    /** loadUnit, refusing a load that would close a cycle. */
    method LoadUnit(load: nat, onto: nat)
      requires Valid()
      modifies this
      ensures Valid()
      ensures state == MapUnits.LoadUnit(old(state), load, onto)
    {
      LoadUnitConsistent(state, load, onto);
      state := MapUnits.LoadUnit(state, load, onto);
    }

    /** unloadUnit. */
    method UnloadUnit(unload: nat, from: nat, onto: Pos)
      requires Valid()
      modifies this
      ensures Valid()
      ensures state == MapUnits.UnloadUnit(old(state), unload, from, onto)
    {
      UnloadUnitConsistent(state, unload, from, onto);
      state := MapUnits.UnloadUnit(state, unload, from, onto);
    }

    /** waitUnit. */
    method WaitUnit(id: nat, waiting: bool)
      requires Valid()
      modifies this
      ensures Valid()
      ensures state == MapMap.WaitUnit(old(state), id, waiting)
    {
      MapMap.WaitUnitLinks(state, id, waiting);
      SameLinksConsistent(state, MapMap.WaitUnit(state, id, waiting));
      state := MapMap.WaitUnit(state, id, waiting);
    }

    /** setTileOwner. */
    method SetTileOwner(pos: Pos, army: nat)
      requires Valid()
      modifies this
      ensures Valid()
      ensures state == MapArmies.SetTileOwner(old(state), pos, army)
    {
      SetTileOwnerConsistent(state, pos, army);
      state := MapArmies.SetTileOwner(state, pos, army);
    }

    /**
     * createArmy: whether the army was created. The new army's ID must not
     * be NO_ARMY and nothing on the map may still claim it.
     */
    method CreateArmy(country: Option<GameProperties.Country>) returns (ok: bool)
      requires Valid()
      requires country.Some? ==> country.value.turnOrder != NO_ARMY && Unclaimed(state, country.value.turnOrder)
      modifies this
      ensures Valid()
      ensures (state, ok) == MapArmies.CreateArmy(old(state), country)
    {
      CreateArmyConsistent(state, country);
      var r := MapArmies.CreateArmy(state, country);
      state, ok := r.0, r.1;
    }

    /** setArmyTeam. */
    method SetArmyTeam(army: nat, team: UInt32)
      requires Valid()
      modifies this
      ensures Valid()
      ensures army !in old(state).armies || team == old(state).armies[army].team ==> state == old(state)
      ensures army in old(state).armies && team != old(state).armies[army].team ==>
        var t := old(state).(armies := old(state).armies[army := old(state).armies[army].(team := team)]);
        StoppedFrom(t, state, TeamChangeStops(old(state), army)) && state.armies == t.armies
    {
      var s := state;
      var r := MapArmies.SetArmyTeam(s, army, team);
      if army in s.armies && team != s.armies[army].team {
        SetArmyTeamConsistent(s, army, team, r);
      }
      state := r;
    }

    /** setArmyFunds. */
    method SetArmyFunds(army: nat, funds: int)
      requires Valid()
      modifies this
      ensures Valid()
      ensures state == MapArmies.SetArmyFunds(old(state), army, funds)
    {
      var r := MapArmies.SetArmyFunds(state, army, funds);
      RetaggedLinks(state, r);
      SameLinksConsistent(state, r);
      state := r;
    }

    /** offsetArmyFunds. */
    method OffsetArmyFunds(army: nat, funds: int)
      requires Valid()
      modifies this
      ensures Valid()
      ensures state == MapArmies.OffsetArmyFunds(old(state), army, funds)
    {
      var r := MapArmies.OffsetArmyFunds(state, army, funds);
      RetaggedLinks(state, r);
      SameLinksConsistent(state, r);
      state := r;
    }

    /** setArmyCOs. */
    method SetArmyCOs(army: nat, current: Option<string>, tag: Option<string>)
      requires Valid()
      modifies this
      ensures Valid()
      ensures state == MapArmies.SetArmyCOs(old(state), army, current, tag)
    {
      var r := MapArmies.SetArmyCOs(state, army, current, tag);
      RetaggedLinks(state, r);
      SameLinksConsistent(state, r);
      state := r;
    }

    /** tagArmyCOs. */
    method TagArmyCOs(army: nat)
      requires Valid()
      modifies this
      ensures Valid()
      ensures state == MapArmies.TagArmyCOs(old(state), army)
    {
      var r := MapArmies.TagArmyCOs(state, army);
      RetaggedLinks(state, r);
      SameLinksConsistent(state, r);
      state := r;
    }

    /** setSelectedArmy. */
    method SetSelectedArmy(army: nat)
      requires Valid()
      modifies this
      ensures Valid()
      ensures state == MapArmies.SetSelectedArmy(old(state), army)
    {
      var r := MapArmies.SetSelectedArmy(state, army);
      SameLinksConsistent(state, r);
      state := r;
    }

    /** setMapName. */
    method SetMapName(name: string)
      requires Valid()
      modifies this
      ensures Valid()
      ensures state == MapMap.SetMapName(old(state), name)
    {
      var r := MapMap.SetMapName(state, name);
      SameLinksConsistent(state, r);
      state := r;
    }

    /** renameScriptFile. */
    method RenameScriptFile(oldName: string, newName: string)
      requires Valid()
      modifies this
      ensures Valid()
      ensures state == MapScripts.RenameScriptFile(old(state), oldName, newName)
    {
      var r := MapScripts.RenameScriptFile(state, oldName, newName);
      SameLinksConsistent(state, r);
      state := r;
    }
  }
}
