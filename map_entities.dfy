/**
 * The values a map stores: tile positions, units, armies and tiles, with the
 * record operations of the unit and army classes. The map keeps each of them
 * by value in its containers, so here they are datatypes that the map's own
 * operations replace.
 */
module MapEntities {
  import opened Wrappers
  import opened Integers
  import PropertyFields
  import Structures

  /** UnitID 0 means "no unit"; IDs are 32-bit unsigned integers. */
  const NO_UNIT: nat := 0
  const ID_OF_FIRST_UNIT: nat := 1
  const UNIT_ID_MAX: nat := 0xFFFF_FFFF

  /** awe::NO_ARMY, the largest ArmyID. */
  const NO_ARMY: nat := 0xFFFF_FFFF

  /** The largest TeamID. */
  const TEAM_ID_MAX: nat := 0xFFFF_FFFF

  /** An sf::Vector2u: a tile's column and row. */
  datatype Pos = Pos(x: UInt32, y: UInt32)

  /** unit::NO_POSITION: the largest vector, the position of a unit that is not on the map. */
  const NO_POSITION: Pos := Pos(0xFFFF_FFFF, 0xFFFF_FFFF)

  // ------------------------------------------------------------------
  // Units
  // ------------------------------------------------------------------

  /** What the map reads from a unit's type. */
  datatype UnitKind = UnitKind(scriptName: string, vision: UInt32, turnStartPriority: UInt32)

  datatype Unit = Unit(kind: UnitKind, army: nat, position: Pos, hp: Int32, fuel: Int32, ammo: Int32,
                       waiting: bool, capturing: bool, loaded: set<nat>, loadedOnto: nat)

  /** isOnMap: the unit occupies a tile. */
  predicate IsOnMap(u: Unit)
  {
    u.position != NO_POSITION
  }

  /** The unit is loaded onto another one. */
  predicate IsLoaded(u: Unit)
  {
    u.loadedOnto != NO_UNIT
  }

  /** A new unit of the given type and army, with the members' default values. */
  function NewUnit(kind: UnitKind, army: nat): (u: Unit)
    ensures u.kind == kind && u.army == army
    ensures !IsOnMap(u) && !IsLoaded(u) && u.loaded == {}
    ensures u.waiting && !u.capturing
  {
    Unit(kind, army, NO_POSITION, 0, 0, 0, true, false, {}, NO_UNIT)
  }

  /** The value setHP, setFuel and setAmmo store: 0 in place of a negative value. */
  function NonNegative(v: Int32): (r: Int32)
    ensures r >= 0
    ensures v >= 0 ==> r == v
    ensures v < 0 ==> r == 0
  {
    if v < 0 then 0 else v
  }

  function SetHP(u: Unit, hp: Int32): (r: Unit)
    ensures r.hp == NonNegative(hp) && r == u.(hp := r.hp)
  {
    u.(hp := NonNegative(hp))
  }

  function SetFuel(u: Unit, fuel: Int32): (r: Unit)
    ensures r.fuel == NonNegative(fuel) && r == u.(fuel := r.fuel)
  {
    u.(fuel := NonNegative(fuel))
  }

  function SetAmmo(u: Unit, ammo: Int32): (r: Unit)
    ensures r.ammo == NonNegative(ammo) && r == u.(ammo := r.ammo)
  {
    u.(ammo := NonNegative(ammo))
  }

  /** Setting a value a second time overrides the first; setting the stored value changes nothing. */
  lemma SettersOverride(u: Unit, a: Int32, b: Int32)
    ensures SetHP(SetHP(u, a), b) == SetHP(u, b)
    ensures SetFuel(SetFuel(u, a), b) == SetFuel(u, b)
    ensures SetAmmo(SetAmmo(u, a), b) == SetAmmo(u, b)
    ensures SetHP(SetHP(u, a), SetHP(u, a).hp) == SetHP(u, a)
  {
  }

  /** getDisplayedHP: the internal HP divided by the granularity, rounded up. */
  function DisplayedHP(u: Unit): (r: Int32)
    ensures (r - 1) * PropertyFields.HP_GRANULARITY < u.hp <= r * PropertyFields.HP_GRANULARITY
  {
    PropertyFields.DisplayedHP(u.hp)
  }

  /** unit::loadUnit: the ID joins the loaded set. */
  function LoadUnit(u: Unit, id: nat): (r: Unit)
    ensures r.loaded == u.loaded + {id} && r == u.(loaded := r.loaded)
  {
    u.(loaded := u.loaded + {id})
  }

  /** unit::unloadUnit: true exactly when the ID was loaded; it is removed either way. */
  function UnloadUnit(u: Unit, id: nat): (r: (bool, Unit))
    ensures r.0 <==> id in u.loaded
    ensures r.1.loaded == u.loaded - {id} && r.1 == u.(loaded := r.1.loaded)
  {
    (id in u.loaded, u.(loaded := u.loaded - {id}))
  }

  /** Unloading a unit just loaded succeeds and gives the unit back as it was. */
  lemma LoadThenUnload(u: Unit, id: nat)
    requires id !in u.loaded
    ensures UnloadUnit(LoadUnit(u, id), id) == (true, u)
  {
    assert LoadUnit(u, id).loaded - {id} == u.loaded;
  }

  /** unit::loadOnto: 0 means the unit is no longer loaded. */
  function LoadOnto(u: Unit, id: nat): (r: Unit)
    ensures r.loadedOnto == id && r == u.(loadedOnto := id)
    ensures IsLoaded(r) <==> id != NO_UNIT
  {
    u.(loadedOnto := id)
  }

  // ------------------------------------------------------------------
  // Armies
  // ------------------------------------------------------------------

  datatype Army = Army(country: string, team: UInt32, funds: int, currentCO: Option<string>,
                       tagCO: Option<string>, units: set<nat>, tiles: set<Pos>)

  /** A new army of a country: no funds, no COs, no units and no tiles. */
  function NewArmy(country: string, team: UInt32): (a: Army)
    ensures a.country == country && a.team == team && a.funds == 0
    ensures a.units == {} && a.tiles == {} && a.currentCO.None? && a.tagCO.None?
  {
    Army(country, team, 0, None, None, {}, {})
  }

  /** army::setFunds: a value of 0 or less stores 0. */
  function SetFunds(a: Army, funds: int): (r: Army)
    ensures r.funds >= 0 && (funds > 0 ==> r.funds == funds) && (funds <= 0 ==> r.funds == 0)
    ensures r == a.(funds := r.funds)
  {
    a.(funds := if funds <= 0 then 0 else funds)
  }

  /** army::setCOs: a tag CO given without a current CO becomes the current CO, leaving no tag CO. */
  function SetCOs(a: Army, current: Option<string>, tag: Option<string>): (r: Army)
    ensures current.Some? ==> r.currentCO == current && r.tagCO == tag
    ensures current.None? && tag.Some? ==> r.currentCO == tag && r.tagCO.None?
    ensures r == a.(currentCO := r.currentCO, tagCO := r.tagCO)
  {
    if current.None? && tag.Some? then a.(currentCO := tag, tagCO := None)
    else a.(currentCO := current, tagCO := tag)
  }

  /** army::tagCOs: swaps the two COs, unless there is no tag CO. */
  function TagCOs(a: Army): (r: Army)
    ensures a.tagCO.None? ==> r == a
    ensures a.tagCO.Some? ==> r.currentCO == a.tagCO && r.tagCO == a.currentCO
    ensures r == a.(currentCO := r.currentCO, tagCO := r.tagCO)
  {
    if a.tagCO.None? then a else a.(currentCO := a.tagCO, tagCO := a.currentCO)
  }

  /** Whatever COs are given, at least one of them ends up current. */
  lemma SetCOsKeepsACurrentCO(a: Army, current: Option<string>, tag: Option<string>)
    requires current.Some? || tag.Some?
    ensures SetCOs(a, current, tag).currentCO.Some?
  {
  }

  /** Tagging twice with both COs present restores the pair. */
  lemma TagCOsTwice(a: Army)
    requires a.currentCO.Some? && a.tagCO.Some?
    ensures TagCOs(TagCOs(a)) == a
  {
  }

  // ------------------------------------------------------------------
  // Tiles
  // ------------------------------------------------------------------

  /** What the map reads from a tile's type: its script name and its terrain's maximum HP. */
  datatype TileKind = TileKind(scriptName: string, maxHP: Int32)

  /** A tile: its type, owner, HP, the unit on it and its structure data. */
  datatype Tile = Tile(kind: TileKind, owner: nat, hp: Int32, unit: nat,
                       structure: Option<Structures.Structure>, structureOffset: Structures.Offset,
                       destroyed: bool)

  /** A tile as setMapSize creates it: the given type and owner, HP 0, no unit, no structure. */
  function NewTile(kind: TileKind, owner: nat): (t: Tile)
    ensures t.kind == kind && t.owner == owner && t.unit == NO_UNIT && t.structure.None?
  {
    Tile(kind, owner, 0, NO_UNIT, None, Structures.ORIGIN, false)
  }
}
